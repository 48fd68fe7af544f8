/** The component records the renderer reads from each sprite entity. */
module Components {
  import opened Numerics

  datatype Position = Position(x: Float, y: Float)
  datatype Rotation = Rotation(angle: Float)
  datatype Scale = Scale(width: Float, height: Float)
  /** A rectangle of the texture atlas, in normalised coordinates. */
  datatype Sprite = Sprite(u: Float, v: Float, width: Float, height: Float)
}
