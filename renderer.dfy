/**
 * The frame renderer: acquire the swapchain target, fill the sprite batch
 * from the sprite-filtered entities, upload it, draw it inside a render
 * pass that clears to black, and submit the command buffer.
 */
module Rendering {
  import opened Wrappers
  import opened Numerics
  import opened Components
  import opened InstanceLayout
  import opened Gpu
  import opened Batching

  /**
   * One entity yielded by the sprite filter, with the components the
   * renderer reads from it; Rotation is optional.
   */
  datatype SpriteEntity = SpriteEntity(position: Position, scale: Scale, sprite: Sprite, rotation: Option<Rotation>)

  /** The angle of the entity's Rotation, or 0 when it has none. */
  function AngleOrZero(rotation: Option<Rotation>): Float
  {
    if rotation.Some? then rotation.value.angle else ZERO
  }

  /** The record the renderer adds for an entity: z is 0 and the tint is white. */
  function InstanceOf(e: SpriteEntity): SpriteInstance
  {
    SpriteInstance(
      Vector3(e.position.x, e.position.y, ZERO),
      AngleOrZero(e.rotation),
      Vector2(e.scale.width, e.scale.height),
      e.sprite.u, e.sprite.v, e.sprite.width, e.sprite.height,
      WHITE)
  }

  /**
   * What the shader reads back from the staged record of an entity: its
   * position with z = 0, its angle or 0 when it has no Rotation, its scale,
   * its atlas rectangle and a white tint, whatever the padding bytes hold.
   */
  lemma StagedRecord(e: SpriteEntity, padding: seq<bv8>)
    requires |padding| == 8
    ensures var r := Decode(Encode(InstanceOf(e), padding));
      && r.position == Vector3(e.position.x, e.position.y, ZERO)
      && r.rotation == (if e.rotation.Some? then e.rotation.value.angle else ZERO)
      && r.scale == Vector2(e.scale.width, e.scale.height)
      && r.texU == e.sprite.u && r.texV == e.sprite.v
      && r.texW == e.sprite.width && r.texH == e.sprite.height
      && r.color == WHITE
  {
    DecodeEncode(InstanceOf(e), padding);
  }

  /** The records for the entities, in filter order. */
  function Instances(entities: seq<SpriteEntity>): seq<SpriteInstance>
  {
    seq(|entities|, i requires 0 <= i < |entities| => InstanceOf(entities[i]))
  }

  /** The writes that put `records` into slots 0, 1, 2, ... */
  function Writes(records: seq<SpriteInstance>): seq<Event>
  {
    seq(|records|, i requires 0 <= i < |records| => WriteInstance(i, records[i]))
  }

  /**
   * The events of one `Render` call.  Without a swapchain target only the
   * submission happens.  More entities than the batch holds make the add
   * after the last slot throw, which ends the frame before the upload and
   * before the submission.
   */
  function FrameTrace(swapchainTexture: Option<Texture>, entities: seq<SpriteEntity>,
                      atlas: Texture, sampler: Sampler): seq<Event>
  {
    match swapchainTexture
    case None => [Submit]
    case Some(target) =>
      var records := Instances(entities);
      if |records| > MAX_SPRITE_COUNT then
        [MapTransfer(true)] + Writes(records[..MAX_SPRITE_COUNT])
      else
        [MapTransfer(true)] + Writes(records) + UploadEvents(|records|)
        + [BeginRenderPass(target, BLACK), PushVertexUniform]
        + DrawEvents(|records|, atlas, sampler)
        + [EndRenderPass, Submit]
  }

  lemma WritesAreWrites(records: seq<SpriteInstance>)
    ensures forall e :: e in Writes(records) ==> e.WriteInstance?
  {
    forall e | e in Writes(records)
      ensures e.WriteInstance?
    {
      var i :| 0 <= i < |records| && Writes(records)[i] == e;
    }
  }

  /** Every frame that completes submits its command buffer exactly once; one that throws never does. */
  lemma FrameSubmitsOnce(swapchainTexture: Option<Texture>, entities: seq<SpriteEntity>,
                         atlas: Texture, sampler: Sampler)
    ensures Select(FrameTrace(swapchainTexture, entities, atlas, sampler), IsSubmit) ==
      if swapchainTexture.Some? && |entities| > MAX_SPRITE_COUNT then [] else [Submit]
  {
    var t := FrameTrace(swapchainTexture, entities, atlas, sampler);
    match swapchainTexture
    case None =>
      SelectOne([], Submit, [], IsSubmit);
    case Some(target) =>
      var records := Instances(entities);
      if |records| > MAX_SPRITE_COUNT {
        WritesAreWrites(records[..MAX_SPRITE_COUNT]);
        SelectNone(t, IsSubmit);
      } else {
        WritesAreWrites(records);
        var front := t[..|t| - 1];
        assert t == front + [Submit] + [];
        SelectOne(front, Submit, [], IsSubmit);
      }
  }

  /**
   * A frame copies the staging buffer to the device buffer exactly once when
   * it has a target and between 1 and `MAX_SPRITE_COUNT` entities, and
   * otherwise not at all.
   */
  lemma FrameCopiesIffSprites(swapchainTexture: Option<Texture>, entities: seq<SpriteEntity>,
                              atlas: Texture, sampler: Sampler)
    ensures Select(FrameTrace(swapchainTexture, entities, atlas, sampler), IsCopy) ==
      if swapchainTexture.Some? && 0 < |entities| <= MAX_SPRITE_COUNT then [UploadToBuffer(true)] else []
  {
    var t := FrameTrace(swapchainTexture, entities, atlas, sampler);
    match swapchainTexture
    case None =>
      SelectNone(t, IsCopy);
    case Some(target) =>
      var records := Instances(entities);
      var n := |records|;
      if n > MAX_SPRITE_COUNT {
        WritesAreWrites(records[..MAX_SPRITE_COUNT]);
        SelectNone(t, IsCopy);
      } else if n == 0 {
        SelectNone(t, IsCopy);
      } else {
        WritesAreWrites(records);
        var before := [MapTransfer(true)] + Writes(records) + [UnmapTransfer, BeginCopyPass];
        var after := [EndCopyPass] + [BeginRenderPass(target, BLACK), PushVertexUniform]
          + DrawEvents(n, atlas, sampler) + [EndRenderPass, Submit];
        assert t == before + [UploadToBuffer(true)] + after;
        SelectOne(before, UploadToBuffer(true), after, IsCopy);
      }
  }

  /**
   * A frame with a target that completes opens exactly one render pass,
   * clearing the target to black, pushes the camera uniform once and closes
   * the pass once, whether or not it has sprites; any other frame has no
   * render pass.
   */
  lemma FrameRendersOnePass(swapchainTexture: Option<Texture>, entities: seq<SpriteEntity>,
                            atlas: Texture, sampler: Sampler)
    ensures var t := FrameTrace(swapchainTexture, entities, atlas, sampler);
      var completes := swapchainTexture.Some? && |entities| <= MAX_SPRITE_COUNT;
      && Select(t, IsPassBegin) == (if completes then [BeginRenderPass(swapchainTexture.value, BLACK)] else [])
      && Select(t, IsUniformPush) == (if completes then [PushVertexUniform] else [])
      && Select(t, IsPassEnd) == (if completes then [EndRenderPass] else [])
  {
    var t := FrameTrace(swapchainTexture, entities, atlas, sampler);
    match swapchainTexture
    case None =>
      SelectNone(t, IsPassBegin);
      SelectNone(t, IsUniformPush);
      SelectNone(t, IsPassEnd);
    case Some(target) =>
      var records := Instances(entities);
      var n := |records|;
      if n > MAX_SPRITE_COUNT {
        WritesAreWrites(records[..MAX_SPRITE_COUNT]);
        SelectNone(t, IsPassBegin);
        SelectNone(t, IsUniformPush);
        SelectNone(t, IsPassEnd);
      } else {
        WritesAreWrites(records);
        var opening := [MapTransfer(true)] + Writes(records) + UploadEvents(n);
        var d := DrawEvents(n, atlas, sampler);
        assert t == opening + [BeginRenderPass(target, BLACK), PushVertexUniform] + d + [EndRenderPass, Submit];
        OnePassBetween(opening, target, d);
      }
  }

  /** A render pass between events that are neither pass boundaries nor uniform pushes. */
  lemma OnePassBetween(opening: seq<Event>, target: Texture, d: seq<Event>)
    requires forall x :: x in opening ==> !IsPassBegin(x) && !IsUniformPush(x) && !IsPassEnd(x)
    requires forall x :: x in d ==> !IsPassBegin(x) && !IsUniformPush(x) && !IsPassEnd(x)
    ensures var t := opening + [BeginRenderPass(target, BLACK), PushVertexUniform] + d + [EndRenderPass, Submit];
      && Select(t, IsPassBegin) == [BeginRenderPass(target, BLACK)]
      && Select(t, IsUniformPush) == [PushVertexUniform]
      && Select(t, IsPassEnd) == [EndRenderPass]
  {
    var begin := BeginRenderPass(target, BLACK);
    var t := opening + [begin, PushVertexUniform] + d + [EndRenderPass, Submit];
    assert t == opening + [begin] + ([PushVertexUniform] + d + [EndRenderPass, Submit]);
    SelectOne(opening, begin, [PushVertexUniform] + d + [EndRenderPass, Submit], IsPassBegin);
    assert t == (opening + [begin]) + [PushVertexUniform] + (d + [EndRenderPass, Submit]);
    SelectOne(opening + [begin], PushVertexUniform, d + [EndRenderPass, Submit], IsUniformPush);
    assert t == (opening + [begin, PushVertexUniform] + d) + [EndRenderPass] + [Submit];
    SelectOne(opening + [begin, PushVertexUniform] + d, EndRenderPass, [Submit], IsPassEnd);
  }

  /**
   * A frame draws exactly once, `6 * |entities|` vertices of one instance
   * from vertex 0, when it has a target and between 1 and
   * `MAX_SPRITE_COUNT` entities, and otherwise draws nothing.
   */
  lemma FrameDrawsIffSprites(swapchainTexture: Option<Texture>, entities: seq<SpriteEntity>,
                             atlas: Texture, sampler: Sampler)
    ensures Select(FrameTrace(swapchainTexture, entities, atlas, sampler), IsDraw) ==
      if swapchainTexture.Some? && 0 < |entities| <= MAX_SPRITE_COUNT
      then [DrawPrimitives(6 * |entities|, 1, 0, 0)] else []
  {
    var t := FrameTrace(swapchainTexture, entities, atlas, sampler);
    match swapchainTexture
    case None =>
      SelectNone(t, IsDraw);
    case Some(target) =>
      var records := Instances(entities);
      var n := |records|;
      if n > MAX_SPRITE_COUNT {
        WritesAreWrites(records[..MAX_SPRITE_COUNT]);
        SelectNone(t, IsDraw);
      } else if n == 0 {
        SelectNone(t, IsDraw);
      } else {
        WritesAreWrites(records);
        VertexCountExact(n);
        var draw := DrawPrimitives(6 * n, 1, 0, 0);
        var before := [MapTransfer(true)] + Writes(records) + UploadEvents(n)
          + [BeginRenderPass(target, BLACK), PushVertexUniform]
          + [BindGraphicsPipeline, BindVertexStorageBuffer, BindFragmentSampler(atlas, sampler)];
        var after := [EndRenderPass, Submit];
        assert t == before + [draw] + after;
        SelectOne(before, draw, after, IsDraw);
      }
  }

  /** The writes of a trace made of a map, writes, and events that are not writes. */
  lemma SelectWrites(records: seq<SpriteInstance>, rest: seq<Event>)
    requires forall e :: e in rest ==> !IsWrite(e)
    ensures Select([MapTransfer(true)] + Writes(records) + rest, IsWrite) == Writes(records)
  {
    var w := Writes(records);
    SelectAppend([MapTransfer(true)] + w, rest, IsWrite);
    SelectAppend([MapTransfer(true)], w, IsWrite);
    SelectNone([MapTransfer(true)], IsWrite);
    SelectNone(rest, IsWrite);
    SelectAll(w, IsWrite);
  }

  /** The writes of a frame are the entities' records, in filter order, into consecutive slots. */
  lemma FrameWritesEntities(target: Texture, entities: seq<SpriteEntity>, atlas: Texture, sampler: Sampler)
    ensures var n := if |entities| <= MAX_SPRITE_COUNT then |entities| else MAX_SPRITE_COUNT;
      Select(FrameTrace(Some(target), entities, atlas, sampler), IsWrite) ==
        seq(n, i requires 0 <= i < n => WriteInstance(i, InstanceOf(entities[i])))
  {
    var records := Instances(entities);
    var n := if |records| <= MAX_SPRITE_COUNT then |records| else MAX_SPRITE_COUNT;
    if |records| > MAX_SPRITE_COUNT {
      SelectWrites(records[..n], []);
      assert FrameTrace(Some(target), entities, atlas, sampler) == [MapTransfer(true)] + Writes(records[..n]) + [];
    } else {
      assert records[..n] == records;
      var rest := UploadEvents(n) + [BeginRenderPass(target, BLACK), PushVertexUniform]
        + DrawEvents(n, atlas, sampler) + [EndRenderPass, Submit];
      SelectWrites(records, rest);
      assert FrameTrace(Some(target), entities, atlas, sampler) == [MapTransfer(true)] + Writes(records) + rest;
    }
  }

  lemma UploadInStageOrder(n: nat)
    ensures InStageOrder(UploadEvents(n)) && StagesWithin(UploadEvents(n), 2, 5)
  {
  }

  lemma DrawInStageOrder(n: nat, atlas: Texture, sampler: Sampler)
    ensures InStageOrder(DrawEvents(n, atlas, sampler)) && StagesWithin(DrawEvents(n, atlas, sampler), 8, 11)
  {
  }

  lemma WritesInStageOrder(records: seq<SpriteInstance>)
    ensures InStageOrder(Writes(records)) && StagesWithin(Writes(records), 1, 1)
  {
    WritesAreWrites(records);
  }

  /** The map followed by the record writes. */
  lemma RecordingInStageOrder(records: seq<SpriteInstance>)
    ensures InStageOrder([MapTransfer(true)] + Writes(records))
    ensures StagesWithin([MapTransfer(true)] + Writes(records), 0, 1)
  {
    WritesInStageOrder(records);
    OrderedAppend([MapTransfer(true)], Writes(records), 0, 1, 1);
  }

  /** The events after the writes of a completed frame. */
  lemma ClosingInStageOrder(n: nat, target: Texture, atlas: Texture, sampler: Sampler)
    ensures var rest := UploadEvents(n) + [BeginRenderPass(target, BLACK), PushVertexUniform]
      + DrawEvents(n, atlas, sampler) + [EndRenderPass, Submit];
      InStageOrder(rest) && StagesWithin(rest, 2, 13)
  {
    var u := UploadEvents(n);
    var pass := [BeginRenderPass(target, BLACK), PushVertexUniform];
    var d := DrawEvents(n, atlas, sampler);
    var close := [EndRenderPass, Submit];
    UploadInStageOrder(n);
    DrawInStageOrder(n, atlas, sampler);
    OrderedAppend(u, pass, 2, 6, 7);
    OrderedAppend(u + pass, d, 2, 8, 11);
    OrderedAppend(u + pass + d, close, 2, 12, 13);
  }

  /**
   * Every frame runs in the fixed order: map, record writes, unmap, copy
   * pass, render pass with the uniform push, the bindings and the draw
   * inside it, then submission.
   */
  lemma FrameInStageOrder(swapchainTexture: Option<Texture>, entities: seq<SpriteEntity>,
                          atlas: Texture, sampler: Sampler)
    ensures InStageOrder(FrameTrace(swapchainTexture, entities, atlas, sampler))
  {
    match swapchainTexture
    case None =>
    case Some(target) =>
      var records := Instances(entities);
      var n := |records|;
      if n > MAX_SPRITE_COUNT {
        RecordingInStageOrder(records[..MAX_SPRITE_COUNT]);
      } else {
        var rest := UploadEvents(n) + [BeginRenderPass(target, BLACK), PushVertexUniform]
          + DrawEvents(n, atlas, sampler) + [EndRenderPass, Submit];
        RecordingInStageOrder(records);
        ClosingInStageOrder(n, target, atlas, sampler);
        OrderedAppend([MapTransfer(true)] + Writes(records), rest, 0, 2, 13);
        assert FrameTrace(swapchainTexture, entities, atlas, sampler)
          == [MapTransfer(true)] + Writes(records) + rest;
      }
  }

  class Renderer {
    const spriteBatch: SpriteBatch
    const spriteAtlasTexture: Texture
    const linearSampler: Sampler

    ghost predicate Valid()
      reads this, spriteBatch
    {
      spriteBatch.Valid()
    }

    /** Takes the atlas texture and sampler created at start-up and makes the batch. */
    constructor (atlas: Texture, sampler: Sampler)
      ensures Valid() && fresh(spriteBatch) && fresh(spriteBatch.slots)
      ensures spriteBatch.InstanceCount() == 0 && !spriteBatch.mapped
      ensures spriteAtlasTexture == atlas && linearSampler == sampler
    {
      spriteBatch := new SpriteBatch();
      spriteAtlasTexture := atlas;
      linearSampler := sampler;
    }

    /**
     * Renders one frame.  `swapchainTexture` is what acquiring the swapchain
     * texture gave; `entities` is the sprite filter's entities in iteration
     * order.  Returns the frame's events and whether it completed.
     */
    method Render(swapchainTexture: Option<Texture>, entities: seq<SpriteEntity>)
      returns (outcome: Outcome, trace: seq<Event>)
      requires Valid()
      modifies spriteBatch, spriteBatch.slots
      ensures Valid()
      ensures trace == FrameTrace(swapchainTexture, entities, spriteAtlasTexture, linearSampler)
      ensures outcome.Fail? <==> swapchainTexture.Some? && |entities| > MAX_SPRITE_COUNT
      ensures outcome.Fail? ==> outcome.error == IndexOutOfRange && spriteBatch.mapped
      ensures swapchainTexture.None? ==> unchanged(spriteBatch) && unchanged(spriteBatch.slots)
      ensures swapchainTexture.Some? ==>
        spriteBatch.Contents() ==
          if |entities| <= MAX_SPRITE_COUNT then Instances(entities) else Instances(entities)[..MAX_SPRITE_COUNT]
      ensures swapchainTexture.Some? && (|entities| == 0 || outcome.Fail?) ==>
        spriteBatch.deviceData == old(spriteBatch.deviceData)
      ensures swapchainTexture.Some? && outcome.Pass? ==>
        && !spriteBatch.mapped
        && (|entities| > 0 ==> spriteBatch.deviceData[..|entities|] == Instances(entities))
    {
      outcome := Pass;
      if swapchainTexture.None? {
        trace := [Submit];
        return;
      }
      var target := swapchainTexture.value;
      trace := spriteBatch.Begin();
      ghost var records := Instances(entities);
      var i := 0;
      while i < |entities|
        invariant 0 <= i <= |entities|
        invariant spriteBatch.Valid() && spriteBatch.mapped
        invariant spriteBatch.instanceIndex == i
        invariant spriteBatch.deviceData == old(spriteBatch.deviceData)
        invariant spriteBatch.Contents() == records[..i]
        invariant trace == [MapTransfer(true)] + Writes(records[..i])
      {
        var e := entities[i];
        var added, events := spriteBatch.Add(
          Vector3(e.position.x, e.position.y, ZERO),
          if e.rotation.Some? then e.rotation.value.angle else ZERO,
          Vector2(e.scale.width, e.scale.height),
          e.sprite.u, e.sprite.v, e.sprite.width, e.sprite.height,
          WHITE);
        if added.Fail? {
          return added, trace;
        }
        assert records[i] == InstanceOf(e);
        assert records[..i + 1] == records[..i] + [records[i]];
        assert events == [WriteInstance(i, records[i])];
        assert Writes(records[..i + 1]) == Writes(records[..i]) + events;
        trace := trace + events;
        i := i + 1;
      }
      assert records[..i] == records;
      var uploaded := spriteBatch.Upload();
      trace := trace + uploaded;
      trace := trace + [BeginRenderPass(target, BLACK), PushVertexUniform];
      var drawn := spriteBatch.Render(spriteAtlasTexture, linearSampler);
      trace := trace + drawn + [EndRenderPass, Submit];
    }
  }
}
