# Sprite batch and frame renderer

This project models the sprite renderer of a MoonWorks scene in Dafny. The
scene is a sun, planet, moon and background drawn as GPU-instanced quads.
The model covers two parts:

- **`SpriteBatch`** (`Batching.SpriteBatch`). It owns a staging (transfer)
  buffer of `MAX_SPRITE_COUNT` = 8192 instance records. `Begin` maps the
  buffer and resets the write index. `Add` writes the eight fields of one
  record and moves the index on. `Upload` unmaps the buffer and copies it to
  the device buffer, but only when a record was added. `Render` binds the
  pipeline, the storage buffer and the atlas sampler, then draws `6 × count`
  vertices as one instance, but only when the count is non-zero.
- **`Renderer.Render`** (`Rendering.Renderer.Render`). This is one frame.
  With no swapchain texture, the frame only submits the command buffer.
  Otherwise it runs `Begin`, then one `Add` per entity of the sprite filter,
  then `Upload`. It then opens a render pass that clears to black, pushes the
  camera uniform, calls the batch's `Render`, closes the pass and submits.

The instance record (`InstanceLayout.SpriteInstance`) has an explicit
64-byte layout. The fields start at byte offsets 0, 12, 16, 24, 28, 32, 36
and 48, and bytes 40–47 are padding. The model gives the byte image
(`Encode`), reads it back field by field (`Decode`), and proves that both
round trips hold.

How the model represents the source:

- Floats are opaque (`Numerics.Float`). Each one is kept as the four bytes of
  its IEEE-754 bit pattern, in memory order, because the batch only copies
  them.
- The graphics device is observed through events (`Gpu.Event`). Each batch
  method returns the events it causes: the transfer-buffer map and unmap,
  one `WriteInstance` per record written through the mapping, the commands
  of the copy pass and the render pass, and the submission. `Renderer.Render`
  returns the whole frame's trace. It is proved equal to the specification
  function `FrameTrace`, and the lemmas below are proved about that function.
- The sprite filter is a parameter: a sequence of `SpriteEntity` records,
  each holding Position, Scale, Sprite and an optional Rotation. Whether a
  swapchain texture was acquired is also a parameter (`Option<Texture>`).
- An `Add` past the last slot indexes the mapped span out of range. The
  source throws there. The model returns `Fail(IndexOutOfRange)` and leaves
  the batch unchanged. The frame then ends with no upload, no render pass
  and no submission.
- `InstanceCount * 6` is `uint` arithmetic, so `VertexCount` reduces it
  modulo 2^32. Within the capacity, no wrap-around is possible.

## Model

| member | source | states |
|---|---|---|
| InstanceLayout.FieldsDisjoint | src/Graphics/SpriteBatch.cs:11-37 | no byte of the record belongs to two fields |
| InstanceLayout.FieldsWithinStride | src/Graphics/SpriteBatch.cs:11-37 | every field lies inside the 64-byte record |
| InstanceLayout.PaddingIsUnowned | src/Graphics/SpriteBatch.cs:32-36 | a byte of the record belongs to some field iff it is not one of bytes 40–47 |
| InstanceLayout.EncodePlacesField | src/Graphics/SpriteBatch.cs:11-37 | in the staged image, each field's bytes sit exactly at its declared offset (0, 12, 16, 24, 28, 32, 36, 48) |
| InstanceLayout.EncodeKeepsPadding | src/Graphics/SpriteBatch.cs:32-36 | the padding bytes 40–47 of the staged image keep whatever the buffer held |
| InstanceLayout.DecodeEncode | src/Graphics/SpriteBatch.cs:11-37 | reading a staged record back at the declared offsets gives every field that was written, whatever the padding holds |
| InstanceLayout.EncodeDecode | src/Graphics/SpriteBatch.cs:11-37 | every 64-byte image is the encoding of the record it decodes to, with its own padding, so the layout loses nothing |
| Batching.VertexCountExact | src/Graphics/SpriteBatch.cs:153 | for at most 8192 records, the `uint` product `InstanceCount * 6` does not wrap |
| Batching.UploadCopiesIffNonEmpty | src/Graphics/SpriteBatch.cs:134-144 | `Upload` always unmaps first, and issues exactly one staging-to-device copy iff the count is positive, otherwise none |
| Batching.RenderDrawsIffNonEmpty | src/Graphics/SpriteBatch.cs:146-155 | `Render` issues exactly one draw, of `6 × count` vertices, one instance, both offsets 0, iff the count is positive, otherwise no draw |
| Batching.SpriteBatch.constructor | src/Graphics/SpriteBatch.cs:93-103 | both buffers hold `MAX_SPRITE_COUNT` records; nothing is mapped and the count is 0 |
| Batching.SpriteBatch.Begin | src/Graphics/SpriteBatch.cs:106-110 | maps the staging buffer (cycling) and resets the count to 0; the device buffer is untouched |
| Batching.SpriteBatch.Add | src/Graphics/SpriteBatch.cs:112-132 | below capacity: writes all eight fields of slot `old index`, adds exactly 1 to the index, appends the record to the contents and leaves every other slot unchanged; at capacity: fails out of range and changes nothing |
| Batching.SpriteBatch.Upload | src/Graphics/SpriteBatch.cs:134-144 | unmaps, keeps the count, issues the upload events, and the device buffer receives the staging buffer iff the count is positive |
| Batching.SpriteBatch.Render | src/Graphics/SpriteBatch.cs:146-155 | changes nothing and issues the bindings and the draw for the current count, or nothing when it is 0 |
| Rendering.Renderer.constructor | src/Graphics/Renderer.cs:20-37 | keeps the atlas texture and sampler and creates a fresh batch with count 0 and nothing mapped |
| Rendering.Renderer.Render | src/Graphics/Renderer.cs:42-82 | the frame's events are `FrameTrace`. With no swapchain texture the trace is only the submission and the batch is untouched. Otherwise the batch holds the entities' records in filter order, and after a completed frame the device buffer begins with them. A frame with a target and no entities, or one that overflows, leaves the device buffer as it was. A frame with a target fails iff there are more than 8192 entities; a frame without one never fails |
| Rendering.StagedRecord | src/Graphics/Renderer.cs:57-66 | the staged record of an entity reads back as position (X, Y, 0), rotation = its Angle or 0 when it has no Rotation, scale (Width, Height), its atlas rectangle, and white |
| Rendering.FrameWritesEntities | src/Graphics/Renderer.cs:50-67 | a frame with a target writes record i of entity i into slot i, for every entity in filter order up to the capacity, and writes nothing else |
| Rendering.FrameSubmitsOnce | src/Graphics/Renderer.cs:46-81 | every completed frame, skipped or drawn, submits exactly once; a frame that overflows the batch never submits |
| Rendering.FrameCopiesIffSprites | src/Graphics/Renderer.cs:48-68 | a frame copies exactly once iff it has a target and 1 to 8192 entities, otherwise never |
| Rendering.FrameDrawsIffSprites | src/Graphics/Renderer.cs:48-78 | a frame draws exactly once, `6 × entities` vertices of one instance, iff it has a target and 1 to 8192 entities, otherwise never |
| Rendering.FrameRendersOnePass | src/Graphics/Renderer.cs:48-79 | a frame with a target and at most 8192 entities, even one with no sprites, opens exactly one render pass clearing the target to black, pushes the uniform once and ends the pass once; any other frame has no render pass |
| Rendering.FrameInStageOrder | src/Graphics/Renderer.cs:50-81 | the events of every frame follow a fixed order: map, then all writes, unmap, the copy pass, begin render pass, the uniform push, the bindings and the draw, end render pass, submit |

## Left out

- Shader compilation, pipeline state and the creation of the transfer and device buffers (src/Graphics/SpriteBatch.cs:47-104) are foreign graphics-library calls. Only their capacity is modelled.
- Texture loading and sampler creation (src/Graphics/Renderer.cs:20-35) are I/O and device setup. The atlas texture and the sampler are opaque handles passed to the constructor.
- The orthographic camera matrix (src/Graphics/Renderer.cs:44) is floating-point matrix construction. The model records only that the uniform push happens.
- The orbit, rotation and pulsation system (src/Systems/Space.cs), the scene setup (src/Assignments/SimpleScene.cs) and the application loop (Program.cs) are not part of this model. They are floating-point trigonometry over the external MoonTools.ECS entity store.
- The entity store (MoonTools.ECS) is not part of this model. The sprite filter is a given sequence, and each entity in it is assumed to carry Position and Scale. What `Get` does for a missing component is not modelled. The scene's sun has no Scale until the first update.
- Acquiring the command buffer and the swapchain texture are device calls. The command buffer is implicit in the trace, and acquisition is a parameter.
- GPU execution is not modelled: synchronisation, the copy finishing before the render pass reads, and shader execution. `deviceData` is the device buffer as the recorded copy leaves it, as if that copy had run.
- Batching.SpriteBatch.Begin: may change every slot and says nothing about what the slots hold after mapping. Mapping with cycling may hand out fresh memory, so the previous frame's records are not promised to survive.
- Batching.SpriteBatch.Add: requires the staging buffer to be mapped. Taking the mapped span of an unmapped buffer is a usage error of the graphics library, and its behaviour there is not modelled.
- Rendering.Renderer.Render: on overflow, the command buffer is left unsubmitted and the staging buffer stays mapped. What later frames do with that state is not modelled.
- Float values are opaque bit patterns. No floating-point arithmetic happens in the modelled core.
