/**
 * The sprite batch: a staging (transfer) buffer of `MAX_SPRITE_COUNT`
 * instance records that is mapped at the start of a frame, filled one
 * record at a time, unmapped and copied to a device-resident storage
 * buffer, and drawn with one instanced call whose vertices the shader
 * pulls from that buffer (six per sprite quad).
 */
module Batching {
  import opened Numerics
  import opened InstanceLayout
  import opened Gpu

  /** Capacity of the staging and device buffers, in records. */
  const MAX_SPRITE_COUNT: nat := 8192

  datatype Error = IndexOutOfRange
  /** Whether a call completed or threw. */
  datatype Outcome = Pass | Fail(error: Error)

  /** `InstanceCount * 6` evaluated on `uint`, which wraps at 2^32. */
  function VertexCount(instanceCount: nat): nat
  {
    (instanceCount * 6) % 0x1_0000_0000
  }

  /** Within the capacity the vertex count never wraps: six vertices per sprite. */
  lemma VertexCountExact(instanceCount: nat)
    requires instanceCount <= MAX_SPRITE_COUNT
    ensures VertexCount(instanceCount) == 6 * instanceCount
  {
  }

  /** What `Upload` issues: the unmap, then a copy pass only when there is something to copy. */
  function UploadEvents(instanceCount: nat): seq<Event>
  {
    [UnmapTransfer] + if instanceCount > 0 then [BeginCopyPass, UploadToBuffer(true), EndCopyPass] else []
  }

  /** What `Render` issues: bindings and one draw when there is something to draw, else nothing. */
  function DrawEvents(instanceCount: nat, texture: Texture, sampler: Sampler): seq<Event>
  {
    if instanceCount > 0 then
      [BindGraphicsPipeline, BindVertexStorageBuffer, BindFragmentSampler(texture, sampler),
       DrawPrimitives(VertexCount(instanceCount), 1, 0, 0)]
    else []
  }

  /** `Upload` always unmaps first, and copies exactly once iff a record was added. */
  lemma UploadCopiesIffNonEmpty(instanceCount: nat)
    ensures UploadEvents(instanceCount)[0] == UnmapTransfer
    ensures Select(UploadEvents(instanceCount), IsCopy) ==
      if instanceCount > 0 then [UploadToBuffer(true)] else []
  {
    if instanceCount > 0 {
      SelectOne([UnmapTransfer, BeginCopyPass], UploadToBuffer(true), [EndCopyPass], IsCopy);
      assert UploadEvents(instanceCount) == [UnmapTransfer, BeginCopyPass] + [UploadToBuffer(true)] + [EndCopyPass];
    } else {
      SelectNone(UploadEvents(instanceCount), IsCopy);
    }
  }

  /** `Render` draws exactly once, `6 * count` vertices of one instance, iff a record was added. */
  lemma RenderDrawsIffNonEmpty(instanceCount: nat, texture: Texture, sampler: Sampler)
    requires instanceCount <= MAX_SPRITE_COUNT
    ensures Select(DrawEvents(instanceCount, texture, sampler), IsDraw) ==
      if instanceCount > 0 then [DrawPrimitives(6 * instanceCount, 1, 0, 0)] else []
  {
    if instanceCount > 0 {
      VertexCountExact(instanceCount);
      var draw := DrawPrimitives(6 * instanceCount, 1, 0, 0);
      var binds := [BindGraphicsPipeline, BindVertexStorageBuffer, BindFragmentSampler(texture, sampler)];
      SelectOne(binds, draw, [], IsDraw);
      assert DrawEvents(instanceCount, texture, sampler) == binds + [draw] + [];
    } else {
      SelectNone([], IsDraw);
    }
  }

  class SpriteBatch {
    /** The mapped span of the staging buffer: `MAX_SPRITE_COUNT` records. */
    const slots: array<SpriteInstance>
    /** Where the next record goes; the number of records added since `Begin`. */
    var instanceIndex: int
    /** Whether the staging buffer is mapped for writing. */
    var mapped: bool
    /** The device buffer's records, as the last recorded copy leaves them. */
    var deviceData: seq<SpriteInstance>

    ghost predicate Valid()
      reads this
    {
      && slots.Length == MAX_SPRITE_COUNT
      && 0 <= instanceIndex <= MAX_SPRITE_COUNT
      && |deviceData| == MAX_SPRITE_COUNT
    }

    /** `InstanceCount`: the index read as an unsigned count. */
    function InstanceCount(): nat
      reads this
      requires Valid()
    {
      instanceIndex
    }

    /** The records added since the last `Begin`, in the order they were added. */
    ghost function Contents(): seq<SpriteInstance>
      reads this, slots
      requires Valid()
    {
      slots[..instanceIndex]
    }

    /** Creates both buffers with room for `MAX_SPRITE_COUNT` records. */
    constructor ()
      ensures Valid() && fresh(slots)
      ensures InstanceCount() == 0 && !mapped
    {
      slots := new SpriteInstance[MAX_SPRITE_COUNT];
      instanceIndex := 0;
      mapped := false;
      deviceData := seq(MAX_SPRITE_COUNT, _ => SpriteInstance(Vector3(ZERO, ZERO, ZERO), ZERO,
        Vector2(ZERO, ZERO), ZERO, ZERO, ZERO, ZERO, Vector4(ZERO, ZERO, ZERO, ZERO)));
    }

    /**
     * Maps the staging buffer (cycling it, so earlier contents are not
     * promised) and restarts the count.
     */
    method Begin() returns (events: seq<Event>)
      requires Valid()
      modifies this, slots
      ensures Valid() && mapped
      ensures InstanceCount() == 0 && Contents() == []
      ensures deviceData == old(deviceData)
      ensures events == [MapTransfer(true)]
    {
      events := [MapTransfer(true)];
      mapped := true;
      instanceIndex := 0;
    }

    /**
     * Writes the eight fields of the record at the current index and bumps
     * the index.  Indexing the mapped span past its end throws, before
     * anything is written.
     */
    method Add(position: Vector3, rotation: Float, scale: Vector2,
               texU: Float, texV: Float, texWidth: Float, texHeight: Float, color: Vector4)
      returns (outcome: Outcome, events: seq<Event>)
      requires Valid() && mapped
      modifies this, slots
      ensures Valid() && mapped && deviceData == old(deviceData)
      ensures var inst := SpriteInstance(position, rotation, scale, texU, texV, texWidth, texHeight, color);
        if old(instanceIndex) < MAX_SPRITE_COUNT then
          && outcome == Pass
          && instanceIndex == old(instanceIndex) + 1
          && slots[old(instanceIndex)] == inst
          && (forall k :: 0 <= k < slots.Length && k != old(instanceIndex) ==> slots[k] == old(slots[k]))
          && Contents() == old(Contents()) + [inst]
          && events == [WriteInstance(old(instanceIndex), inst)]
        else
          && outcome == Fail(IndexOutOfRange)
          && instanceIndex == old(instanceIndex)
          && slots[..] == old(slots[..])
          && events == []
    {
      if instanceIndex >= slots.Length {
        return Fail(IndexOutOfRange), [];
      }
      var i := instanceIndex;
      slots[i] := slots[i].(position := position);
      slots[i] := slots[i].(rotation := rotation);
      slots[i] := slots[i].(scale := scale);
      slots[i] := slots[i].(texU := texU);
      slots[i] := slots[i].(texV := texV);
      slots[i] := slots[i].(texW := texWidth);
      slots[i] := slots[i].(texH := texHeight);
      slots[i] := slots[i].(color := color);
      instanceIndex := instanceIndex + 1;
      outcome, events := Pass, [WriteInstance(i, slots[i])];
    }

    /**
     * Unmaps the staging buffer and, when a record was added, records the
     * copy of the whole staging buffer into the device buffer.
     */
    method Upload() returns (events: seq<Event>)
      requires Valid()
      modifies this
      ensures Valid() && !mapped
      ensures instanceIndex == old(instanceIndex)
      ensures events == UploadEvents(InstanceCount())
      ensures deviceData == if InstanceCount() > 0 then slots[..] else old(deviceData)
    {
      mapped := false;
      events := [UnmapTransfer];
      if InstanceCount() > 0 {
        events := events + [BeginCopyPass, UploadToBuffer(true), EndCopyPass];
        deviceData := slots[..];
      }
    }

    /** Binds the pipeline, the device buffer and the texture, and draws, when a record was added. */
    method Render(texture: Texture, sampler: Sampler) returns (events: seq<Event>)
      requires Valid()
      ensures events == DrawEvents(InstanceCount(), texture, sampler)
    {
      events := [];
      if InstanceCount() > 0 {
        events := [BindGraphicsPipeline, BindVertexStorageBuffer, BindFragmentSampler(texture, sampler),
                   DrawPrimitives((InstanceCount() * 6) % 0x1_0000_0000, 1, 0, 0)];
      }
    }
  }
}
