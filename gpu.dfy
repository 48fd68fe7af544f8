/**
 * The graphics-device side of a frame, as a trace of the calls the sprite
 * batch and the renderer make: transfer-buffer mapping and the records
 * written through the mapping, copy-pass and render-pass commands, and the
 * submission of the command buffer.
 */
module Gpu {
  import opened Numerics
  import opened InstanceLayout

  /** Handles of GPU resources created outside the modelled core. */
  datatype Texture = Texture(handle: nat)
  datatype Sampler = Sampler(handle: nat)

  datatype Event =
    | MapTransfer(cycle: bool)
    | WriteInstance(slot: nat, instance: SpriteInstance)
    | UnmapTransfer
    | BeginCopyPass
    | UploadToBuffer(cycle: bool)
    | EndCopyPass
    | BeginRenderPass(target: Texture, clearColor: Vector4)
    | PushVertexUniform
    | BindGraphicsPipeline
    | BindVertexStorageBuffer
    | BindFragmentSampler(texture: Texture, sampler: Sampler)
    | DrawPrimitives(vertexCount: nat, instanceCount: nat, firstVertex: nat, firstInstance: nat)
    | EndRenderPass
    | Submit

  predicate IsCopy(e: Event) { e.UploadToBuffer? }
  predicate IsDraw(e: Event) { e.DrawPrimitives? }
  predicate IsSubmit(e: Event) { e.Submit? }
  predicate IsWrite(e: Event) { e.WriteInstance? }
  predicate IsPassBegin(e: Event) { e.BeginRenderPass? }
  predicate IsUniformPush(e: Event) { e.PushVertexUniform? }
  predicate IsPassEnd(e: Event) { e.EndRenderPass? }

  /** The events of `t` that satisfy `p`, in trace order. */
  function Select(t: seq<Event>, p: Event -> bool): (r: seq<Event>)
    ensures |r| <= |t|
    ensures forall e :: e in r ==> e in t && p(e)
    ensures forall e :: e in t && p(e) ==> e in r
  {
    if t == [] then []
    else if p(t[0]) then [t[0]] + Select(t[1..], p)
    else Select(t[1..], p)
  }

  lemma {:induction false} SelectAppend(a: seq<Event>, b: seq<Event>, p: Event -> bool)
    ensures Select(a + b, p) == Select(a, p) + Select(b, p)
  {
    if a == [] {
      assert a + b == b;
    } else {
      assert (a + b)[1..] == a[1..] + b;
      SelectAppend(a[1..], b, p);
    }
  }

  lemma {:induction false} SelectNone(t: seq<Event>, p: Event -> bool)
    requires forall e :: e in t ==> !p(e)
    ensures Select(t, p) == []
  {
    if t != [] {
      assert t[0] in t;
      forall e | e in t[1..]
        ensures !p(e)
      {
        assert e in t;
      }
      SelectNone(t[1..], p);
    }
  }

  /** A trace whose every event satisfies `p` selects itself. */
  lemma {:induction false} SelectAll(t: seq<Event>, p: Event -> bool)
    requires forall i :: 0 <= i < |t| ==> p(t[i])
    ensures Select(t, p) == t
  {
    if t != [] {
      SelectAll(t[1..], p);
    }
  }

  /** A trace with exactly one event satisfying `p` selects exactly that event. */
  lemma SelectOne(a: seq<Event>, e: Event, b: seq<Event>, p: Event -> bool)
    requires p(e)
    requires forall x :: x in a ==> !p(x)
    requires forall x :: x in b ==> !p(x)
    ensures Select(a + [e] + b, p) == [e]
  {
    SelectAppend(a + [e], b, p);
    SelectAppend(a, [e], p);
    SelectNone(a, p);
    SelectNone(b, p);
    assert [e][1..] == [];
  }

  /**
   * Where an event may stand in a frame: mapping, then record writes, then
   * unmapping, the copy pass, the render pass with the uniform push, the
   * bindings and the draw, and finally the submission.
   */
  function Stage(e: Event): nat
  {
    match e
    case MapTransfer(_) => 0
    case WriteInstance(_, _) => 1
    case UnmapTransfer => 2
    case BeginCopyPass => 3
    case UploadToBuffer(_) => 4
    case EndCopyPass => 5
    case BeginRenderPass(_, _) => 6
    case PushVertexUniform => 7
    case BindGraphicsPipeline => 8
    case BindVertexStorageBuffer => 9
    case BindFragmentSampler(_, _) => 10
    case DrawPrimitives(_, _, _, _) => 11
    case EndRenderPass => 12
    case Submit => 13
  }

  /** Every event of `t` comes no later in the frame than the ones after it. */
  ghost predicate InStageOrder(t: seq<Event>)
  {
    forall i, j :: 0 <= i < j < |t| ==> Stage(t[i]) <= Stage(t[j])
  }

  /** All events of `t` have stages in `[lo, hi]`. */
  ghost predicate StagesWithin(t: seq<Event>, lo: nat, hi: nat)
  {
    forall e :: e in t ==> lo <= Stage(e) <= hi
  }

  /** Two stage-ordered traces, the first entirely before the second, make a stage-ordered trace. */
  lemma OrderedAppend(a: seq<Event>, b: seq<Event>, lo: nat, mid: nat, hi: nat)
    requires lo <= mid <= hi
    requires InStageOrder(a) && InStageOrder(b)
    requires StagesWithin(a, lo, mid) && StagesWithin(b, mid, hi)
    ensures InStageOrder(a + b) && StagesWithin(a + b, lo, hi)
  {
    var t := a + b;
    forall i, j | 0 <= i < j < |t|
      ensures Stage(t[i]) <= Stage(t[j])
    {
      if j < |a| {
        assert t[i] == a[i] && t[j] == a[j];
      } else if i >= |a| {
        assert t[i] == b[i - |a|] && t[j] == b[j - |a|];
      } else {
        assert t[i] == a[i] && t[j] == b[j - |a|];
        assert t[i] in a && t[j] in b;
      }
    }
    forall e | e in t
      ensures lo <= Stage(e) <= hi
    {
      var k :| 0 <= k < |t| && t[k] == e;
      if k < |a| {
        assert a[k] == e && e in a;
      } else {
        assert b[k - |a|] == e && e in b;
      }
    }
  }
}
