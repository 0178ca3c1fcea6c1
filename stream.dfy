/**
 * The owning, move-only stream (include/rmm/cuda_stream.hpp) and the part
 * of the native runtime it acts on: which streams are live, the order in
 * which streams were created and destroyed, and which owner holds each live
 * stream.
 */
module Streams {
  import opened Wrappers
  import opened StreamViews

  /** A bound on the identifiers of the native streams in a set of handles. */
  ghost function MaxNativeId(s: set<Handle>): (m: nat)
    ensures forall h :: h in s && h.Native? ==> h.id <= m
    decreases s
  {
    if s == {} then 0
    else
      var h :| h in s;
      var rest := MaxNativeId(s - {h});
      if h.Native? && h.id > rest then h.id else rest
  }

  /**
   * Only finitely many streams are live at once, so the native create call
   * always has a handle it can return that is not live.
   */
  lemma FreshNativeExists(live: set<Handle>)
    ensures exists h: Handle :: h.Native? && h !in live
  {
    var unused := Native(MaxNativeId(live) + 1);
    assert unused !in live;
  }

  /**
   * The native runtime as far as stream ownership goes. Its state is ghost:
   * the program never reads it, it only records what the native create and
   * destroy calls did.
   */
  class Runtime {
    /** Streams created and not yet destroyed. */
    ghost var live: set<Handle>
    /** Every handle the create call returned, in order (a handle may be reused once destroyed). */
    ghost var created: seq<Handle>
    /** Every handle the destroy call was given, in order. */
    ghost var destroyed: seq<Handle>
    /** The owning stream object of each live stream. */
    ghost var owners: map<Handle, HipStream>

    /**
     * Only ordinary streams are created; every creation is matched by at most
     * one destruction, and by none exactly while the stream is live; every
     * live stream has an owner.
     */
    ghost predicate Valid()
      reads this
    {
      (forall h :: h in created ==> h.Native?) &&
      multiset(created) == multiset(destroyed) + multiset(live) &&
      owners.Keys == live
    }

    constructor ()
      ensures Valid()
      ensures live == {} && created == [] && destroyed == [] && owners == map[]
    {
      live, created, destroyed, owners := {}, [], [], map[];
    }

    /** What a successful hipStreamCreate returning `h` does, on behalf of `owner`. */
    ghost method Create(h: Handle, owner: HipStream)
      requires Valid() && h.Native? && h !in live
      modifies this
      ensures Valid()
      ensures live == old(live) + {h} && created == old(created) + [h] && destroyed == old(destroyed)
      ensures owners == old(owners)[h := owner]
    {
      live := live + {h};
      created := created + [h];
      owners := owners[h := owner];
    }

    /** What hipStreamDestroy of the live stream `h` does. */
    ghost method Destroy(h: Handle)
      requires Valid() && h in live
      modifies this
      ensures Valid()
      ensures live == old(live) - {h} && created == old(created) && destroyed == old(destroyed) + [h]
      ensures owners == old(owners) - {h}
    {
      assert live == (live - {h}) + {h};
      live := live - {h};
      destroyed := destroyed + [h];
      owners := owners - {h};
    }
  }

  /**
   * Every handle is destroyed at most as often as it was created, and a live
   * handle has exactly one creation not yet matched by a destruction.
   */
  lemma DestroyedAtMostOnce(rt: Runtime, h: Handle)
    requires rt.Valid()
    ensures multiset(rt.destroyed)[h] <= multiset(rt.created)[h]
    ensures h in rt.live <==> multiset(rt.destroyed)[h] + 1 == multiset(rt.created)[h]
    ensures h in rt.live ==> h in rt.created && h.Native?
  {
    assert multiset(rt.created)[h] == multiset(rt.destroyed)[h] + multiset(rt.live)[h];
  }

  /**
   * An owning stream: it holds one live native stream (valid) or, once moved
   * from or torn down, nothing (invalid). It cannot be copied.
   */
  class HipStream {
    /** The runtime the stream was created in. */
    const rt: Runtime
    /** The owned handle; None once moved from. */
    var stream: Option<Handle>

    /** The runtime lists this object as the owner of exactly the handle it holds. */
    ghost predicate Valid()
      reads this, rt
    {
      rt.Valid() &&
      (stream.Some? ==> stream.value in rt.owners) &&
      forall h :: h in rt.owners ==> (rt.owners[h] == this <==> stream == Some(h))
    }

    /**
     * Only a step of `New`, not a constructor of the source: it wraps the
     * handle the create call has just returned, before `New` registers it
     * with the runtime. An object built this way alone is not `Valid()`.
     */
    constructor Adopt(rt: Runtime, h: Handle)
      ensures this.rt == rt && stream == Some(h)
    {
      this.rt := rt;
      stream := Some(h);
    }

    /**
     * The constructor: `status` and `h` are what hipStreamCreate reports and
     * returns. On failure an error carrying the status results, no object is
     * handed out and the runtime is untouched; on success the new object is
     * valid and owns a handle no live stream held before.
     */
    static method New(rt: Runtime, status: Status, h: Handle) returns (r: Result<HipStream, CudaError>)
      requires rt.Valid()
      requires status == HIP_SUCCESS ==> h.Native? && h !in rt.live
      modifies rt
      ensures r.Success? <==> status == HIP_SUCCESS
      ensures r.Failure? ==> r.error == CudaError(status) && unchanged(rt)
      ensures r.Success? ==>
        fresh(r.value) && r.value.rt == rt && r.value.Valid() && r.value.stream == Some(h) &&
        h !in old(rt.live) && rt.live == old(rt.live) + {h} &&
        rt.created == old(rt.created) + [h] && rt.destroyed == old(rt.destroyed) &&
        rt.owners == old(rt.owners)[h := r.value]
    {
      if status != HIP_SUCCESS {
        return Failure(CudaError(status));
      }
      var s := new HipStream.Adopt(rt, h);
      rt.Create(h, s);
      r := Success(s);
    }

    /** Move construction: takes over the other object's handle and leaves it invalid. */
    constructor MoveFrom(other: HipStream)
      requires other.Valid()
      modifies other, other.rt
      ensures rt == other.rt && Valid() && other.Valid()
      ensures stream == old(other.stream) && other.stream == None
      ensures rt.live == old(other.rt.live) && rt.created == old(other.rt.created)
      ensures rt.destroyed == old(other.rt.destroyed)
      ensures rt.owners == if stream.Some? then old(other.rt.owners)[stream.value := this] else old(other.rt.owners)
    {
      rt := other.rt;
      stream := other.stream;
      new;
      other.stream := None;
      if stream.Some? {
        rt.owners := rt.owners[stream.value := this];
      }
    }

    /**
     * Move assignment: takes over the other object's handle, leaves it
     * invalid and destroys the stream this object held before, if any.
     * Assigning an object to itself changes nothing.
     */
    method MoveAssign(other: HipStream)
      requires Valid() && other.Valid() && other.rt == rt
      modifies this, other, rt
      ensures Valid() && other.Valid()
      ensures rt.created == old(rt.created)
      ensures other == this ==> stream == old(stream) && unchanged(rt)
      ensures other != this ==> stream == old(other.stream) && other.stream == None
      ensures other != this && old(stream).Some? ==>
        rt.live == old(rt.live) - {old(stream).value} &&
        rt.destroyed == old(rt.destroyed) + [old(stream).value]
      ensures other != this && old(stream).None? ==>
        rt.live == old(rt.live) && rt.destroyed == old(rt.destroyed)
      ensures other != this ==>
        forall h :: h in rt.owners ==> rt.owners[h] == if stream == Some(h) then this else old(rt.owners[h])
    {
      if other == this {
        return;
      }
      var previous := stream;
      stream := other.stream;
      other.stream := None;
      if stream.Some? {
        rt.owners := rt.owners[stream.value := this];
      }
      if previous.Some? {
        rt.Destroy(previous.value);
      }
    }

    /**
     * Teardown (the destructor): destroys the owned stream once if the
     * object is valid; a moved-from object issues no destroy. The object
     * holds nothing afterwards, so a second teardown destroys nothing.
     */
    method Dispose()
      requires Valid()
      modifies this, rt
      ensures stream == None && Valid()
      ensures rt.created == old(rt.created)
      ensures old(stream).Some? ==>
        rt.live == old(rt.live) - {old(stream).value} &&
        rt.destroyed == old(rt.destroyed) + [old(stream).value] &&
        rt.owners == old(rt.owners) - {old(stream).value}
      ensures old(stream).None? ==> unchanged(rt)
    {
      if stream.Some? {
        rt.Destroy(stream.value);
        stream := None;
      }
    }

    /** Whether this object owns a stream, that is, it has not been moved from. */
    function IsValid(): (r: bool)
      reads this, rt
      requires Valid()
      ensures r <==> exists h :: h in rt.live && rt.owners[h] == this
    {
      if stream.Some? then
        assert stream.value in rt.live && rt.owners[stream.value] == this;
        true
      else
        false
    }

    /** The owned handle (also the explicit conversion to hipStream_t); only for a valid object. */
    function Value(): (h: Handle)
      reads this, rt
      requires Valid() && IsValid()
      ensures h.Native? && h in rt.live && rt.owners[h] == this
    {
      DestroyedAtMostOnce(rt, stream.value);
      stream.value
    }

    /** A non-owning view of the owned stream (also the implicit conversion); ownership is unchanged. */
    function View(): (v: StreamView)
      reads this, rt
      requires Valid() && IsValid()
      ensures v.Value() == Value() && v.Value() in rt.live
    {
      StreamViews.View(Value())
    }

    /** Blocking wait on the owned stream; `status` is what the native call returns. */
    method Synchronize(status: Status) returns (r: Outcome<CudaError>)
      requires Valid() && IsValid()
      ensures r.Pass? <==> status == HIP_SUCCESS
      ensures r.Fail? ==> r.error == CudaError(status)
    {
      r := View().Synchronize(status);
    }

    /**
     * Blocking wait that never raises: a failed wait is a fatal assertion,
     * so the only admissible status is success. It waits on the view of
     * value(), so the object must be valid. Nothing is returned.
     */
    method SynchronizeNoThrow(status: Status)
      requires Valid() && IsValid()
      requires status == HIP_SUCCESS
    {
      View().SynchronizeNoThrow(status);
    }
  }

  /** Two distinct objects in one runtime never own the same stream. */
  lemma OwnersHoldDistinctHandles(s1: HipStream, s2: HipStream)
    requires s1.Valid() && s2.Valid() && s1.rt == s2.rt && s1 != s2
    requires s1.IsValid() && s2.IsValid()
    ensures s1.Value() != s2.Value()
  {
  }

  /** A stream created through the runtime is never classified as either default stream. */
  lemma OwnedViewIsNotDefault(s: HipStream, mode: Mode)
    requires s.Valid() && s.IsValid()
    ensures !s.View().IsDefault(mode) && !s.View().IsPerThreadDefault(mode)
    ensures NotEqual(s.View(), CUDA_STREAM_DEFAULT)
  {
  }

  /**
   * Creating two streams, moving the first into a third object, then
   * move-assigning the second into it: the first stream is destroyed by the
   * assignment and both sources are left invalid.
   */
  method CreateAndMove(h1: Handle, h2: Handle) returns (a: HipStream, b: HipStream, c: HipStream)
    requires h1.Native? && h2.Native? && h1 != h2
    ensures fresh(a) && fresh(b) && fresh(c) && fresh(c.rt)
    ensures a.rt == b.rt == c.rt && a.Valid() && b.Valid() && c.Valid()
    ensures a.stream == None && b.stream == None && c.stream == Some(h2)
    ensures c.rt.created == [h1, h2] && c.rt.destroyed == [h1] && c.rt.live == {h2}
  {
    var rt := new Runtime();
    var r1 := HipStream.New(rt, HIP_SUCCESS, h1);
    a := r1.value;
    var r2 := HipStream.New(rt, HIP_SUCCESS, h2);
    b := r2.value;
    assert a.Valid();
    OwnersHoldDistinctHandles(a, b);

    c := new HipStream.MoveFrom(a);
    assert a.Valid() && b.Valid() && c.Valid();
    assert !a.IsValid() && c.IsValid() && c.Value() == h1;

    c.MoveAssign(b);
    assert c.Value() == h2 && !b.IsValid();
    assert a.Valid();
  }

  /** Tearing down two moved-from objects and one valid one destroys exactly the valid one's stream. */
  method TearDown(a: HipStream, b: HipStream, c: HipStream, h: Handle)
    requires a.Valid() && b.Valid() && c.Valid() && a.rt == b.rt == c.rt
    requires a.stream == None && b.stream == None && c.stream == Some(h)
    modifies a, b, c, c.rt
    ensures c.rt.live == old(c.rt.live) - {h}
    ensures c.rt.destroyed == old(c.rt.destroyed) + [h] && c.rt.created == old(c.rt.created)
  {
    a.Dispose();
    b.Dispose();
    c.Dispose();
  }

  /** After the whole scenario every created stream has been destroyed exactly once. */
  method Lifecycle(h1: Handle, h2: Handle) returns (rt: Runtime)
    requires h1.Native? && h2.Native? && h1 != h2
    ensures rt.live == {} && rt.created == [h1, h2] && rt.destroyed == [h1, h2]
  {
    var a, b, c := CreateAndMove(h1, h2);
    TearDown(a, b, c, h2);
    rt := c.rt;
  }
}
