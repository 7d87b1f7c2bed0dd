/**
 * CFHandle<T>: an owning handle to a CoreFoundation object. Constructing
 * adopts a reference (retaining it first on request), copying retains,
 * destroying releases.
 */
module CFHandle {
  import opened Wrappers

  /** A CoreFoundation object reference, by identity. */
  type CFRef = nat

  /** What the handles have changed about CoreFoundation's retain counts, per object. */
  class RetainCounts {
    ghost var count: map<CFRef, int>

    ghost function CountOf(obj: CFRef): int
      reads this
    {
      if obj in count then count[obj] else 0
    }

    constructor ()
      ensures count == map[]
    {
      count := map[];
    }

    /** CFRetain: one more reference to the object. */
    method Retain(obj: CFRef)
      modifies this
      ensures count == old(count)[obj := old(CountOf(obj)) + 1]
    {
      count := count[obj := CountOf(obj) + 1];
    }

    /** CFRelease: one reference fewer. */
    method Release(obj: CFRef)
      modifies this
      ensures count == old(count)[obj := old(CountOf(obj)) - 1]
    {
      count := count[obj := CountOf(obj) - 1];
    }
  }

  /** The life events of a handle, as they affect the retain count. */
  datatype HandleEvent = Adopt(retain: bool) | CopyLive | DestroyLive

  /** How much one event changes the retain count of the handle's object. */
  function CountChange(e: HandleEvent): (d: int)
    ensures d == 0 <==> e == Adopt(false)
    ensures e.DestroyLive? <==> d < 0
    ensures -1 <= d <= 1
  {
    match e
    case Adopt(retain) => if retain then 1 else 0
    case CopyLive => 1
    case DestroyLive => -1
  }

  class Handle {
    /** The wrapped reference; const, so no member ever reassigns it. */
    const obj: CFRef
    /** Whether this handle is still alive, that is, not yet destroyed. */
    ghost var live: bool

    /** CFHandle(obj, retain): adopt the reference, retaining it first when asked. */
    constructor (obj: CFRef, retain: bool, counts: RetainCounts)
      modifies counts
      ensures this.obj == obj && live
      ensures counts.CountOf(obj) == old(counts.CountOf(obj)) + CountChange(Adopt(retain))
      ensures retain ==> counts.count == old(counts.count)[obj := old(counts.CountOf(obj)) + 1]
      ensures !retain ==> counts.count == old(counts.count)
    {
      this.obj := obj;
      live := true;
      new;
      if retain {
        counts.Retain(obj);
      }
    }

    /** The copy constructor: the same object, retained once more. */
    constructor Copy(other: Handle, counts: RetainCounts)
      requires other.live
      modifies counts
      ensures obj == other.obj && live && other.live
      ensures counts.count == old(counts.count)[other.obj := old(counts.CountOf(other.obj)) + CountChange(CopyLive)]
    {
      obj := other.obj;
      live := true;
      new;
      counts.Retain(obj);
    }

    /** The destructor: release exactly once. */
    method Destroy(counts: RetainCounts)
      requires live
      modifies this, counts
      ensures !live
      ensures counts.count == old(counts.count)[obj := old(counts.CountOf(obj)) + CountChange(DestroyLive)]
    {
      counts.Release(obj);
      live := false;
    }

    /** The conversion to T: the wrapped reference, unchanged. */
    function Ref(): (r: CFRef)
      ensures r == obj
    {
      obj
    }
  }

  // ---------------------------------------------------------------------------
  // Balance over a whole history of handles to one object
  // ---------------------------------------------------------------------------

  /** How many handles to the object are alive, and the net change to its retain count. */
  datatype Tally = Tally(live: nat, net: int)

  /** One event; copying or destroying needs a live handle. */
  function Step(t: Tally, e: HandleEvent): (r: Option<Tally>)
    ensures r.None? <==> !e.Adopt? && t.live == 0
    ensures r.Some? ==> r.value.net == t.net + CountChange(e)
    ensures r.Some? ==> r.value.live == if e.DestroyLive? then t.live - 1 else t.live + 1
  {
    match e
    case Adopt(_) => Some(Tally(t.live + 1, t.net + CountChange(e)))
    case CopyLive => if t.live == 0 then None else Some(Tally(t.live + 1, t.net + 1))
    case DestroyLive => if t.live == 0 then None else Some(Tally(t.live - 1, t.net - 1))
  }

  /** A history of events, or None if it copies or destroys a handle that does not exist. */
  function Replay(t: Tally, events: seq<HandleEvent>): Option<Tally>
    decreases |events|
  {
    if events == [] then Some(t)
    else
      match Step(t, events[0])
      case None => None
      case Some(next) => Replay(next, events[1..])
  }

  /** The number of references adopted without a retain. */
  function Adopted(events: seq<HandleEvent>): nat
    decreases |events|
  {
    if events == [] then 0
    else (if events[0] == Adopt(false) then 1 else 0) + Adopted(events[1..])
  }

  /** Every event keeps `net - live` fixed except a plain adoption, which lowers it by one. */
  lemma {:induction false} ReplayBalance(t: Tally, events: seq<HandleEvent>)
    requires Replay(t, events).Some?
    ensures Replay(t, events).value.net - Replay(t, events).value.live == t.net - t.live - Adopted(events)
    decreases |events|
  {
    if events != [] {
      var next := Step(t, events[0]).value;
      ReplayBalance(next, events[1..]);
    }
  }

  /** Once every handle is destroyed, each plainly adopted reference has been released exactly once. */
  lemma AllDestroyedReleasesAdopted(events: seq<HandleEvent>)
    requires Replay(Tally(0, 0), events).Some? && Replay(Tally(0, 0), events).value.live == 0
    ensures Replay(Tally(0, 0), events).value.net == -(Adopted(events) as int)
  {
    ReplayBalance(Tally(0, 0), events);
  }

  /** A history of copies and destroys only, adopting nothing new. */
  predicate CopiesAndDestroysOnly(events: seq<HandleEvent>)
    decreases |events|
  {
    events == [] || (!events[0].Adopt? && CopiesAndDestroysOnly(events[1..]))
  }

  /** A history without adoptions adopts nothing. */
  lemma {:induction false} NoAdoptions(events: seq<HandleEvent>)
    requires CopiesAndDestroysOnly(events)
    ensures Adopted(events) == 0
    decreases |events|
  {
    if events != [] {
      NoAdoptions(events[1..]);
    }
  }

  /** Replaying a first event, then the rest. */
  lemma ReplayFirst(t: Tally, e: HandleEvent, rest: seq<HandleEvent>)
    ensures Replay(t, [e] + rest) == match Step(t, e) case None => None case Some(next) => Replay(next, rest)
  {
  }

  /**
   * Adopt one reference to an object no handle holds, then copy and destroy
   * in any order until no handle is left: the count ends one below where it
   * started.
   */
  lemma AdoptedReferenceReleasedOnce(start: Tally, rest: seq<HandleEvent>)
    requires start.live == 0 && CopiesAndDestroysOnly(rest)
    requires Replay(start, [Adopt(false)] + rest).Some?
    requires Replay(start, [Adopt(false)] + rest).value.live == 0
    ensures Replay(start, [Adopt(false)] + rest).value.net == start.net - 1
  {
    ReplayFirst(start, Adopt(false), rest);
    var adopted := Step(start, Adopt(false)).value;
    ReplayBalance(adopted, rest);
    NoAdoptions(rest);
  }

  /**
   * Play a history on real handles to one object: an adoption constructs a
   * handle, a copy copies the newest live handle, a destruction destroys it.
   * `start` is the tally before the history, with no handle alive. The
   * retain count moves by the history's net change, and the live handles
   * are as many as the history leaves.
   */
  method RunHistory(obj: CFRef, start: Tally, events: seq<HandleEvent>, counts: RetainCounts) returns (handles: seq<Handle>)
    requires start.live == 0 && Replay(start, events).Some?
    modifies counts
    ensures |handles| == Replay(start, events).value.live
    ensures forall j :: 0 <= j < |handles| ==> handles[j].obj == obj && handles[j].live
    ensures counts.CountOf(obj) == old(counts.CountOf(obj)) + Replay(start, events).value.net - start.net
    ensures forall o :: o != obj ==> counts.CountOf(o) == old(counts.CountOf(o))
  {
    handles := [];
    var t := start;
    var i := 0;
    while i < |events|
      invariant 0 <= i <= |events|
      invariant Replay(t, events[i..]) == Replay(start, events)
      invariant t.live == |handles|
      invariant counts.CountOf(obj) == old(counts.CountOf(obj)) + t.net - start.net
      invariant forall o :: o != obj ==> counts.CountOf(o) == old(counts.CountOf(o))
      invariant forall j :: 0 <= j < |handles| ==> fresh(handles[j]) && handles[j].obj == obj && handles[j].live
      invariant forall j, k :: 0 <= j < k < |handles| ==> handles[j] != handles[k]
    {
      var e := events[i];
      assert events[i..][1..] == events[i + 1..];
      var next := Step(t, e).value;
      if e.Adopt? {
        var h := new Handle(obj, e.retain, counts);
        handles := handles + [h];
      } else if e.CopyLive? {
        var h := new Handle.Copy(handles[|handles| - 1], counts);
        handles := handles + [h];
      } else {
        handles[|handles| - 1].Destroy(counts);
        handles := handles[..|handles| - 1];
      }
      t := next;
      i := i + 1;
    }
  }

  /**
   * On real handles: adopt one reference, copy and destroy until no handle
   * is left, and the object's retain count ends one below where it started.
   */
  method ReleaseAdoptedOnce(obj: CFRef, start: Tally, rest: seq<HandleEvent>, counts: RetainCounts)
    requires start.live == 0 && CopiesAndDestroysOnly(rest)
    requires Replay(start, [Adopt(false)] + rest).Some?
    requires Replay(start, [Adopt(false)] + rest).value.live == 0
    modifies counts
    ensures counts.CountOf(obj) == old(counts.CountOf(obj)) - 1
    ensures forall o :: o != obj ==> counts.CountOf(o) == old(counts.CountOf(o))
  {
    var handles := RunHistory(obj, start, [Adopt(false)] + rest, counts);
    AdoptedReferenceReleasedOnce(start, rest);
  }
}
