/**
 * The draw-callback registry and its per-frame reducer (DrawCallbacksManager).
 *
 * Every registered callback gets an integer id and a "was closed" latch that
 * starts false. Each frame every callback reports a Status; the reducer turns
 * latch transitions into edge-triggered open/close signals for the host dialog
 * and reports whether any callback wants the mouse.
 *
 * Invoking a callback is host code, so a frame's outcome is an oracle
 * `results: int -> Status` giving the status returned by the callback with that id.
 */
module Callbacks {
  import opened Wrappers

  /** What one callback reports for a frame (CallbackGUIStatus). */
  datatype Status = Closed | GrabMouse | DontGrabMouse {
    /** GrabMouse and DontGrabMouse both mean "something was drawn". */
    predicate Active() { !Closed? }
  }

  /** The aggregate decision handed to the dialog each frame. */
  datatype Decision = Decision(open: bool, grab: bool, close: bool)

  /** Some callback that was latched closed reports an active status now. */
  ghost predicate OpensEdge(latches: map<int, bool>, results: int -> Status) {
    exists id :: id in latches && latches[id] && results(id).Active()
  }

  /** Some callback that was not latched closed reports Closed now. */
  ghost predicate ClosesEdge(latches: map<int, bool>, results: int -> Status) {
    exists id :: id in latches && !latches[id] && results(id) == Closed
  }

  /** Some registered callback drew something this frame. */
  ghost predicate AnyActive(latches: map<int, bool>, results: int -> Status) {
    exists id :: id in latches && results(id).Active()
  }

  /** Some registered callback asked to grab the mouse this frame. */
  ghost predicate AnyGrab(latches: map<int, bool>, results: int -> Status) {
    exists id :: id in latches && results(id) == GrabMouse
  }

  /**
   * Reference definition of the frame decision: open on a closed-to-active edge,
   * grab when anyone grabs, close on an active-to-closed edge unless some
   * callback is still active.
   */
  ghost function Outcome(latches: map<int, bool>, results: int -> Status): Decision {
    Decision(
      OpensEdge(latches, results),
      AnyGrab(latches, results),
      ClosesEdge(latches, results) && !AnyActive(latches, results))
  }

  /** The latches after a frame: each one records whether its callback reported Closed. */
  ghost function NextLatches(latches: map<int, bool>, results: int -> Status): (r: map<int, bool>)
    ensures r.Keys == latches.Keys
    ensures forall id :: id in r ==> (r[id] <==> results(id) == Closed)
  {
    map id | id in latches :: results(id) == Closed
  }

  /** The decisions of consecutive frames, each frame starting from the latches the previous one left. */
  ghost function Run(latches: map<int, bool>, frames: seq<int -> Status>): (ds: seq<Decision>)
    ensures |ds| == |frames|
    ensures frames != [] ==> ds[0] == Outcome(latches, frames[0])
    decreases |frames|
  {
    if frames == [] then []
    else [Outcome(latches, frames[0])] + Run(NextLatches(latches, frames[0]), frames[1..])
  }

  /** A set is empty or has a member; lets a loop pick the next id out of the ids still to visit. */
  lemma EmptyOrMember(s: set<int>)
    ensures s == {} || exists x :: x in s
  {
    if forall x :: x !in s {
      assert s == {};
    }
  }

  /** The latches of the ids in `ks` only. */
  ghost function Restrict(latches: map<int, bool>, ks: set<int>): (r: map<int, bool>)
    ensures r.Keys == latches.Keys * ks
    ensures forall id :: id in r ==> r[id] == latches[id]
  {
    map id | id in latches && id in ks :: latches[id]
  }

  /** The latches part-way through a frame: the ids in `done` already record their status. */
  ghost function Partial(latches: map<int, bool>, results: int -> Status, done: set<int>): (r: map<int, bool>)
    ensures r.Keys == latches.Keys
  {
    map id | id in latches :: if id in done then results(id) == Closed else latches[id]
  }

  /** Visiting one more id records its status in its latch and touches no other. */
  lemma PartialStep(latches: map<int, bool>, results: int -> Status, done: set<int>, id: int)
    requires id in latches
    ensures Partial(latches, results, done + {id}) == Partial(latches, results, done)[id := results(id) == Closed]
  {
  }

  /** Once every id is visited, the latches are those of the next frame. */
  lemma PartialAll(latches: map<int, bool>, results: int -> Status)
    ensures Partial(latches, results, latches.Keys) == NextLatches(latches, results)
  {
  }

  /** Restricting to every id changes nothing. */
  lemma RestrictAll(latches: map<int, bool>)
    ensures Restrict(latches, latches.Keys) == latches
  {
  }

  /** Visiting one more id folds its own contribution into each aggregate predicate. */
  lemma FoldOne(latches: map<int, bool>, results: int -> Status, done: set<int>, id: int)
    requires id in latches && id !in done
    ensures var a, b := Restrict(latches, done), Restrict(latches, done + {id});
      && (OpensEdge(b, results) <==> OpensEdge(a, results) || (latches[id] && results(id).Active()))
      && (ClosesEdge(b, results) <==> ClosesEdge(a, results) || (!latches[id] && results(id) == Closed))
      && (AnyActive(b, results) <==> AnyActive(a, results) || results(id).Active())
      && (AnyGrab(b, results) <==> AnyGrab(a, results) || results(id) == GrabMouse)
  {
    var a, b := Restrict(latches, done), Restrict(latches, done + {id});
    assert id in b && b[id] == latches[id];
    forall x | x in a ensures x in b && b[x] == a[x] { }
    forall x | x in b && x != id ensures x in a && a[x] == b[x] { }
  }

  class DrawCallbacksManager<C(==)> {
    /** The id the next registration receives. */
    var nextId: int
    /** Registered callbacks by id. */
    var callbacks: map<int, C>
    /** Per-callback "was closed" latch by id. */
    var wasClosed: map<int, bool>

    ghost predicate Valid()
      reads this
    {
      && 1 <= nextId
      && callbacks.Keys == wasClosed.Keys
      && forall id :: id in callbacks ==> 1 <= id < nextId
    }

    constructor ()
      ensures Valid()
      ensures nextId == 1 && callbacks == map[] && wasClosed == map[]
    {
      nextId := 1;
      callbacks := map[];
      wasClosed := map[];
    }

    /** `DrawCallback += cb`: store under a never-used id with the latch down. */
    method Add(cb: C)
      requires Valid()
      modifies this
      ensures Valid()
      ensures old(nextId) !in old(callbacks)
      ensures callbacks == old(callbacks)[old(nextId) := cb]
      ensures wasClosed == old(wasClosed)[old(nextId) := false]
      ensures nextId == old(nextId) + 1
    {
      callbacks := callbacks[nextId := cb];
      wasClosed := wasClosed[nextId := false];
      nextId := nextId + 1;
    }

    /**
     * `DrawCallback -= cb`: delete, from both tables, an entry whose delegate
     * equals `cb`; `First` throws when there is none.
     */
    method Remove(cb: C) returns (r: Result<int>)
      requires Valid()
      modifies this
      ensures Valid() && nextId == old(nextId)
      ensures r.Err? <==> cb !in old(callbacks).Values
      ensures r.Err? ==> r.error == NoMatchingElement
      ensures r.Err? ==> callbacks == old(callbacks) && wasClosed == old(wasClosed)
      ensures r.Ok? ==> r.value in old(callbacks) && old(callbacks)[r.value] == cb
      ensures r.Ok? ==> callbacks == old(callbacks) - {r.value}
      ensures r.Ok? ==> wasClosed == old(wasClosed) - {r.value}
    {
      if id :| id in callbacks && callbacks[id] == cb {
        assert callbacks[id] in callbacks.Values;
        callbacks := callbacks - {id};
        wasClosed := wasClosed - {id};
        r := Ok(id);
      } else {
        assert forall k :: k in callbacks ==> callbacks[k] != cb;
        r := Err(NoMatchingElement);
      }
    }

    /**
     * Invoke every callback once, update its latch and fold the statuses into
     * the frame decision. The dictionary's enumeration order is left open: the
     * loop takes the remaining ids in any order.
     */
    method Draw(results: int -> Status) returns (d: Decision)
      requires Valid()
      modifies this
      ensures Valid()
      ensures nextId == old(nextId) && callbacks == old(callbacks)
      ensures wasClosed == NextLatches(old(wasClosed), results)
      ensures d == Outcome(old(wasClosed), results)
    {
      var open, grab, close, anyOpened := false, false, false, false;
      var todo := callbacks.Keys;
      ghost var done: set<int> := {};
      ghost var before := wasClosed;
      while todo != {}
        invariant nextId == old(nextId) && callbacks == old(callbacks)
        invariant todo + done == before.Keys && todo !! done
        invariant wasClosed == Partial(before, results, done)
        invariant open == OpensEdge(Restrict(before, done), results)
        invariant grab == AnyGrab(Restrict(before, done), results)
        invariant close == ClosesEdge(Restrict(before, done), results)
        invariant anyOpened == AnyActive(Restrict(before, done), results)
        decreases todo
      {
        EmptyOrMember(todo);
        var id :| id in todo;
        FoldOne(before, results, done, id);
        PartialStep(before, results, done, id);
        var result := results(id);
        match result {
          case Closed =>
            if !wasClosed[id] {
              wasClosed := wasClosed[id := true];
              close := true;
            }
          case GrabMouse =>
            if wasClosed[id] {
              open := true;
              wasClosed := wasClosed[id := false];
            }
            grab := true;
            anyOpened := true;
          case DontGrabMouse =>
            if wasClosed[id] {
              open := true;
              wasClosed := wasClosed[id := false];
            }
            anyOpened := true;
        }
        todo := todo - {id};
        done := done + {id};
      }
      RestrictAll(before);
      PartialAll(before, results);
      d := Decision(open, grab, !anyOpened && close);
    }
  }

  /** Any active callback suppresses the aggregate close, whatever the others report. */
  lemma CloseSuppressedWhileActive(latches: map<int, bool>, results: int -> Status, id: int)
    requires id in latches && results(id).Active()
    ensures !Outcome(latches, results).close
  {
  }

  /** One GrabMouse is enough for the aggregate grab, whatever the others report. */
  lemma GrabWins(latches: map<int, bool>, results: int -> Status, id: int)
    requires id in latches && results(id) == GrabMouse
    ensures Outcome(latches, results).grab
  {
  }

  /**
   * After a frame, a callback raises open exactly when it reported Closed in
   * the previous frame and is active now.
   */
  lemma OpenFollowsClosedFrame(latches: map<int, bool>, r1: int -> Status, r2: int -> Status)
    ensures Outcome(NextLatches(latches, r1), r2).open
        <==> exists id :: id in latches && r1(id) == Closed && r2(id).Active()
  {
    var next := NextLatches(latches, r1);
    if Outcome(next, r2).open {
      var id :| id in next && next[id] && r2(id).Active();
      assert id in latches && r1(id) == Closed && r2(id).Active();
    }
    if exists id :: id in latches && r1(id) == Closed && r2(id).Active() {
      var id :| id in latches && r1(id) == Closed && r2(id).Active();
      assert id in next && next[id] && r2(id).Active();
    }
  }

  /** Freshly registered callbacks (all latches down) never raise open, whatever they report. */
  lemma FreshCallbacksRaiseNoOpen(latches: map<int, bool>, results: int -> Status)
    requires forall id :: id in latches ==> !latches[id]
    ensures !Outcome(latches, results).open
  {
  }

  /**
   * Edge triggering: while every callback stays active, open can only be
   * raised on the first frame.
   */
  lemma {:induction false} SteadyActiveOpensOnlyFirst(latches: map<int, bool>, frames: seq<int -> Status>, k: int)
    requires forall i, id :: 0 <= i < |frames| && id in latches ==> frames[i](id).Active()
    requires 1 <= k < |frames|
    ensures !Run(latches, frames)[k].open
  {
    var next := NextLatches(latches, frames[0]);
    assert Run(latches, frames)[k] == Run(next, frames[1..])[k - 1];
    if k == 1 {
      assert forall id :: id in next ==> !next[id];
      FreshCallbacksRaiseNoOpen(next, frames[1]);
    } else {
      assert forall i, id :: 0 <= i < |frames[1..]| && id in next ==> frames[1..][i](id).Active() by {
        forall i, id | 0 <= i < |frames[1..]| && id in next
          ensures frames[1..][i](id).Active()
        {
          assert frames[1..][i] == frames[i + 1];
        }
      }
      SteadyActiveOpensOnlyFirst(next, frames[1..], k - 1);
    }
  }

  /**
   * Full close: while every callback keeps reporting Closed, close can only be
   * raised on the first frame, and it is raised there exactly when some latch was down.
   */
  lemma {:induction false} SteadyClosedClosesOnlyFirst(latches: map<int, bool>, frames: seq<int -> Status>, k: int)
    requires forall i, id :: 0 <= i < |frames| && id in latches ==> frames[i](id) == Closed
    requires 0 <= k < |frames|
    ensures Run(latches, frames)[k].close <==> k == 0 && exists id :: id in latches && !latches[id]
  {
    var next := NextLatches(latches, frames[0]);
    if k == 0 {
      if exists id :: id in latches && !latches[id] {
        var id :| id in latches && !latches[id];
        assert frames[0](id) == Closed;
        assert ClosesEdge(latches, frames[0]);
      }
    } else {
      assert Run(latches, frames)[k] == Run(next, frames[1..])[k - 1];
      assert forall id :: id in next ==> next[id];
      assert forall i, id :: 0 <= i < |frames[1..]| && id in next ==> frames[1..][i](id) == Closed by {
        forall i, id | 0 <= i < |frames[1..]| && id in next
          ensures frames[1..][i](id) == Closed
        {
          assert frames[1..][i] == frames[i + 1];
        }
      }
      SteadyClosedClosesOnlyFirst(next, frames[1..], k - 1);
    }
  }

  /**
   * Two freshly added callbacks run for three frames: (C1 grabs, C2 closed),
   * (C1 active without grab, C2 closed), (both closed). Every latch starts
   * false, so the first frame raises no open even though C1 is active.
   */
  method TwoCallbackScenario<C(==)>(c1: C, c2: C) returns (f1: Decision, f2: Decision, f3: Decision)
    ensures f1 == Decision(false, true, false)
    ensures f2 == Decision(false, false, false)
    ensures f3 == Decision(false, false, true)
  {
    var m := new DrawCallbacksManager<C>();
    m.Add(c1);
    m.Add(c2);
    var l0 := m.wasClosed;
    assert l0 == map[1 := false, 2 := false];
    var r1: int -> Status := id => if id == 1 then GrabMouse else Closed;
    var r2: int -> Status := id => if id == 1 then DontGrabMouse else Closed;
    var r3: int -> Status := id => Closed;
    f1 := m.Draw(r1);
    assert AnyGrab(l0, r1) && AnyActive(l0, r1) by { assert 1 in l0 && r1(1) == GrabMouse; }
    var l1 := m.wasClosed;
    assert l1 == map[1 := false, 2 := true];
    f2 := m.Draw(r2);
    assert AnyActive(l1, r2) by { assert 1 in l1 && r2(1) == DontGrabMouse; }
    var l2 := m.wasClosed;
    assert l2 == map[1 := false, 2 := true];
    f3 := m.Draw(r3);
    assert ClosesEdge(l2, r3) by { assert 1 in l2 && !l2[1] && r3(1) == Closed; }
  }
}
