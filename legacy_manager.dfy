/**
 * The older callback registry (VSImGuiManager) kept by the legacy sources.
 *
 * Registration and removal work as in DrawCallbacksManager. Its per-frame
 * reducer differs in two ways: a Closed status sets the latch whether or not
 * it was already set, and there is no close signal, only (open, grab).
 * VSDialogStatus has the same three values as CallbackGUIStatus, so the model
 * reuses Callbacks.Status for it.
 */
module LegacyCallbacks {
  import opened Wrappers
  import opened Callbacks

  class VSImGuiManager<C(==)> {
    /** The id the next registration receives. */
    var nextId: int
    /** Registered callbacks by id. */
    var callbacks: map<int, C>
    /** Per-callback "was closed" latch by id. */
    var wasClosed: map<int, bool>

    ghost predicate Valid()
      reads this
    {
      && 1 <= nextId
      && callbacks.Keys == wasClosed.Keys
      && forall id :: id in callbacks ==> 1 <= id < nextId
    }

    constructor ()
      ensures Valid()
      ensures nextId == 1 && callbacks == map[] && wasClosed == map[]
    {
      nextId := 1;
      callbacks := map[];
      wasClosed := map[];
    }

    /** `DrawCallback += cb`: store under a never-used id with the latch down. */
    method Add(cb: C)
      requires Valid()
      modifies this
      ensures Valid()
      ensures old(nextId) !in old(callbacks)
      ensures callbacks == old(callbacks)[old(nextId) := cb]
      ensures wasClosed == old(wasClosed)[old(nextId) := false]
      ensures nextId == old(nextId) + 1
    {
      callbacks := callbacks[nextId := cb];
      wasClosed := wasClosed[nextId := false];
      nextId := nextId + 1;
    }

    /** `DrawCallback -= cb`: delete an entry whose delegate equals `cb`; `First` throws when there is none. */
    method Remove(cb: C) returns (r: Result<int>)
      requires Valid()
      modifies this
      ensures Valid() && nextId == old(nextId)
      ensures r.Err? <==> cb !in old(callbacks).Values
      ensures r.Err? ==> r.error == NoMatchingElement
      ensures r.Err? ==> callbacks == old(callbacks) && wasClosed == old(wasClosed)
      ensures r.Ok? ==> r.value in old(callbacks) && old(callbacks)[r.value] == cb
      ensures r.Ok? ==> callbacks == old(callbacks) - {r.value}
      ensures r.Ok? ==> wasClosed == old(wasClosed) - {r.value}
    {
      if id :| id in callbacks && callbacks[id] == cb {
        assert callbacks[id] in callbacks.Values;
        callbacks := callbacks - {id};
        wasClosed := wasClosed - {id};
        r := Ok(id);
      } else {
        assert forall k :: k in callbacks ==> callbacks[k] != cb;
        r := Err(NoMatchingElement);
      }
    }

    /**
     * Invoke every callback once and fold the statuses into (open, grab). The
     * latches end up exactly as in DrawCallbacksManager, and open and grab
     * agree with its decision; only the close signal is missing.
     */
    method Draw(results: int -> Status) returns (open: bool, grab: bool)
      requires Valid()
      modifies this
      ensures Valid()
      ensures nextId == old(nextId) && callbacks == old(callbacks)
      ensures wasClosed == NextLatches(old(wasClosed), results)
      ensures open == Outcome(old(wasClosed), results).open
      ensures grab == Outcome(old(wasClosed), results).grab
    {
      open, grab := false, false;
      var todo := callbacks.Keys;
      ghost var done: set<int> := {};
      ghost var before := wasClosed;
      while todo != {}
        invariant nextId == old(nextId) && callbacks == old(callbacks)
        invariant todo + done == before.Keys && todo !! done
        invariant wasClosed == Partial(before, results, done)
        invariant open == OpensEdge(Restrict(before, done), results)
        invariant grab == AnyGrab(Restrict(before, done), results)
        decreases todo
      {
        EmptyOrMember(todo);
        var id :| id in todo;
        FoldOne(before, results, done, id);
        PartialStep(before, results, done, id);
        var result := results(id);
        match result {
          case Closed =>
            wasClosed := wasClosed[id := true];
          case GrabMouse =>
            if wasClosed[id] {
              open := true;
              wasClosed := wasClosed[id := false];
            }
            grab := true;
          case DontGrabMouse =>
            if wasClosed[id] {
              open := true;
              wasClosed := wasClosed[id := false];
            }
        }
        assert wasClosed == Partial(before, results, done + {id});
        todo := todo - {id};
        done := done + {id};
      }
      RestrictAll(before);
      PartialAll(before, results);
    }
  }
}
