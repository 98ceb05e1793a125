/**
 * The fragment record: a named, timed unit of work with an identity that
 * never changes and an optional callback.
 */
module Fragments {
  import opened Wrappers

  /** A callback is an opaque handle; the model only records which one is invoked. */
  type CallbackId = nat

  /**
   * The source of fresh identities. The source draws a random UUID per
   * fragment; here every identity handed out is the next value of a counter,
   * so identities issued by one source are pairwise distinct.
   */
  class IdSource {
    var next: nat

    constructor ()
      ensures next == 0
    {
      next := 0;
    }

    /** Hands out `next` and advances past it. */
    method Fresh() returns (id: nat)
      modifies this
      ensures id == old(next) && next == old(next) + 1
    {
      id := next;
      next := next + 1;
    }
  }

  class Fragment {
    /** The identity: a `const`, so no operation can change it. */
    const id: nat
    var name: string
    var duration: int
    var callback: Option<CallbackId>

    /** Stores exactly the given name, duration and callback under a fresh identity. */
    constructor (ids: IdSource, name: string, duration: int, callback: Option<CallbackId>)
      modifies ids
      ensures id == old(ids.next) && ids.next == old(ids.next) + 1
      ensures this.name == name && this.duration == duration && this.callback == callback
    {
      var issued := ids.Fresh();
      id := issued;
      this.name := name;
      this.duration := duration;
      this.callback := callback;
    }

    method SetName(name: string)
      modifies this`name
      ensures this.name == name
    {
      this.name := name;
    }

    method SetDuration(duration: int)
      modifies this`duration
      ensures this.duration == duration
    {
      this.duration := duration;
    }

    method SetCallback(callback: CallbackId)
      modifies this`callback
      ensures this.callback == Some(callback)
    {
      this.callback := Some(callback);
    }

    /**
     * A new fragment with the same name, duration and callback and a new
     * identity. `ids` must be the source that issued this fragment's identity.
     */
    method Copy(ids: IdSource) returns (f: Fragment)
      requires id < ids.next
      modifies ids
      ensures fresh(f) && f.id != id && f.id == old(ids.next) && ids.next == old(ids.next) + 1
      ensures f.name == name && f.duration == duration && f.callback == callback
    {
      f := new Fragment(ids, name, duration, callback);
    }
  }
}
