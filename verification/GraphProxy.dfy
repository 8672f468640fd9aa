/** The proxy in front of the graph: the backend it serves and those it served before. */
module GraphProxy {
  import opened Options

  datatype Proxy<T> = Proxy(backend: T, history: seq<T>)

  function Swapped<T>(p: Proxy<T>, backend: T): Proxy<T> {
    Proxy(backend, p.history + [p.backend])
  }

  /** Without history there is nothing to roll back to. */
  function RolledBack<T>(p: Proxy<T>): Proxy<T> {
    if p.history == [] then p else Proxy(p.history[|p.history| - 1], p.history[..|p.history| - 1])
  }

  class GraphIndexProxy<T> {
    var backend: T
    var history: seq<T>

    constructor (backend: T)
      ensures Now() == Proxy(backend, [])
    {
      this.backend := backend;
      history := [];
    }

    function Now(): Proxy<T>
      reads this
    {
      Proxy(backend, history)
    }

    /** The former backend is returned, and kept for a rollback. */
    method Swap(newBackend: T) returns (former: T)
      modifies this
      ensures former == old(backend) && Now() == Swapped(old(Now()), newBackend)
    {
      former := backend;
      history := history + [former];
      backend := newBackend;
    }

    /** The backend gone back to and the one given up, or None. */
    method Rollback() returns (r: Option<(T, T)>)
      modifies this
      ensures Now() == RolledBack(old(Now()))
      ensures r == if old(history) == [] then None else Some((backend, old(backend)))
    {
      if |history| == 0 {
        return None;
      }
      var current := backend;
      var former := history[|history| - 1];
      history := history[..|history| - 1];
      backend := former;
      r := Some((former, current));
    }
  }

  function SwappedAll<T>(p: Proxy<T>, backends: seq<T>): Proxy<T> {
    if backends == [] then p else Swapped(SwappedAll(p, backends[..|backends| - 1]), backends[|backends| - 1])
  }

  function RolledBackTimes<T>(p: Proxy<T>, k: nat): Proxy<T>
    decreases k
  {
    if k == 0 then p else RolledBackTimes(RolledBack(p), k - 1)
  }

  /** Rolling back undoes the last swaps one by one: as many rollbacks as swaps restore the proxy, history included. */
  lemma {:induction false} RollbacksUndoSwaps<T>(p: Proxy<T>, backends: seq<T>, k: nat)
    requires k <= |backends|
    ensures RolledBackTimes(SwappedAll(p, backends), k) == SwappedAll(p, backends[..|backends| - k])
  {
    if k == 0 {
      assert backends[..|backends|] == backends;
    } else {
      var n := |backends| - 1;
      var before := SwappedAll(p, backends[..n]);
      assert (before.history + [before.backend])[..|before.history|] == before.history;
      assert RolledBack(SwappedAll(p, backends)) == before;
      RollbacksUndoSwaps(p, backends[..n], k - 1);
      assert backends[..n][..n - (k - 1)] == backends[..|backends| - k];
    }
  }
}
