/** Least solutions of systems of equations, one equation for each key, each over the values at a few other keys. */
module LeastFixpoint {

  /** `after` keeps every value that `before` has reached at these keys. */
  ghost predicate Extends<V(!new)>(bottom: V, keys: seq<string>, before: string -> V, after: string -> V) {
    forall k | k in keys :: before(k) == bottom || after(k) == before(k)
  }

  /** A value, once reached, stays when more becomes known about the keys that it depends on. */
  ghost predicate Settles<V(!new)>(step: (string, string -> V) -> V, deps: string -> seq<string>, bottom: V) {
    forall id, before, after |
      Extends(bottom, deps(id), before, after) && step(id, before) != bottom ::
      step(id, after) == step(id, before)
  }

  /** `n` rounds of evaluation from `bottom` everywhere. */
  ghost function Iterate<V(!new)>(step: (string, string -> V) -> V, bottom: V, n: nat): string -> V {
    if n == 0 then id => bottom
    else
      var before := Iterate(step, bottom, n - 1);
      id => step(id, before)
  }

  /** The value that some round reaches, or `bottom` if none does. */
  ghost function Reached<V(!new)>(step: (string, string -> V) -> V, bottom: V, id: string): V {
    if n: nat :| Iterate(step, bottom, n)(id) != bottom then Iterate(step, bottom, n)(id) else bottom
  }

  ghost function Limit<V(!new)>(step: (string, string -> V) -> V, bottom: V): string -> V {
    id => Reached(step, bottom, id)
  }

  lemma {:induction false} IterateGrows<V(!new)>(
    step: (string, string -> V) -> V, deps: string -> seq<string>, bottom: V, m: nat, n: nat, id: string)
    requires Settles(step, deps, bottom) && m <= n && Iterate(step, bottom, m)(id) != bottom
    ensures Iterate(step, bottom, n)(id) == Iterate(step, bottom, m)(id)
    decreases m
  {
    var before, after := Iterate(step, bottom, m - 1), Iterate(step, bottom, n - 1);
    forall k | k in deps(id) ensures before(k) == bottom || after(k) == before(k) {
      if before(k) != bottom {
        IterateGrows(step, deps, bottom, m - 1, n - 1, k);
      }
    }
    assert Extends(bottom, deps(id), before, after);
  }

  lemma LimitIs<V(!new)>(step: (string, string -> V) -> V, deps: string -> seq<string>, bottom: V, n: nat, id: string)
    requires Settles(step, deps, bottom) && Iterate(step, bottom, n)(id) != bottom
    ensures Limit(step, bottom)(id) == Iterate(step, bottom, n)(id)
  {
    var m: nat :| Iterate(step, bottom, m)(id) != bottom && Limit(step, bottom)(id) == Iterate(step, bottom, m)(id);
    IterateGrows(step, deps, bottom, if m <= n then m else n, if m <= n then n else m, id);
  }

  /** A round by which every one of these keys that is ever reached has been reached. */
  lemma {:induction false} CommonRound<V(!new)>(
    step: (string, string -> V) -> V, deps: string -> seq<string>, bottom: V, keys: seq<string>) returns (n: nat)
    requires Settles(step, deps, bottom)
    ensures forall k | k in keys :: Iterate(step, bottom, n)(k) == Limit(step, bottom)(k)
  {
    n := 0;
    if keys != [] {
      var first := keys[0];
      var later := CommonRound(step, deps, bottom, keys[1..]);
      n := later;
      if Limit(step, bottom)(first) != bottom {
        var m: nat :| Iterate(step, bottom, m)(first) != bottom;
        n := if m <= later then later else m;
        IterateGrows(step, deps, bottom, m, n, first);
        LimitIs(step, deps, bottom, n, first);
      } else {
        StillBottom(step, bottom, n, first);
      }
      forall k | k in keys[1..] ensures Iterate(step, bottom, n)(k) == Limit(step, bottom)(k) {
        SameLater(step, deps, bottom, later, n, k);
      }
    }
  }

  lemma StillBottom<V(!new)>(step: (string, string -> V) -> V, bottom: V, n: nat, id: string)
    requires Limit(step, bottom)(id) == bottom
    ensures Iterate(step, bottom, n)(id) == bottom
  {
  }

  lemma SameLater<V(!new)>(step: (string, string -> V) -> V, deps: string -> seq<string>, bottom: V, m: nat, n: nat, id: string)
    requires Settles(step, deps, bottom) && m <= n && Iterate(step, bottom, m)(id) == Limit(step, bottom)(id)
    ensures Iterate(step, bottom, n)(id) == Limit(step, bottom)(id)
  {
    if Iterate(step, bottom, m)(id) != bottom {
      IterateGrows(step, deps, bottom, m, n, id);
    } else {
      StillBottom(step, bottom, n, id);
    }
  }

  /** The limit solves the equations. */
  lemma LimitSolves<V(!new)>(step: (string, string -> V) -> V, deps: string -> seq<string>, bottom: V, id: string)
    requires Settles(step, deps, bottom)
    ensures Limit(step, bottom)(id) == step(id, Limit(step, bottom))
  {
    var limit := Limit(step, bottom);
    var n := CommonRound(step, deps, bottom, deps(id));
    var table := Iterate(step, bottom, n);
    assert Extends(bottom, deps(id), table, limit) && Extends(bottom, deps(id), limit, table);
    assert Iterate(step, bottom, n + 1)(id) == step(id, table);
    if step(id, table) != bottom {
      LimitIs(step, deps, bottom, n + 1, id);
    } else {
      assert step(id, limit) == bottom;
      NeverReached(step, deps, bottom, id);
    }
  }

  lemma NeverReached<V(!new)>(step: (string, string -> V) -> V, deps: string -> seq<string>, bottom: V, id: string)
    requires Settles(step, deps, bottom) && step(id, Limit(step, bottom)) == bottom
    ensures Limit(step, bottom)(id) == bottom
  {
    var limit := Limit(step, bottom);
    forall m: nat ensures Iterate(step, bottom, m)(id) == bottom {
      if m > 0 {
        var before := Iterate(step, bottom, m - 1);
        forall k | k in deps(id) ensures before(k) == bottom || limit(k) == before(k) {
          if before(k) != bottom {
            LimitIs(step, deps, bottom, m - 1, k);
          }
        }
        assert Extends(bottom, deps(id), before, limit);
      }
    }
  }

  /** Any solution, if only where the equations give a value, agrees with the limit wherever the limit has been reached. */
  lemma {:induction false} LimitIsLeast<V(!new)>(
    step: (string, string -> V) -> V, deps: string -> seq<string>, bottom: V, solution: string -> V, n: nat, id: string)
    requires Settles(step, deps, bottom) && forall k :: step(k, solution) == bottom || solution(k) == step(k, solution)
    requires Iterate(step, bottom, n)(id) != bottom
    ensures solution(id) == Iterate(step, bottom, n)(id)
  {
    var before := Iterate(step, bottom, n - 1);
    forall k | k in deps(id) ensures before(k) == bottom || solution(k) == before(k) {
      if before(k) != bottom {
        LimitIsLeast(step, deps, bottom, solution, n - 1, k);
      }
    }
    assert Extends(bottom, deps(id), before, solution);
  }
}
