/** `apply_decay`, the legacy decay sweep: every memory's salience is decayed
    exponentially by the days since it was last seen, and written back with
    `updated_at` set to the sweep's instant. */
module Decay {
  import opened Numeric
  import Js
  import Db
  import Database

  /** `r.last_seen_at || r.updated_at`: a zero last-seen time counts as unset. */
  function Since(r: Db.Memory): int
  {
    if r.lastSeenAt != 0 then r.lastSeenAt else r.updatedAt
  }

  /** `Math.max(0, (n - since) / 86400000)`: elapsed days, never negative. */
  function Elapsed(r: Db.Memory, n: int): real
  {
    Max(0.0, DaysBetween(Since(r), n))
  }

  /** `r.decay_lambda || env.decay_lambda`: a zero rate falls back to the global one. */
  function Rate(r: Db.Memory, envLambda: real): real
  {
    if r.decayLambda != 0.0 then r.decayLambda else envLambda
  }

  /** `Math.max(0, r.salience * Math.exp(-l * dt))`. */
  function NewSalience(m: Math, r: Db.Memory, envLambda: real, n: int): real
  {
    Max(0.0, r.salience * m.exp(-Rate(r, envLambda) * Elapsed(r, n)))
  }

  /** One element of `updates`. */
  datatype Update = Update(id: string, salience: real)

  /** `memories.map(...)`: one update per fetched row, in order. */
  function Updates(m: Math, rows: seq<Db.Memory>, envLambda: real, n: int): (r: seq<Update>)
    ensures |r| == |rows|
    ensures forall i :: 0 <= i < |rows| ==> r[i] == Update(rows[i].id, NewSalience(m, rows[i], envLambda, n))
  {
    seq(|rows|, i requires 0 <= i < |rows| => Update(rows[i].id, NewSalience(m, rows[i], envLambda, n)))
  }

  /** The tables after `update memories set salience=?, updated_at=? where id=?`
      for each update, in order. */
  function Applied(t: Db.Tables, ups: seq<Update>, n: int): Db.Tables
    decreases |ups|
  {
    if ups == [] then t
    else
      var u := ups[|ups| - 1];
      Db.UpdSalience(Applied(t, ups[..|ups| - 1], n), u.salience, n, u.id)
  }

  /** `apply_decay`: fetch every row, compute the updates, then run them. */
  method ApplyDecay(store: Database.Store, m: Math, envLambda: real, now: int)
    requires store.Valid()
    modifies store
    ensures store.Valid() && store.saved == old(store.saved)
    ensures store.State() == Applied(old(store.State()), Updates(m, old(store.State()).memories, envLambda, now), now)
  {
    var memories := store.memories;
    var n := now;
    var updates := Updates(m, memories, envLambda, n);
    ghost var t := store.State();
    for i := 0 to |updates|
      invariant store.Valid() && store.saved == old(store.saved)
      invariant store.State() == Applied(t, updates[..i], n)
    {
      Js.PrefixSlice(updates, i, i + 1);
      store.UpdSalience(updates[i].salience, n, updates[i].id);
    }
    Js.WholeSlice(updates);
  }

  // ---- what the sweep does ----------------------------------------------------------------

  /** The row `apply_decay` writes for `r`: its new salience and `updated_at`
      set to the sweep's instant; `last_seen_at` and every other column stay. */
  function Decayed(m: Math, r: Db.Memory, envLambda: real, n: int): Db.Memory
  {
    r.(salience := NewSalience(m, r, envLambda, n), updatedAt := n)
  }

  /** After the first `j` updates of a keyed table, the first `j` rows are
      decayed and the rest are untouched. */
  lemma {:induction false} AppliedPrefix(m: Math, t: Db.Tables, envLambda: real, n: int, j: nat)
    requires Db.Keyed(t) && j <= |t.memories|
    ensures var u := Applied(t, Updates(m, t.memories, envLambda, n)[..j], n);
      && u.vectors == t.vectors && u.waypoints == t.waypoints && u.logs == t.logs
      && |u.memories| == |t.memories|
      && forall i :: 0 <= i < |t.memories| ==>
           u.memories[i] == if i < j then Decayed(m, t.memories[i], envLambda, n) else t.memories[i]
  {
    if j > 0 {
      var ups := Updates(m, t.memories, envLambda, n);
      AppliedPrefix(m, t, envLambda, n, j - 1);
      Js.PrefixSlice(ups, j - 1, j);
      var p := Applied(t, ups[..j - 1], n);
      var row := t.memories[j - 1];
      var u := Applied(t, ups[..j], n);
      var f := Db.SetSalience(NewSalience(m, row, envLambda, n), n);
      assert u.memories == Db.MapMem(p.memories, row.id, f);
      forall i | 0 <= i < |t.memories|
        ensures u.memories[i] == if i < j then Decayed(m, t.memories[i], envLambda, n) else t.memories[i]
      {
        if i == j - 1 {
          assert p.memories[i] == row;
          assert f(row) == Decayed(m, row, envLambda, n);
        } else {
          assert t.memories[i].id != row.id;
          assert p.memories[i].id == t.memories[i].id;
        }
      }
    }
  }

  /** `apply_decay` on a keyed table decays every row in place, sets each
      row's `updated_at` to the same instant, and changes nothing else. */
  lemma ApplyDecayEffect(m: Math, t: Db.Tables, envLambda: real, n: int)
    requires Db.Keyed(t)
    ensures var u := Applied(t, Updates(m, t.memories, envLambda, n), n);
      && u.vectors == t.vectors && u.waypoints == t.waypoints && u.logs == t.logs
      && |u.memories| == |t.memories|
      && forall i :: 0 <= i < |t.memories| ==>
           && u.memories[i].salience == NewSalience(m, t.memories[i], envLambda, n)
           && u.memories[i].updatedAt == n
           && u.memories[i] == t.memories[i].(salience := u.memories[i].salience, updatedAt := n)
  {
    var ups := Updates(m, t.memories, envLambda, n);
    AppliedPrefix(m, t, envLambda, n, |t.memories|);
    assert ups[..|t.memories|] == ups;
  }

  /** The new salience is never negative; with a non-negative salience and rate
      it is at most the old one, equal to it when no time has elapsed since the
      row was last seen, and strictly below it once time has elapsed under a
      positive rate. */
  lemma NewSalienceFacts(m: Math, r: Db.Memory, envLambda: real, n: int)
    requires ValidMath(m)
    ensures NewSalience(m, r, envLambda, n) >= 0.0
    ensures r.salience >= 0.0 && Rate(r, envLambda) >= 0.0 ==> NewSalience(m, r, envLambda, n) <= r.salience
    ensures r.salience >= 0.0 && Since(r) >= n ==> NewSalience(m, r, envLambda, n) == r.salience
    ensures r.salience > 0.0 && Rate(r, envLambda) > 0.0 && Since(r) < n ==> NewSalience(m, r, envLambda, n) < r.salience
  {
    var l := Rate(r, envLambda);
    var dt := Elapsed(r, n);
    var x := -l * dt;
    var e := m.exp(x);
    var s0 := r.salience;
    assert NewSalience(m, r, envLambda, n) == Max(0.0, s0 * e);
    assert dt >= 0.0;
    if s0 >= 0.0 && l >= 0.0 {
      assert l * dt >= 0.0;
      assert x <= 0.0;
      assert e <= 1.0;
      assert s0 * e <= s0;
    }
    if s0 >= 0.0 && Since(r) >= n {
      assert dt == 0.0;
      assert x == 0.0;
      assert e == 1.0;
    }
    if s0 > 0.0 && l > 0.0 && Since(r) < n {
      assert DaysBetween(Since(r), n) > 0.0;
      assert dt > 0.0;
      assert l * dt > 0.0;
      assert x < 0.0;
      assert e < 1.0;
      assert s0 * e < s0;
    }
  }
}
