/**
 * JavaScript objects with string keys, as the batch merge uses them: an
 * association list in `Object.keys` order. Writing a key that is already
 * present replaces its value in place, so the key keeps the position of its
 * first insertion; a new key goes to the end. `{ ...a, ...b }` writes the
 * entries of `b` into a copy of `a`, one by one, in `b`'s key order.
 */
module ObjectSpread {
  import opened Options

  type Entries<V> = seq<(string, V)>

  /** `Object.keys(m)` */
  function Keys<V>(m: Entries<V>): (ks: seq<string>)
    ensures |ks| == |m|
    ensures forall i :: 0 <= i < |m| ==> ks[i] == m[i].0
  {
    if m == [] then [] else [m[0].0] + Keys(m[1..])
  }

  predicate Distinct(ks: seq<string>) {
    forall i, j :: 0 <= i < j < |ks| ==> ks[i] != ks[j]
  }

  /** What every JavaScript object satisfies: no key twice. */
  predicate DistinctKeys<V>(m: Entries<V>) {
    Distinct(Keys(m))
  }

  /** `m[k]`, `None` standing for `undefined` when `k` is not a key of `m`. */
  function Get<V>(m: Entries<V>, k: string): (r: Option<V>)
    ensures r.Some? <==> k in Keys(m)
  {
    if m == [] then None
    else if m[0].0 == k then Some(m[0].1)
    else Get(m[1..], k)
  }

  /** `m[k] = v` */
  function Put<V>(m: Entries<V>, k: string, v: V): Entries<V> {
    if m == [] then [(k, v)]
    else if m[0].0 == k then [(k, v)] + m[1..]
    else [m[0]] + Put(m[1..], k, v)
  }

  /** `{ ...m, ...n }` */
  function Spread<V>(m: Entries<V>, n: Entries<V>): Entries<V>
    decreases |n|
  {
    if n == [] then m
    else
      var last := n[|n| - 1];
      Put(Spread(m, n[..|n| - 1]), last.0, last.1)
  }

  /** `{ ...ps[0], ...ps[1], ..., ...ps[|ps| - 1] }` */
  function SpreadAll<V>(ps: seq<Entries<V>>): Entries<V>
    decreases |ps|
  {
    if ps == [] then []
    else Spread(SpreadAll(ps[..|ps| - 1]), ps[|ps| - 1])
  }

  /** `ks` with every repeated element after its first occurrence removed. */
  function Dedup(ks: seq<string>): seq<string>
    decreases |ks|
  {
    if ks == [] then []
    else
      var d := Dedup(ks[..|ks| - 1]);
      if ks[|ks| - 1] in d then d else d + [ks[|ks| - 1]]
  }

  /** Every key of `ks` list together, partition after partition. */
  function ConcatKeys<V>(ps: seq<Entries<V>>): seq<string>
    decreases |ps|
  {
    if ps == [] then [] else ConcatKeys(ps[..|ps| - 1]) + Keys(ps[|ps| - 1])
  }

  /** The index of the last partition that has key `k`. */
  function LastWith<V>(ps: seq<Entries<V>>, k: string): (r: Option<nat>)
    ensures r.Some? ==> r.value < |ps| && k in Keys(ps[r.value])
    ensures r.Some? ==> forall j :: r.value < j < |ps| ==> k !in Keys(ps[j])
    ensures r.None? ==> forall j :: 0 <= j < |ps| ==> k !in Keys(ps[j])
    decreases |ps|
  {
    if ps == [] then None
    else if k in Keys(ps[|ps| - 1]) then Some(|ps| - 1)
    else LastWith(ps[..|ps| - 1], k)
  }

  // ---------------------------------------------------------------- Dedup

  lemma {:induction false} DedupMembers(ks: seq<string>)
    ensures forall x :: x in Dedup(ks) <==> x in ks
    decreases |ks|
  {
    if ks != [] {
      DedupMembers(ks[..|ks| - 1]);
      assert ks == ks[..|ks| - 1] + [ks[|ks| - 1]];
    }
  }

  lemma {:induction false} DedupDistinct(ks: seq<string>)
    ensures Distinct(Dedup(ks))
    decreases |ks|
  {
    if ks != [] {
      DedupDistinct(ks[..|ks| - 1]);
    }
  }

  lemma {:induction false} DedupOfDistinct(ks: seq<string>)
    requires Distinct(ks)
    ensures Dedup(ks) == ks
    decreases |ks|
  {
    if ks != [] {
      DedupOfDistinct(ks[..|ks| - 1]);
      assert ks == ks[..|ks| - 1] + [ks[|ks| - 1]];
    }
  }

  lemma {:induction false} DedupAbsorbs(a: seq<string>, b: seq<string>)
    ensures Dedup(Dedup(a) + b) == Dedup(a + b)
    decreases |b|
  {
    if b == [] {
      DedupDistinct(a);
      DedupOfDistinct(Dedup(a));
      assert Dedup(a) + b == Dedup(a);
      assert a + b == a;
    } else {
      var b' := b[..|b| - 1];
      DedupAbsorbs(a, b');
      assert (Dedup(a) + b)[..|Dedup(a) + b| - 1] == Dedup(a) + b';
      assert (a + b)[..|a + b| - 1] == a + b';
    }
  }

  // ---------------------------------------------------------------- Get, Put

  lemma {:induction false} GetAppend<V>(m: Entries<V>, e: (string, V), k: string)
    ensures Get(m + [e], k) == if k in Keys(m) then Get(m, k) else if k == e.0 then Some(e.1) else None
    decreases |m|
  {
    if m != [] {
      assert (m + [e])[1..] == m[1..] + [e];
      GetAppend(m[1..], e, k);
      assert Keys(m) == [m[0].0] + Keys(m[1..]);
    }
  }

  /** Assignment stores `v` under `k` and leaves every other key's value alone. */
  lemma {:induction false} PutGet<V>(m: Entries<V>, k: string, v: V, j: string)
    ensures Get(Put(m, k, v), j) == if j == k then Some(v) else Get(m, j)
    decreases |m|
  {
    if m != [] && m[0].0 != k {
      PutGet(m[1..], k, v, j);
    }
  }

  /** Assignment keeps the key order; a new key is appended. */
  lemma {:induction false} PutKeys<V>(m: Entries<V>, k: string, v: V)
    ensures Keys(Put(m, k, v)) == if k in Keys(m) then Keys(m) else Keys(m) + [k]
    decreases |m|
  {
    if m != [] {
      PutKeys(m[1..], k, v);
      assert Keys(m) == [m[0].0] + Keys(m[1..]);
      if m[0].0 == k {
        assert Keys(Put(m, k, v)) == [k] + Keys(m[1..]);
      } else {
        assert Keys(Put(m, k, v)) == [m[0].0] + Keys(Put(m[1..], k, v));
      }
    }
  }

  // ---------------------------------------------------------------- Spread

  /**
   * Key order of `{ ...m, ...n }`: the keys of `m`, then the keys of `n` that
   * are new, each at the position of its first insertion.
   */
  lemma {:induction false} SpreadKeys<V>(m: Entries<V>, n: Entries<V>)
    requires DistinctKeys(m)
    ensures Keys(Spread(m, n)) == Dedup(Keys(m) + Keys(n))
    decreases |n|
  {
    if n == [] {
      DedupOfDistinct(Keys(m));
      assert Keys(m) + Keys(n) == Keys(m);
    } else {
      var n' := n[..|n| - 1];
      var last := n[|n| - 1];
      SpreadKeys(m, n');
      PutKeys(Spread(m, n'), last.0, last.1);
      DedupMembers(Keys(m) + Keys(n'));
      assert (Keys(m) + Keys(n))[..|Keys(m) + Keys(n)| - 1] == Keys(m) + Keys(n');
    }
  }

  /** Value of `{ ...m, ...n }[k]`: `n` wins wherever it has the key. */
  lemma {:induction false} SpreadGet<V>(m: Entries<V>, n: Entries<V>, k: string)
    requires DistinctKeys(n)
    ensures Get(Spread(m, n), k) == if k in Keys(n) then Get(n, k) else Get(m, k)
    decreases |n|
  {
    if n != [] {
      var n' := n[..|n| - 1];
      var last := n[|n| - 1];
      assert n == n' + [last];
      assert Keys(n) == Keys(n') + [last.0];
      assert DistinctKeys(n');
      SpreadGet(m, n', k);
      PutGet(Spread(m, n'), last.0, last.1, k);
      GetAppend(n', last, k);
    }
  }

  // ---------------------------------------------------------------- SpreadAll

  /**
   * Key order of the merged object: every key that occurs in some partition,
   * once, at the position where it was first inserted.
   */
  lemma {:induction false} SpreadAllKeys<V>(ps: seq<Entries<V>>)
    ensures Keys(SpreadAll(ps)) == Dedup(ConcatKeys(ps))
    ensures DistinctKeys(SpreadAll(ps))
    decreases |ps|
  {
    if ps != [] {
      var ps' := ps[..|ps| - 1];
      SpreadAllKeys(ps');
      SpreadKeys(SpreadAll(ps'), ps[|ps| - 1]);
      DedupAbsorbs(ConcatKeys(ps'), Keys(ps[|ps| - 1]));
    }
    DedupDistinct(ConcatKeys(ps));
  }

  /**
   * Last writer wins: the merged object's value for `k` is the whole entry of
   * the last partition that has `k`, and absent when no partition has it.
   */
  lemma {:induction false} SpreadAllGet<V>(ps: seq<Entries<V>>, k: string)
    requires forall i :: 0 <= i < |ps| ==> DistinctKeys(ps[i])
    ensures Get(SpreadAll(ps), k) == match LastWith(ps, k)
                                     case None => None
                                     case Some(i) => Get(ps[i], k)
    decreases |ps|
  {
    if ps != [] {
      var ps' := ps[..|ps| - 1];
      SpreadAllGet(ps', k);
      SpreadGet(SpreadAll(ps'), ps[|ps| - 1], k);
    }
  }

  /** The merged object has a key exactly when some partition has it. */
  lemma SpreadAllHasKey<V>(ps: seq<Entries<V>>, k: string)
    ensures k in Keys(SpreadAll(ps)) <==> exists i :: 0 <= i < |ps| && k in Keys(ps[i])
  {
    SpreadAllKeys(ps);
    DedupMembers(ConcatKeys(ps));
    ConcatKeysMembers(ps, k);
  }

  lemma {:induction false} ConcatKeysMembers<V>(ps: seq<Entries<V>>, k: string)
    ensures k in ConcatKeys(ps) <==> exists i :: 0 <= i < |ps| && k in Keys(ps[i])
    decreases |ps|
  {
    if ps != [] {
      var ps' := ps[..|ps| - 1];
      ConcatKeysMembers(ps', k);
      if k in Keys(ps[|ps| - 1]) {
        assert 0 <= |ps| - 1 < |ps| && k in Keys(ps[|ps| - 1]);
      }
      if i :| 0 <= i < |ps| && k in Keys(ps[i]) {
        if i < |ps| - 1 {
          assert ps'[i] == ps[i];
        }
      }
    }
  }
}
