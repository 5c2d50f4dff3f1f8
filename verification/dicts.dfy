/** Python's insertion-ordered `dict`, as the list of its (key, value) pairs.

    Assigning to a key that is already present keeps the key where it was and
    replaces its value; a new key goes to the end.  Building a dict from a
    list of pairs (a dict display, a comprehension, `{**a, **b}` or keyword
    arguments) therefore keeps the FIRST position and the LAST value of every
    key.  `Lookup` states the value half of that rule, `Dedup` the order half. */
module Dicts {
  import opened Values

  function Keys<V>(d: seq<(Key, V)>): (ks: seq<Key>)
    ensures |ks| == |d|
    ensures forall i :: 0 <= i < |d| ==> ks[i] == d[i].0
  {
    seq(|d|, i requires 0 <= i < |d| => d[i].0)
  }

  predicate Distinct(ks: seq<Key>) {
    forall i, j :: 0 <= i < j < |ks| ==> ks[i] != ks[j]
  }

  /** Python's `zip(ks, vs)`: pairs up to the shorter of the two. */
  function Zip<V>(ks: seq<Key>, vs: seq<V>): (ps: seq<(Key, V)>)
    ensures |ps| == if |ks| < |vs| then |ks| else |vs|
    ensures forall i :: 0 <= i < |ps| ==> ps[i] == (ks[i], vs[i])
  {
    var n := if |ks| < |vs| then |ks| else |vs|;
    seq(n, i requires 0 <= i < n => (ks[i], vs[i]))
  }

  /** The value the LAST pair with key `k` carries. */
  function Lookup<V>(ps: seq<(Key, V)>, k: Key): Option<V>
  {
    if |ps| == 0 then None
    else if ps[|ps| - 1].0 == k then Some(ps[|ps| - 1].1)
    else Lookup(ps[..|ps| - 1], k)
  }

  /** The keys of `ks` in order of first occurrence, each once. */
  function Dedup(ks: seq<Key>): seq<Key>
  {
    if |ks| == 0 then []
    else
      var d := Dedup(ks[..|ks| - 1]);
      if ks[|ks| - 1] in d then d else d + [ks[|ks| - 1]]
  }

  function IndexOf(ks: seq<Key>, k: Key): (i: nat)
    requires k in ks
    ensures i < |ks| && ks[i] == k
    ensures forall j :: 0 <= j < i ==> ks[j] != k
  {
    if ks[0] == k then 0 else 1 + IndexOf(ks[1..], k)
  }

  /** `d[k] = v` on a dict. */
  function Put<V>(d: seq<(Key, V)>, k: Key, v: V): (r: seq<(Key, V)>)
    ensures k in Keys(d) ==> Keys(r) == Keys(d)
    ensures k !in Keys(d) ==> Keys(r) == Keys(d) + [k]
    ensures Distinct(Keys(d)) ==> Distinct(Keys(r))
  {
    if k in Keys(d) then
      var r := d[IndexOf(Keys(d), k) := (k, v)];
      assert Keys(r) == Keys(d);
      r
    else
      var r := d + [(k, v)];
      assert Keys(r) == Keys(d) + [k];
      r
  }

  /** Building a dict by assigning the pairs of `ps` in order. */
  function FromPairs<V>(ps: seq<(Key, V)>): seq<(Key, V)>
  {
    if |ps| == 0 then [] else Put(FromPairs(ps[..|ps| - 1]), ps[|ps| - 1].0, ps[|ps| - 1].1)
  }

  /** The same assignments into a Dafny map, for records whose order does not matter. */
  function MapOf<V>(ps: seq<(Key, V)>): map<Key, V>
  {
    if |ps| == 0 then map[] else MapOf(ps[..|ps| - 1])[ps[|ps| - 1].0 := ps[|ps| - 1].1]
  }

  // ---------------------------------------------------------------------------
  // Lemmas

  lemma {:induction false} LookupReplace<V>(d: seq<(Key, V)>, i: nat, v: V, k': Key)
    requires Distinct(Keys(d))
    requires i < |d|
    ensures Lookup(d[i := (d[i].0, v)], k') == if k' == d[i].0 then Some(v) else Lookup(d, k')
  {
    var k := d[i].0;
    var r := d[i := (k, v)];
    var n := |d| - 1;
    assert |r| == |d| && r[n] == if i == n then (k, v) else d[n];
    if i == n {
      assert r[..n] == d[..n];
    } else {
      assert Keys(d)[i] != Keys(d)[n];
      if k' != d[n].0 {
        assert r[..n] == d[..n][i := (k, v)];
        assert Keys(d[..n]) == Keys(d)[..n];
        LookupReplace(d[..n], i, v, k');
      }
    }
  }

  /** After `d[k] = v` the dict maps `k` to `v` and every other key as before. */
  lemma PutLookup<V>(d: seq<(Key, V)>, k: Key, v: V)
    requires Distinct(Keys(d))
    ensures forall k' :: Lookup(Put(d, k, v), k') == if k' == k then Some(v) else Lookup(d, k')
  {
    if k in Keys(d) {
      var i := IndexOf(Keys(d), k);
      assert d[i].0 == k;
      assert Put(d, k, v) == d[i := (d[i].0, v)];
      forall k' ensures Lookup(Put(d, k, v), k') == if k' == k then Some(v) else Lookup(d, k') {
        LookupReplace(d, i, v, k');
      }
    } else {
      forall k' ensures Lookup(Put(d, k, v), k') == if k' == k then Some(v) else Lookup(d, k') {
        assert (d + [(k, v)])[..|d|] == d;
      }
    }
  }

  /** A key occurs in `ps` exactly when `Lookup` finds it, and then with the
      value of its last occurrence. */
  lemma {:induction false} LookupIsLastOccurrence<V>(ps: seq<(Key, V)>, k: Key)
    ensures Lookup(ps, k).Some? <==> k in Keys(ps)
    ensures forall j :: 0 <= j < |ps| && ps[j].0 == k &&
                        (forall j' :: j < j' < |ps| ==> ps[j'].0 != k) ==>
                        Lookup(ps, k) == Some(ps[j].1)
  {
    if |ps| > 0 {
      var n := |ps| - 1;
      LookupIsLastOccurrence(ps[..n], k);
      assert Keys(ps) == Keys(ps[..n]) + [ps[n].0];
    }
  }

  /** What `Lookup` finds is one of the pairs. */
  lemma {:induction false} LookupFound<V>(ps: seq<(Key, V)>, k: Key)
    requires Lookup(ps, k).Some?
    ensures exists j :: 0 <= j < |ps| && ps[j] == (k, Lookup(ps, k).value)
  {
    var n := |ps| - 1;
    if ps[n].0 != k {
      LookupFound(ps[..n], k);
      var j :| 0 <= j < n && ps[..n][j] == (k, Lookup(ps[..n], k).value);
      assert ps[j] == ps[..n][j];
    }
  }

  /** Looking a key up in a concatenation: the right-hand part wins. */
  lemma {:induction false} LookupAppend<V>(a: seq<(Key, V)>, b: seq<(Key, V)>, k: Key)
    ensures Lookup(a + b, k) == if Lookup(b, k).Some? then Lookup(b, k) else Lookup(a, k)
  {
    if |b| > 0 {
      var n := |b| - 1;
      assert (a + b)[..|a + b| - 1] == a + b[..n];
      LookupAppend(a, b[..n], k);
    } else {
      assert a + b == a;
    }
  }

  /** A dict built from pairs: its keys are the distinct keys in order of
      first occurrence, and each key holds the value of its last occurrence. */
  lemma {:induction false} FromPairsSpec<V>(ps: seq<(Key, V)>)
    ensures Distinct(Keys(FromPairs(ps)))
    ensures Keys(FromPairs(ps)) == Dedup(Keys(ps))
    ensures forall k :: Lookup(FromPairs(ps), k) == Lookup(ps, k)
  {
    if |ps| > 0 {
      var n := |ps| - 1;
      FromPairsSpec(ps[..n]);
      PutLookup(FromPairs(ps[..n]), ps[n].0, ps[n].1);
      assert Keys(ps[..n]) == Keys(ps)[..n];
    }
  }

  /** Every key of `ks` survives deduplication and no other key appears. */
  lemma {:induction false} DedupMembers(ks: seq<Key>)
    ensures forall k :: k in Dedup(ks) <==> k in ks
    ensures Distinct(Dedup(ks))
  {
    if |ks| > 0 {
      var n := |ks| - 1;
      DedupMembers(ks[..n]);
      assert ks == ks[..n] + [ks[n]];
    }
  }

  /** The map built by assigning `ps` in order agrees with `Lookup`. */
  lemma {:induction false} MapOfLookup<V>(ps: seq<(Key, V)>)
    ensures forall k :: k in MapOf(ps) <==> k in Keys(ps)
    ensures forall k :: k in MapOf(ps) ==> Lookup(ps, k) == Some(MapOf(ps)[k])
  {
    if |ps| > 0 {
      var n := |ps| - 1;
      MapOfLookup(ps[..n]);
      assert Keys(ps) == Keys(ps[..n]) + [ps[n].0];
    }
  }
}
