/** Sites holding sequences of keyed items: when every key that was handed out is
    at exactly one spot, and that moving items from the front of one site to the end
    of another keeps it so. */
module Ledger {
  ghost predicate Spot<S(!new), I(!new), K(!new)>(c: S -> seq<I>, key: I -> K, k: K, s: S, i: nat)
  {
    i < |c(s)| && key(c(s)[i]) == k
  }

  ghost predicate Somewhere<S(!new), I(!new), K(!new)>(c: S -> seq<I>, key: I -> K, k: K)
  {
    exists s, i: nat :: Spot(c, key, k, s, i)
  }

  /** Every key handed out is at exactly one spot, and no other key is at any. */
  ghost predicate OneSpotEach<S(!new), I(!new), K(!new)>(c: S -> seq<I>, key: I -> K, keys: set<K>)
  {
    && (forall k, s, i: nat :: Spot(c, key, k, s, i) ==> k in keys)
    && (forall k, s, i: nat, t, j: nat :: Spot(c, key, k, s, i) && Spot(c, key, k, t, j) ==> s == t && i == j)
    && (forall k :: k in keys ==> Somewhere(c, key, k))
  }

  /** The first n items of one site stand at the end of another, perhaps changed
      but under the same keys; the rest is where it was. */
  ghost predicate Transferred<S(!new), I(!new), K(!new)>(
      c: S -> seq<I>, d: S -> seq<I>, key: I -> K, from: S, to: S, n: nat)
  {
    && from != to && n <= |c(from)|
    && d(from) == c(from)[n..]
    && |d(to)| == |c(to)| + n
    && (forall i :: 0 <= i < |c(to)| ==> d(to)[i] == c(to)[i])
    && (forall i :: 0 <= i < n ==> key(d(to)[|c(to)| + i]) == key(c(from)[i]))
    && (forall s :: s != from && s != to ==> d(s) == c(s))
  }

  ghost predicate TransferredAt<S(!new), I(!new)>(c: S -> seq<I>, d: S -> seq<I>, from: S, to: S, moved: seq<I>, s: S)
    requires |moved| <= |c(from)|
  {
    d(s) == if s == from then c(from)[|moved|..] else if s == to then c(to) + moved else c(s)
  }

  lemma TransferredEverywhere<S(!new), I(!new), K(!new)>(
      c: S -> seq<I>, d: S -> seq<I>, key: I -> K, from: S, to: S, moved: seq<I>)
    requires from != to && |moved| <= |c(from)| && forall i :: 0 <= i < |moved| ==> key(moved[i]) == key(c(from)[i])
    requires forall s :: TransferredAt(c, d, from, to, moved, s)
    ensures Transferred(c, d, key, from, to, |moved|)
  {
    assert TransferredAt(c, d, from, to, moved, from) && TransferredAt(c, d, from, to, moved, to);
    forall s | s != from && s != to ensures d(s) == c(s) { assert TransferredAt(c, d, from, to, moved, s); }
  }

  function Back<S(==)>(from: S, to: S, n: nat, m: nat, s: S, i: nat): (S, nat)
  {
    if s == from then (s, i + n) else if s == to && i >= m then (from, i - m) else (s, i)
  }

  lemma TransferKeeps<S(!new), I(!new), K(!new)>(
      c: S -> seq<I>, d: S -> seq<I>, key: I -> K, keys: set<K>, from: S, to: S, n: nat)
    requires Transferred(c, d, key, from, to, n) && OneSpotEach(c, key, keys)
    ensures OneSpotEach(d, key, keys)
  {
    var m := |c(to)|;
    forall k, s, i: nat | Spot(d, key, k, s, i)
      ensures var b := Back(from, to, n, m, s, i); Spot(c, key, k, b.0, b.1) { }
    forall k | k in keys ensures Somewhere(d, key, k) {
      assert Somewhere(c, key, k);
      var s, i: nat :| Spot(c, key, k, s, i);
      if s != from { assert Spot(d, key, k, s, i); }
      else if i >= n { assert Spot(d, key, k, s, i - n); }
      else { assert Spot(d, key, k, to, m + i); }
    }
    forall k, s, i: nat, t, j: nat | Spot(d, key, k, s, i) && Spot(d, key, k, t, j) ensures s == t && i == j {
      assert Back(from, to, n, m, s, i) == Back(from, to, n, m, t, j);
    }
  }

  ghost predicate Keyed<I(!new), K(!new)>(made: seq<I>, key: I -> K, k: K, i: nat) { i < |made| && key(made[i]) == k }

  /** Newly made items, each under a key of its own, at the end of a site. */
  lemma IssueKeeps<S(!new), I(!new), K(!new)>(
      c: S -> seq<I>, d: S -> seq<I>, key: I -> K, keys: set<K>, more: set<K>, to: S, made: seq<I>)
    requires OneSpotEach(c, key, keys) && keys !! more
    requires d(to) == c(to) + made && forall s :: s != to ==> d(s) == c(s)
    requires forall i :: 0 <= i < |made| ==> key(made[i]) in more
    requires forall i, j :: 0 <= i < j < |made| ==> key(made[i]) != key(made[j])
    requires forall k :: k in more ==> exists i: nat :: Keyed(made, key, k, i)
    ensures OneSpotEach(d, key, keys + more)
  {
    var m := |c(to)|;
    forall k, s, i: nat | Spot(d, key, k, s, i)
      ensures k in keys + more && (s == to && i >= m <==> k in more) && (k in keys ==> Spot(c, key, k, s, i)) {
      if s != to || i < m { assert Spot(c, key, k, s, i); }
    }
    forall k, s, i: nat, t, j: nat | Spot(d, key, k, s, i) && Spot(d, key, k, t, j) ensures s == t && i == j {
      if k in more { assert key(made[i - m]) == key(made[j - m]); }
    }
    forall k | k in keys + more ensures Somewhere(d, key, k) {
      if k in more {
        var i: nat :| Keyed(made, key, k, i);
        assert Spot(d, key, k, to, m + i);
      } else {
        assert Somewhere(c, key, k);
        var s, i: nat :| Spot(c, key, k, s, i);
        assert Spot(d, key, k, s, i);
      }
    }
  }

  /** The same at every site as before. */
  lemma SameKeeps<S(!new), I(!new), K(!new)>(c: S -> seq<I>, d: S -> seq<I>, key: I -> K, keys: set<K>)
    requires OneSpotEach(c, key, keys)
    requires forall s :: d(s) == c(s)
    ensures OneSpotEach(d, key, keys)
  {
    forall k, s, i: nat | Spot(d, key, k, s, i) ensures Spot(c, key, k, s, i) { }
    forall k | k in keys ensures Somewhere(d, key, k) {
      assert Somewhere(c, key, k);
      var s, i: nat :| Spot(c, key, k, s, i);
      assert Spot(d, key, k, s, i);
    }
  }
}
