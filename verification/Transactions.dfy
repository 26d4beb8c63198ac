/**
 Transactions and the plain nonce-to-transaction maps that the pool's list structures
 represent. Everything here is a value: these functions are the specification of the
 heap-indexed maps and lists.
 */
module Transactions {
  import opened Common

  type Address = nat
  type Hash = nat

  /** The size in bytes one pool slot holds. */
  const TX_SLOT_SIZE: nat := 32 * 1024

  /**
   `from` and `exempt` stand for signature recovery and the gas exemption test;
   `wellFormed` stands for the checks of a transaction that do not depend on the pool.
   */
  datatype Tx = Tx(hash: Hash, from: Address, nonce: nat, gas: nat, gasPrice: nat, value: nat,
                   size: nat, exempt: bool, wellFormed: bool)
  {
    function Cost(): (c: nat) {
      gasPrice * gas + value
    }

    /** The replacement tier, which the source reads as an unsigned 64-bit number. */
    function Tier(): (t: nat) {
      U64(gasPrice)
    }

    function Slots(): (n: nat) {
      (size + TX_SLOT_SIZE - 1) / TX_SLOT_SIZE
    }
  }

  type Txs = map<nat, Tx>

  /** Every transaction sits at its own nonce. */
  ghost predicate Keyed(m: Txs) {
    forall n :: n in m ==> m[n].nonce == n
  }

  function From(m: Txs, t: nat): Txs {
    map n | n in m && n >= t :: m[n]
  }

  function Below(m: Txs, t: nat): Txs {
    map n | n in m && n < t :: m[n]
  }

  function Select(m: Txs, f: Tx -> bool): Txs {
    map n | n in m && f(m[n]) :: m[n]
  }

  function Reject(m: Txs, f: Tx -> bool): Txs {
    map n | n in m && !f(m[n]) :: m[n]
  }

  /** How many nonces of `m` are lower than `n`. */
  function Rank(m: Txs, n: nat): nat {
    |set x | x in m.Keys && x < n|
  }

  /** The `k` transactions with the lowest nonces. */
  function Lowest(m: Txs, k: nat): Txs {
    map n | n in m && Rank(m, n) < k :: m[n]
  }

  function AllButLowest(m: Txs, k: nat): Txs {
    map n | n in m && Rank(m, n) >= k :: m[n]
  }

  predicate ReachesDownTo(m: Txs, x: nat) {
    exists y :: y in m && y <= x
  }

  /** No nonce is missing between the lowest nonce of `m` and `n`. */
  predicate Gapless(m: Txs, n: nat) {
    forall x: nat :: x <= n && ReachesDownTo(m, x) ==> x in m
  }

  /** The consecutive run at the front of `m`, provided it starts at or before `start`. */
  function Ready(m: Txs, start: nat): Txs {
    map n | n in m && Gapless(m, n) && ReachesDownTo(m, start) :: m[n]
  }

  function NotReady(m: Txs, start: nat): Txs {
    map n | n in m && !(Gapless(m, n) && ReachesDownTo(m, start)) :: m[n]
  }

  /** `s` holds every transaction of `m` exactly once. */
  ghost predicate Lists(s: seq<Tx>, m: Txs) {
    && (forall i :: 0 <= i < |s| ==> s[i].nonce in m && m[s[i].nonce] == s[i])
    && (forall i, j :: 0 <= i < j < |s| ==> s[i].nonce != s[j].nonce)
    && (forall n :: n in m ==> m[n] in s)
  }

  ghost predicate Ascending(s: seq<Tx>) {
    forall i, j :: 0 <= i < j < |s| ==> s[i].nonce < s[j].nonce
  }

  ghost predicate Descending(s: seq<Tx>) {
    forall i, j :: 0 <= i < j < |s| ==> s[i].nonce > s[j].nonce
  }

  /** The nonce-sorted listing of a map. */
  ghost predicate SortedListing(s: seq<Tx>, m: Txs) {
    Lists(s, m) && Ascending(s)
  }

  ghost function NoncesOf(s: seq<Tx>): set<nat> {
    set i | 0 <= i < |s| :: s[i].nonce
  }

  lemma {:induction false} NonceCount(s: seq<Tx>)
    requires forall i, j :: 0 <= i < j < |s| ==> s[i].nonce != s[j].nonce
    ensures |NoncesOf(s)| == |s|
  {
    if s != [] {
      var t := s[..|s| - 1];
      NonceCount(t);
      assert NoncesOf(s) == NoncesOf(t) + {s[|s| - 1].nonce};
    }
  }

  lemma ListingLength(s: seq<Tx>, m: Txs)
    requires Lists(s, m) && Keyed(m)
    ensures |s| == |m| && NoncesOf(s) == m.Keys
  {
    NonceCount(s);
    assert NoncesOf(s) == m.Keys by {
      forall n | n in m ensures n in NoncesOf(s) {
        var i :| 0 <= i < |s| && s[i] == m[n];
        assert s[i].nonce == n;
      }
    }
  }

  /** In the sorted listing a transaction's position is its rank. */
  lemma ListingRank(s: seq<Tx>, m: Txs, i: nat)
    requires SortedListing(s, m) && Keyed(m) && i < |s|
    ensures Rank(m, s[i].nonce) == i
  {
    NonceCount(s[..i]);
    LowerListed(s, m, i);
  }

  lemma LowerListed(s: seq<Tx>, m: Txs, i: nat)
    requires SortedListing(s, m) && Keyed(m) && i < |s|
    ensures (set x | x in m.Keys && x < s[i].nonce) == NoncesOf(s[..i])
  {
    forall x | x in m.Keys && x < s[i].nonce ensures x in NoncesOf(s[..i]) {
      var j :| 0 <= j < |s| && s[j] == m[x];
      assert s[j].nonce == x && j < i;
      assert s[..i][j].nonce == x;
    }
    forall x | x in NoncesOf(s[..i]) ensures x in m.Keys && x < s[i].nonce {
      var j :| 0 <= j < i && s[..i][j].nonce == x;
      assert s[j].nonce < s[i].nonce;
    }
  }

  /** Ranks determine nonces. */
  lemma RankStrict(m: Txs, a: nat, b: nat)
    requires a in m && a < b
    ensures Rank(m, a) < Rank(m, b)
  {
    var sa, sb := set x | x in m.Keys && x < a, set x | x in m.Keys && x < b;
    assert a in sb && a !in sa;
    assert sa <= sb - {a};
    SubsetSize(sa, sb - {a});
  }

  lemma {:induction false} SubsetSize<T>(a: set<T>, b: set<T>)
    requires a <= b
    ensures |a| <= |b|
  {
    if a != {} {
      var x :| x in a;
      SubsetSize(a - {x}, b - {x});
    }
  }

  lemma SameRank(m: Txs, a: nat, b: nat)
    requires a in m && b in m && Rank(m, a) == Rank(m, b)
    ensures a == b
  {
    if a < b {
      RankStrict(m, a, b);
    } else if b < a {
      RankStrict(m, b, a);
    }
  }

  lemma {:induction false} LowestNonceOf(s: set<nat>) returns (n: nat)
    requires s != {}
    ensures n in s && forall x :: x in s ==> n <= x
    decreases |s|
  {
    n :| n in s;
    var t := s - {n};
    if t != {} {
      var h := LowestNonceOf(t);
      forall x | x in s ensures x == n || h <= x {
        assert x == n || x in t;
      }
      n := if n < h then n else h;
    } else {
      assert s == {n};
    }
  }

  lemma {:induction false} HighestNonceOf(s: set<nat>) returns (n: nat)
    requires s != {}
    ensures n in s && forall x :: x in s ==> x <= n
    decreases |s|
  {
    n :| n in s;
    var t := s - {n};
    if t != {} {
      var h := HighestNonceOf(t);
      forall x | x in s ensures x == n || x <= h {
        assert x == n || x in t;
      }
      n := if n < h then h else n;
    } else {
      assert s == {n};
    }
  }

  lemma ListingUnique(s: seq<Tx>, t: seq<Tx>, m: Txs)
    requires SortedListing(s, m) && SortedListing(t, m) && Keyed(m)
    ensures s == t
  {
    hide Rank;
    ListingLength(s, m);
    ListingLength(t, m);
    forall i | 0 <= i < |s| ensures s[i] == t[i] {
      ListingRank(s, m, i);
      ListingRank(t, m, i);
      SameRank(m, s[i].nonce, t[i].nonce);
    }
  }

  lemma RankBound(m: Txs, n: nat)
    requires n in m
    ensures Rank(m, n) < |m|
  {
    var below := set x | x in m.Keys && x < n;
    assert below <= m.Keys - {n};
    SubsetSize(below, m.Keys - {n});
  }

  /** The nonce-sorted listing of a map as a value. */
  function Flat(m: Txs): (s: seq<Tx>)
    decreases |m|
  {
    if m == map[] then []
    else
      LowestExists(m);
      var n :| n in m && forall x :: x in m ==> n <= x;
      [m[n]] + Flat(m - {n})
  }

  lemma {:induction false} FlatListing(m: Txs)
    requires Keyed(m)
    ensures SortedListing(Flat(m), m)
    decreases |m|
  {
    hide SortedListing;
    if m == map[] {
      EmptyListing();
    } else {
      LowestExists(m);
      var n :| n in m && (forall x :: x in m ==> n <= x) && Flat(m) == [m[n]] + Flat(m - {n});
      FlatListing(m - {n});
      FlatStep(m, n, Flat(m - {n}));
    }
  }

  lemma EmptyListing()
    ensures SortedListing([], map[])
  {
  }

  lemma LowestExists(m: Txs)
    requires m != map[]
    ensures exists n :: n in m && forall x :: x in m ==> n <= x
  {
    assert m.Keys != {};
    var n := LowestNonceOf(m.Keys);
    assert n in m && forall x :: x in m ==> n <= x;
  }

  lemma FlatStep(m: Txs, n: nat, rest: seq<Tx>)
    requires Keyed(m) && n in m && (forall x :: x in m ==> n <= x) && SortedListing(rest, m - {n})
    ensures SortedListing([m[n]] + rest, m)
  {
    var s := [m[n]] + rest;
    forall i | 0 <= i < |s| ensures s[i].nonce in m && m[s[i].nonce] == s[i] {
      if i > 0 { assert s[i] == rest[i - 1]; }
    }
    forall i, j | 0 <= i < j < |s| ensures s[i].nonce < s[j].nonce {
      assert s[j] == rest[j - 1] && s[j].nonce in m - {n};
      if i > 0 { assert s[i] == rest[i - 1]; }
    }
    forall x | x in m ensures m[x] in s {
      if x != n {
        assert (m - {n})[x] in rest;
      } else {
        assert s[0] == m[x];
      }
    }
  }
}
