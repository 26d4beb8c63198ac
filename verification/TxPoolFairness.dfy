/**
 The fairness rule of the pending limit (core/tx_pool.go): all non-local accounts are cut to
 one common length, the longest one for which the limit holds.
 */
module PoolFairness {
  import opened Transactions
  import opened SortedMap
  import opened AccountLists
  import opened PoolState
  import opened PoolAccounts
  import Sums

  function Min(a: nat, b: nat): nat {
    if a < b then a else b
  }

  /** An account with its pending list cut to the `k` lowest nonces and its virtual nonce lowered accordingly. */
  ghost function Cut(acc: Account, k: nat): Account {
    Account(Lowest(acc.pending, k), acc.queue, CutNext(acc, k))
  }

  /** The virtual nonce drops to the lowest nonce cut off. */
  ghost function CutNext(acc: Account, k: nat): nat {
    if k < |Flat(acc.pending)| then Min(acc.next, Flat(acc.pending)[k].nonce) else acc.next
  }

  lemma LowestSize(m: Txs, k: nat)
    requires Keyed(m)
    ensures |Lowest(m, k)| == Min(k, |m|) && |Flat(m)| == |m|
    ensures SortedListing(Flat(m)[..Min(k, |m|)], Lowest(m, k)) && Keyed(Lowest(m, k))
  {
    FlatListing(m);
    ListingLength(Flat(m), m);
    LowestAll(m, k);
    if k <= |m| {
      ShiftBack(Flat(m), m, k);
      ListingLength(Flat(m)[..k], Lowest(m, k));
    } else {
      assert Flat(m)[..|m|] == Flat(m);
    }
  }

  lemma CutAll(acc: Account, k: nat)
    requires Keyed(acc.pending) && |acc.pending| <= k
    ensures Cut(acc, k) == acc
  {
    LowestSize(acc.pending, k);
    LowestAll(acc.pending, k);
  }

  /** Cutting once more cuts the original. */
  lemma CutCut(acc: Account, k: nat, j: nat)
    requires Keyed(acc.pending) && j <= k
    ensures Cut(Cut(acc, k), j) == Cut(acc, j)
  {
    hide SortedListing, Lowest, Flat;
    var m := acc.pending;
    LowestLowest(m, k, j);
    FlatOfLowest(m, k);
    FlatAscends(m);
  }

  lemma FlatAscends(m: Txs)
    requires Keyed(m)
    ensures Ascending(Flat(m))
  {
    FlatListing(m);
  }

  lemma FlatOfLowest(m: Txs, k: nat)
    requires Keyed(m)
    ensures |Flat(m)| == |m| && Flat(Lowest(m, k)) == Flat(m)[..Min(k, |m|)]
  {
    LowestSize(m, k);
    FlatListing(Lowest(m, k));
    ListingUnique(Flat(Lowest(m, k)), Flat(m)[..Min(k, |m|)], Lowest(m, k));
  }

  lemma LowestLowest(m: Txs, k: nat, j: nat)
    requires j <= k
    ensures Lowest(Lowest(m, k), j) == Lowest(m, j)
  {
    forall n | n in Lowest(m, k) ensures Rank(Lowest(m, k), n) == Rank(m, n) {
      CapIsDownward(m, k);
      assert (set x | x in Lowest(m, k).Keys && x < n) == (set x | x in m.Keys && x < n);
    }
  }

  ghost function Lens(p: Book): map<Address, int> {
    map a | a in p :: |p[a].txs|
  }

  /** The number of pending transactions. */
  ghost function Total(p: Book): int {
    Sums.Sum(Lens(p))
  }

  /** The number of pending transactions if non-local accounts were cut to `level`. */
  ghost function TotalAt(p: Book, locals: set<Address>, level: nat): int {
    Sums.Sum(CutLens(p, locals, level))
  }

  ghost function CutLens(p: Book, locals: set<Address>, level: nat): map<Address, int> {
    map a | a in p :: if a in locals then |p[a].txs| else Min(|p[a].txs|, level)
  }

  lemma TotalChange(p: Book, p': Book, a: Address)
    requires a in p && a in p'
    requires forall b :: b != a ==> (b in p <==> b in p') && (b in p ==> p[b] == p'[b])
    ensures Total(p') == Total(p) - |p[a].txs| + |p'[a].txs|
  {
    var l, l' := Lens(p), Lens(p');
    assert l'.Keys == l.Keys;
    assert l' == l[a := |p'[a].txs|];
    Sums.SumUpdate(l, a, |p'[a].txs|);
  }

  /** As `TotalChange`, when only the transactions of the lists are known to agree. */
  lemma TotalShift(m: Book, m': Book, a: Address, strict: bool)
    requires BookOk(m, strict) && BookOk(m', strict)
    requires forall b :: b != a ==> At(m', b, strict).txs == At(m, b, strict).txs
    ensures Total(m') == Total(m) - |At(m, a, strict).txs| + |At(m', a, strict).txs|
  {
    hide BookOk, At, Lens;
    var l, l' := Lens(m), Lens(m');
    LensAt(m, a, strict);
    LensAt(m', a, strict);
    forall b: Address | b != a ensures (b in l <==> b in l') && (b in l ==> l[b] == l'[b]) {
      LensAt(m, b, strict);
      LensAt(m', b, strict);
      assert At(m', b, strict).txs == At(m, b, strict).txs;
    }
    assert l - {a} == l' - {a};
    LensWithout(l, a);
    LensWithout(l', a);
  }

  lemma LensAt(m: Book, b: Address, strict: bool)
    requires BookOk(m, strict)
    ensures b in Lens(m) <==> At(m, b, strict).txs != map[]
    ensures if b in Lens(m) then Lens(m)[b] == |At(m, b, strict).txs| else |At(m, b, strict).txs| == 0
  {
  }

  lemma LensWithout(l: map<Address, int>, a: Address)
    ensures Sums.Sum(l) == Sums.Sum(l - {a}) + if a in l then l[a] else 0
  {
    if a in l {
      Sums.SumWithout(l, a);
    } else {
      assert l - {a} == l;
    }
  }

  lemma LenBelowTotal(p: Book, a: Address)
    ensures |At(p, a, true).txs| <= Total(p)
  {
    Sums.SumNonNegative(Lens(p));
    if a in p {
      Sums.SumAtLeast(Lens(p), a);
    }
  }

  /** Books that agree with a cut to `level` have that cut's total. */
  lemma LeveledTotal(p: Book, p': Book, locals: set<Address>, level: nat)
    requires level >= 1 && BookOk(p, true) && BookOk(p', true)
    requires forall a :: At(p', a, true).txs == if a in locals then At(p, a, true).txs else Lowest(At(p, a, true).txs, level)
    ensures Total(p') == TotalAt(p, locals, level)
  {
    var cut := CutLens(p, locals, level);
    forall a: Address ensures a in Lens(p') <==> a in cut
             ensures a in cut ==> a in Lens(p') && Lens(p')[a] == cut[a]
    {
      LeveledLength(p, p', locals, level, a);
    }
    assert Lens(p') == cut;
  }

  lemma LeveledLength(p: Book, p': Book, locals: set<Address>, level: nat, a: Address)
    requires level >= 1 && BookOk(p, true) && BookOk(p', true)
    requires At(p', a, true).txs == if a in locals then At(p, a, true).txs else Lowest(At(p, a, true).txs, level)
    ensures a in p' <==> a in p
    ensures a in p ==> |p'[a].txs| == if a in locals then |p[a].txs| else Min(|p[a].txs|, level)
  {
    var m := At(p, a, true).txs;
    AtOk(p, a, true);
    LowestSize(m, level);
    EmptySize(m);
    EmptySize(At(p', a, true).txs);
  }

  lemma EmptySize(m: Txs)
    ensures |m| == 0 <==> m == map[]
  {
    assert |m| == 0 ==> m.Keys == {};
  }

  /** The per-account content of the pool at one moment. */
  datatype Snapshot = Snapshot(pending: Book, queue: Book, nonces: map<Address, nat>, nonceOf: Address -> nat)
  {
    ghost function View(a: Address): Account {
      Account(At(pending, a, true).txs, At(queue, a, false).txs, if a in nonces then nonces[a] else nonceOf(a))
    }

    ghost function Len(a: Address): nat {
      |At(pending, a, true).txs|
    }

    ghost predicate Ok() {
      BookOk(pending, true)
    }
  }

  /** `now` is `start` with every non-local account cut to `level`. */
  ghost predicate Leveled(start: Snapshot, now: Snapshot, locals: set<Address>, level: nat) {
    && level >= 1
    && forall a :: now.View(a) == if a in locals then start.View(a) else Cut(start.View(a), level)
  }

  lemma LeveledAt(start: Snapshot, now: Snapshot, locals: set<Address>, level: nat, a: Address)
    requires Leveled(start, now, locals, level) && start.Ok() && now.Ok()
    ensures now.Len(a) == if a in locals then start.Len(a) else Min(start.Len(a), level)
    ensures a in now.pending <==> a in start.pending
    ensures a in start.pending <==> start.Len(a) > 0
  {
    assert now.View(a) == if a in locals then start.View(a) else Cut(start.View(a), level);
    AtOk(start.pending, a, true);
    LowestSize(start.View(a).pending, level);
    EmptySize(start.View(a).pending);
    EmptySize(now.View(a).pending);
  }

  lemma LeveledCount(start: Snapshot, now: Snapshot, locals: set<Address>, level: nat)
    requires Leveled(start, now, locals, level) && start.Ok() && now.Ok()
    ensures Total(now.pending) == TotalAt(start.pending, locals, level)
  {
    forall a ensures At(now.pending, a, true).txs == if a in locals then At(start.pending, a, true).txs else Lowest(At(start.pending, a, true).txs, level) {
      assert now.View(a) == if a in locals then start.View(a) else Cut(start.View(a), level);
    }
    LeveledTotal(start.pending, now.pending, locals, level);
  }

  /** A level that no account exceeds changes nothing. */
  lemma LeveledHigh(start: Snapshot, now: Snapshot, locals: set<Address>, level: nat, level': nat)
    requires start.Ok() && level' >= 1
    requires forall a :: a !in locals ==> start.Len(a) <= level'
    requires (forall a :: now.View(a) == start.View(a)) || (Leveled(start, now, locals, level) && forall a :: a !in locals ==> start.Len(a) <= level)
    ensures Leveled(start, now, locals, level')
  {
    forall a ensures now.View(a) == if a in locals then start.View(a) else Cut(start.View(a), level') {
      AtOk(start.pending, a, true);
      if a !in locals {
        CutAll(start.View(a), level');
        if start.Len(a) <= level {
          CutAll(start.View(a), level);
        }
      }
    }
  }

  /** Cutting everyone at the level by one more lowers the level by one. */
  lemma LeveledRound(start: Snapshot, now: Snapshot, next: Snapshot, locals: set<Address>, level: nat, offs: set<Address>)
    requires Leveled(start, now, locals, level) && start.Ok() && level >= 2
    requires forall a :: a in offs <==> a !in locals && start.Len(a) >= level
    requires forall a :: next.View(a) == if a in offs then Cut(now.View(a), level - 1) else now.View(a)
    ensures Leveled(start, next, locals, level - 1)
  {
    forall a ensures next.View(a) == if a in locals then start.View(a) else Cut(start.View(a), level - 1) {
      AtOk(start.pending, a, true);
      assert now.View(a) == if a in locals then start.View(a) else Cut(start.View(a), level);
      if a in offs {
        CutCut(start.View(a), level, level - 1);
      } else if a !in locals {
        CutAll(start.View(a), level);
        CutAll(start.View(a), level - 1);
      }
    }
  }

  /** Offenders have been cut to the level, the others were not above it; spammers are still to come. */
  ghost predicate Offending(start: Snapshot, locals: set<Address>, slots: nat, level: nat, offs: set<Address>, spammers: set<Address>) {
    && offs !! spammers
    && (forall a :: a in offs ==> a !in locals && start.Len(a) >= level && start.Len(a) > slots)
    && (forall a :: a in spammers ==> a !in locals && start.Len(a) > slots)
    && (forall a :: a !in locals && a !in offs ==> start.Len(a) <= level && (a in spammers || start.Len(a) <= slots))
  }

  /** Either nobody was cut, or one more transaction per account would have exceeded the limit. */
  ghost predicate Tight(start: Snapshot, locals: set<Address>, level: nat, limit: nat) {
    (exists a :: a !in locals && start.Len(a) > level) ==> TotalAt(start.pending, locals, level + 1) > limit
  }
}
