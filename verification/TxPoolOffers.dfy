/**
 What offers and evictions do to one account (core/tx_pool.go): a transaction offered to the pool
 may push others out before it is inserted, and a reset offers again what the chain dropped. From
 this follows exactly when an account's pending run survives a new head.
 */
module PoolOffers {
  import opened Common
  import opened Transactions
  import opened SortedMap
  import opened AccountLists
  import opened PoolState
  import opened PoolAccounts
  import opened PoolFairness
  import PricedList
  import Sums

  /** The outcome of offering a transaction to the pool. */
  datatype Outcome = Accepted(replaced: bool) | AlreadyKnown | Invalid | Overflow | Underpriced

  ghost function HashesOf(s: seq<Tx>): set<Hash> {
    set i | 0 <= i < |s| :: s[i].hash
  }

  /** The lookup after transactions left it and, if `add`, one entered it. */
  ghost function Exchange(m: map<Hash, Tx>, gone: set<Hash>, tx: Tx, add: bool): map<Hash, Tx> {
    if add then (m - gone)[tx.hash := tx] else m - gone
  }

  /** Whether `tx` may take the place of the member at its nonce, if there is one. */
  predicate Outbids(m: Txs, tx: Tx) {
    tx.nonce in m ==> m[tx.nonce].Tier() <= tx.Tier()
  }

  ghost function OfferOutcome(acc: Account, tx: Tx): Outcome {
    if !Outbids(if tx.nonce in acc.pending then acc.pending else acc.queue, tx) then Underpriced
    else Accepted(tx.nonce in acc.pending || tx.nonce in acc.queue)
  }

  /** An account after a transaction of it was offered. */
  ghost function Offered(acc: Account, tx: Tx): Account {
    if OfferOutcome(acc, tx) == Underpriced then acc
    else if tx.nonce in acc.pending then acc.(pending := acc.pending[tx.nonce := tx])
    else acc.(queue := acc.queue[tx.nonce := tx])
  }

  ghost function OfferReplaces(acc: Account, tx: Tx): set<Hash> {
    if OfferOutcome(acc, tx) == Underpriced then {}
    else if tx.nonce in acc.pending then {acc.pending[tx.nonce].hash}
    else if tx.nonce in acc.queue then {acc.queue[tx.nonce].hash}
    else {}
  }

  /** An account after one of its transactions is removed. */
  ghost function WithoutTx(acc: Account, nonce: nat): Account {
    if nonce in acc.pending
    then Account(Below(acc.pending, nonce), acc.queue + From(acc.pending, nonce + 1), if nonce < acc.next then nonce else acc.next)
    else acc.(queue := acc.queue - {nonce})
  }

  lemma HashesPrefix(s: seq<Tx>, i: nat)
    requires i < |s|
    ensures HashesOf(s[..i + 1]) == HashesOf(s[..i]) + {s[i].hash}
  {
  }

  lemma NoHashesYet(s: seq<Tx>, m: map<Hash, Tx>)
    ensures m - HashesOf(s[..0]) == m
  {
  }

  lemma OfferSound(acc: Account, f: Funds, tx: Tx)
    requires Sound(acc, f) && Payable(tx, f.balance, f.maxGas)
    ensures Sound(Offered(acc, tx), f)
  {
  }

  lemma WithoutTxSound(acc: Account, f: Funds, nonce: nat)
    requires Sound(acc, f)
    ensures Sound(WithoutTx(acc, nonce), f)
  {
    if nonce in acc.pending {
      CutSettled(acc, f.nonce, nonce);
    }
  }

  /** An account after the given transactions were evicted one by one. */
  ghost function EvictedFrom(acc: Account, a: Address, drop: seq<Tx>): Account {
    if drop == [] then acc
    else
      var last := drop[|drop| - 1];
      var rest := EvictedFrom(acc, a, drop[..|drop| - 1]);
      if last.from == a then WithoutTx(rest, last.nonce) else rest
  }

  /** An evicted nonce stays away, and eviction adds nothing. */
  lemma {:induction false} EvictedGone(acc: Account, a: Address, drop: seq<Tx>)
    requires Separate(acc)
    ensures var e := EvictedFrom(acc, a, drop);
            && Separate(e) && (forall n :: n in e.pending ==> n in acc.pending)
            && (forall n :: n in e.queue ==> n in acc.pending || n in acc.queue)
            && (forall i :: 0 <= i < |drop| && drop[i].from == a ==> drop[i].nonce !in e.pending && drop[i].nonce !in e.queue)
  {
    if drop != [] {
      EvictedGone(acc, a, drop[..|drop| - 1]);
      assert forall i :: 0 <= i < |drop| - 1 ==> drop[i] == drop[..|drop| - 1][i];
    }
  }

  lemma EvictedTwice(acc: Account, nonce: nat)
    requires nonce !in acc.pending && nonce !in acc.queue
    ensures WithoutTx(acc, nonce) == acc
  {
    assert acc.queue - {nonce} == acc.queue;
  }

  lemma EvictedStep(acc: Account, a: Address, drop: seq<Tx>, i: nat)
    requires i < |drop|
    ensures var before := EvictedFrom(acc, a, drop[..i]);
            EvictedFrom(acc, a, drop[..i + 1]) == if drop[i].from == a then WithoutTx(before, drop[i].nonce) else before
  {
    assert drop[..i + 1][..i] == drop[..i];
  }

  /** The checks of a transaction against the state of its sender. */
  predicate Admissible(tx: Tx, f: Funds) {
    && tx.wellFormed
    && tx.gas <= f.maxGas
    && f.nonce <= tx.nonce
    && (tx.Cost() <= f.balance || tx.exempt)
  }

  /** One offer: the transaction, what became of it and what was evicted for it. */
  datatype Offering = Offering(tx: Tx, outcome: Outcome, evicted: seq<Tx>)
  {
    /** Whether the offer got as far as the account's lists. */
    predicate Reached() {
      outcome.Accepted? || outcome.Underpriced?
    }
  }

  ghost function One(tx: Tx, yes: bool): multiset<Tx> {
    if yes then multiset{tx} else multiset{}
  }

  /** The transactions that a series of offers enters as remote ones. */
  ghost function Entering(log: seq<Offering>, locals: set<Address>): multiset<Tx> {
    if log == [] then multiset{}
    else var o := log[|log| - 1]; Entering(log[..|log| - 1], locals) + One(o.tx, o.outcome.Accepted? && o.tx.from !in locals)
  }

  lemma EnteringNext(log: seq<Offering>, o: Offering, locals: set<Address>)
    ensures Entering(log + [o], locals) == Entering(log, locals) + One(o.tx, o.outcome.Accepted? && o.tx.from !in locals)
    ensures Entering([], locals) == multiset{}
  {
    assert (log + [o])[..|log|] == log;
  }

  /** No transaction occurs twice. */
  ghost predicate Single(m: multiset<Tx>) {
    forall tx :: m[tx] <= 1
  }

  ghost function AfterOffer(acc: Account, a: Address, o: Offering): Account {
    if !o.Reached() then acc
    else if a == o.tx.from then Offered(EvictedFrom(acc, a, o.evicted), o.tx)
    else EvictedFrom(acc, a, o.evicted)
  }

  /** The lookup after an offer; `acc` is the sender's account before it. */
  ghost function LookupAfter(all: map<Hash, Tx>, acc: Account, o: Offering): map<Hash, Tx> {
    if !o.Reached() then all
    else Exchange(all - HashesOf(o.evicted), OfferReplaces(EvictedFrom(acc, o.tx.from, o.evicted), o.tx), o.tx, o.outcome.Accepted?)
  }

  /** Only the evicted and the replaced transaction leave, and only the offered one enters. */
  lemma OfferKeeps(all: map<Hash, Tx>, acc: Account, o: Offering, h: Hash)
    requires o.tx.hash !in all
    ensures var after := LookupAfter(all, acc, o);
            && (h in all && h !in HashesOf(o.evicted) && h !in OfferReplaces(EvictedFrom(acc, o.tx.from, o.evicted), o.tx)
                ==> h in after && after[h] == all[h])
            && (h in after ==> (h in all && after[h] == all[h]) || (h == o.tx.hash && after[h] == o.tx && o.outcome.Accepted?))
  {
  }

  /** An account after a series of offers. */
  ghost function Reinjected(acc: Account, a: Address, log: seq<Offering>): Account {
    if log == [] then acc else AfterOffer(Reinjected(acc, a, log[..|log| - 1]), a, log[|log| - 1])
  }

  /**
   An account while a reset offers transactions: pending is still a run from the old state nonce
   `before`, and the virtual nonce is the new state nonce or, below it, the end of that run.
   */
  ghost predicate Rebased(acc: Account, before: nat, state: nat) {
    acc.next <= state && exists hi :: before <= hi && Exactly(acc.pending, before, hi) && (acc.next < state ==> acc.next == hi)
  }

  lemma RebasedStart(acc: Account, before: nat, state: nat)
    requires Settled(acc, before)
    ensures Rebased(acc.(next := state), before, state)
  {
  }

  lemma RebasedWithout(acc: Account, before: nat, state: nat, n: nat)
    requires Rebased(acc, before, state)
    ensures Rebased(WithoutTx(acc, n), before, state)
    ensures WithoutTx(acc, n).next <= acc.next && (n in acc.pending ==> WithoutTx(acc, n).next <= n)
    ensures WithoutTx(acc, n).next < acc.next ==> n in acc.pending && n < state
  {
    if n in acc.pending {
      assert Exactly(Below(acc.pending, n), before, n);
    }
  }

  lemma RebasedOffered(acc: Account, before: nat, state: nat, tx: Tx)
    requires Rebased(acc, before, state)
    ensures Rebased(Offered(acc, tx), before, state) && Offered(acc, tx).next == acc.next
    ensures Offered(acc, tx).pending.Keys == acc.pending.Keys
  {
    var hi :| before <= hi && Exactly(acc.pending, before, hi) && (acc.next < state ==> acc.next == hi);
    assert Exactly(Offered(acc, tx).pending, before, hi);
  }

  /** Some pending transaction of the account that is below the new state nonce is among `drop`. */
  ghost predicate HitsExecuted(pending: Txs, state: nat, a: Address, drop: seq<Tx>) {
    exists i :: 0 <= i < |drop| && drop[i].from == a && drop[i].nonce < state && drop[i].nonce in pending
  }

  /** Evictions lower the virtual nonce below the state nonce exactly when they hit an executed pending transaction. */
  lemma {:induction false} RebasedEvicted(acc: Account, before: nat, state: nat, a: Address, drop: seq<Tx>)
    requires Rebased(acc, before, state)
    ensures var e := EvictedFrom(acc, a, drop);
            && Rebased(e, before, state) && e.next <= acc.next
            && (forall n :: n in e.pending ==> n in acc.pending)
            && (forall n :: n in acc.pending && n < e.next && n < state ==> n in e.pending)
            && (e.next < state <==> acc.next < state || HitsExecuted(acc.pending, state, a, drop))
  {
    var e := EvictedFrom(acc, a, drop);
    if drop == [] {
      assert !HitsExecuted(acc.pending, state, a, drop);
    } else {
      var k := |drop| - 1;
      var front, last := drop[..k], drop[k];
      RebasedEvicted(acc, before, state, a, front);
      var rest := EvictedFrom(acc, a, front);
      HitsMore(acc.pending, state, a, drop);
      if last.from == a {
        RebasedWithout(rest, before, state, last.nonce);
        RebasedLast(acc, rest, state, last.nonce);
      }
    }
  }

  lemma HitsMore(pending: Txs, state: nat, a: Address, drop: seq<Tx>)
    requires drop != []
    ensures var last := drop[|drop| - 1];
            HitsExecuted(pending, state, a, drop) <==>
            HitsExecuted(pending, state, a, drop[..|drop| - 1]) || (last.from == a && last.nonce < state && last.nonce in pending)
  {
    var front := drop[..|drop| - 1];
    if HitsExecuted(pending, state, a, front) {
      var i :| 0 <= i < |front| && front[i].from == a && front[i].nonce < state && front[i].nonce in pending;
      assert drop[i] == front[i];
    }
    if HitsExecuted(pending, state, a, drop) {
      var i :| 0 <= i < |drop| && drop[i].from == a && drop[i].nonce < state && drop[i].nonce in pending;
      assert i < |front| ==> front[i] == drop[i];
    }
  }

  lemma RebasedLast(acc: Account, rest: Account, state: nat, n: nat)
    requires (forall x :: x in rest.pending ==> x in acc.pending) && rest.next <= state
    requires forall x :: x in acc.pending && x < rest.next && x < state ==> x in rest.pending
    ensures var e := WithoutTx(rest, n);
            && (forall x :: x in acc.pending && x < e.next && x < state ==> x in e.pending)
            && (e.next < state <==> rest.next < state || (n < state && n in acc.pending))
  {
  }

  /** The reinjection of a reset evicts a pending transaction of the account that the new head has executed. */
  ghost predicate EvictsExecuted(acc: Account, state: nat, a: Address, log: seq<Offering>) {
    exists i :: 0 <= i < |log| && log[i].Reached() && HitsExecuted(acc.pending, state, a, log[i].evicted)
  }

  /** Through a whole reinjection the virtual nonce stays at the state nonce unless such an eviction happens. */
  lemma {:induction false} RebasedReinjected(acc: Account, before: nat, state: nat, a: Address, log: seq<Offering>)
    requires Rebased(acc, before, state) && acc.next == state
    ensures var e := Reinjected(acc, a, log);
            && Rebased(e, before, state) && e.next <= state
            && (forall n :: n in e.pending ==> n in acc.pending)
            && (forall n :: n in acc.pending && n < e.next && n < state ==> n in e.pending)
            && (e.next < state <==> EvictsExecuted(acc, state, a, log))
  {
    hide Rebased, EvictedFrom, Offered, HitsExecuted;
    if log == [] {
    } else {
      var k := |log| - 1;
      var front, o := log[..k], log[k];
      RebasedReinjected(acc, before, state, a, front);
      var rest := Reinjected(acc, a, front);
      EvictsMore(acc, state, a, log);
      if o.Reached() {
        RebasedEvicted(rest, before, state, a, o.evicted);
        RebasedOffered(EvictedFrom(rest, a, o.evicted), before, state, o.tx);
        SameHits(acc.pending, rest, state, a, o.evicted);
      }
    }
  }

  lemma SameHits(pending: Txs, rest: Account, state: nat, a: Address, drop: seq<Tx>)
    requires (forall n :: n in rest.pending ==> n in pending) && rest.next <= state
    requires forall n :: n in pending && n < rest.next && n < state ==> n in rest.pending
    ensures rest.next == state ==> (HitsExecuted(rest.pending, state, a, drop) <==> HitsExecuted(pending, state, a, drop))
  {
  }

  lemma EvictsMore(acc: Account, state: nat, a: Address, log: seq<Offering>)
    requires log != []
    ensures var o := log[|log| - 1];
            EvictsExecuted(acc, state, a, log) <==>
            EvictsExecuted(acc, state, a, log[..|log| - 1]) || (o.Reached() && HitsExecuted(acc.pending, state, a, o.evicted))
  {
    hide HitsExecuted;
    var front := log[..|log| - 1];
    if EvictsExecuted(acc, state, a, front) {
      var i :| 0 <= i < |front| && front[i].Reached() && HitsExecuted(acc.pending, state, a, front[i].evicted);
      assert log[i] == front[i];
    }
    if EvictsExecuted(acc, state, a, log) {
      var i :| 0 <= i < |log| && log[i].Reached() && HitsExecuted(acc.pending, state, a, log[i].evicted);
      assert i < |front| ==> front[i] == log[i];
    }
  }

  /** Promotion and demotion of a rebased account anchor its run exactly when nothing executed was evicted and no gap is left. */
  lemma RebasedAnchors(acc: Account, before: nat, f: Funds, limit: Option<nat>)
    requires Rebased(acc, before, f.nonce) && Separate(acc)
    ensures var d := Demoted(Promoted(acc, f, limit), f);
            && (Anchored(d, f.nonce) <==> acc.next == f.nonce && !LeavesGap(acc, before, f))
            && (acc.next < f.nonce ==> d.pending == map[] && d.next < f.nonce)
            && (acc.next == f.nonce && LeavesGap(acc, before, f) ==> GapAt(d.pending, f.nonce, FirstRun(acc, f), before))
  {
    var hi :| before <= hi && Exactly(acc.pending, before, hi) && (acc.next < f.nonce ==> acc.next == hi);
    if acc.next == f.nonce {
      var acc0 := acc.(next := hi);
      assert acc0.(next := f.nonce) == acc;
      ResetAnchorsIff(acc0, before, f, limit);
    } else {
      NothingReadyBelow(acc, f, limit, hi);
    }
  }

  /** With the virtual nonce below the state nonce nothing becomes ready, and all pending transactions are executed. */
  lemma NothingReadyBelow(acc: Account, f: Funds, limit: Option<nat>, hi: nat)
    requires acc.next == hi < f.nonce && forall n :: n in acc.pending ==> n < hi
    ensures var d := Demoted(Promoted(acc, f, limit), f);
            d.pending == map[] && d.next == acc.next
  {
    var e := Eligible(acc.queue, f);
    forall n | n in e ensures n >= f.nonce { EligibleIs(acc.queue, f, n); }
    assert Ready(e, acc.next) == map[];
    var p := Promoted(acc, f, limit);
    assert p.pending == acc.pending && p.next == acc.next;
    assert From(p.pending, f.nonce) == map[];
  }

  /** Cutting to the lowest `k` closes a gap exactly when it cuts at or before it. */
  lemma LowestOfGap(m: Txs, lo: nat, past: nat, beyond: nat, k: nat)
    requires GapAt(m, lo, past, beyond) && k >= 1
    ensures (exists hi: nat :: lo <= hi && Exactly(Lowest(m, k), lo, hi)) <==> k <= past - lo
    ensures lo in Lowest(m, k)
  {
    forall n: nat | lo <= n < past ensures Rank(m, n) == n - lo { RankInFront(m, lo, past, n); }
    RankPast(m, lo, past);
    forall n | n in m && n > past ensures Rank(m, n) >= past - lo { RankMonotone(m, past, n); }
    if k <= past - lo {
      assert Exactly(Lowest(m, k), lo, lo + k);
    } else {
      var x := FirstBeyond(m, past, beyond);
      assert x in Lowest(m, k) && past !in Lowest(m, k);
    }
  }

  lemma {:induction false} RankInFront(m: Txs, lo: nat, past: nat, n: nat)
    requires (forall x :: x in m ==> x >= lo) && (forall x: nat :: lo <= x < past ==> x in m) && lo <= n <= past
    ensures Rank(m, n) == n - lo
    decreases n
  {
    var below := set x | x in m.Keys && x < n;
    if n == lo {
      assert below == {};
    } else {
      RankInFront(m, lo, past, n - 1);
      assert below == (set x | x in m.Keys && x < n - 1) + {n - 1};
    }
  }

  lemma RankPast(m: Txs, lo: nat, past: nat)
    requires (forall x :: x in m ==> x >= lo) && (forall x: nat :: lo <= x < past ==> x in m) && lo <= past
    ensures Rank(m, past) == past - lo
  {
    RankInFront(m, lo, past, past);
  }

  lemma RankMonotone(m: Txs, a: nat, b: nat)
    requires a <= b
    ensures Rank(m, a) <= Rank(m, b)
  {
    var low, high := (set x | x in m.Keys && x < a), (set x | x in m.Keys && x < b);
    SubsetSize(low, high);
  }

  /** The lowest nonce above a missing one has the same rank. */
  lemma FirstBeyond(m: Txs, past: nat, beyond: nat) returns (x: nat)
    requires past !in m && beyond in m && past < beyond
    ensures x in m && x > past && Rank(m, x) == Rank(m, past)
  {
    var above := set n | n in m.Keys && n > past;
    assert beyond in above;
    x := LowestNonceOf(above);
    forall n | n in m.Keys && n < x ensures n < past { assert n > past ==> n in above; }
    assert (set n | n in m.Keys && n < x) == (set n | n in m.Keys && n < past);
  }

  /** What a new head brings: its state, its gas limit and the transactions the chain dropped on the way. */
  datatype Head = Head(nonceOf: Address -> nat, balanceOf: Address -> nat, maxGas: nat, reinject: seq<Tx>)

  /** Why the pool is reorganised. A reset whose head is not `taken` was given up because blocks or state were missing. */
  datatype Request = Promote(accounts: set<Address>) | Reset(head: Head, taken: bool)

  /** The lookup after a series of offers to a pool that started as `start` with lookup `all`. */
  ghost function LookupAt(start: Snapshot, all: map<Hash, Tx>, log: seq<Offering>): map<Hash, Tx> {
    if log == [] then all
    else
      var front, o := log[..|log| - 1], log[|log| - 1];
      LookupAfter(LookupAt(start, all, front), Reinjected(start.View(o.tx.from), o.tx.from, front), o)
  }

  ghost function SlotSum(all: map<Hash, Tx>): int {
    Sums.Sum(Weights(all))
  }

  /**
   What a remote offer comes to, given the lookup, the sender's account and funds: every outcome has
   its reason, evictions happen only when the pool is full and then free enough, and without any local
   transaction an offer overflows only if it is larger than the pool.
   */
  ghost predicate OfferingOk(all: map<Hash, Tx>, acc: Account, o: Offering, f: Funds, limit: nat, local: bool, plain: bool) {
    && (o.outcome == AlreadyKnown <==> o.tx.hash in all)
    && (o.outcome == Invalid <==> o.tx.hash !in all && !Admissible(o.tx, f))
    && (o.Reached() ==> o.outcome == OfferOutcome(EvictedFrom(acc, o.tx.from, o.evicted), o.tx))
    && (forall i :: 0 <= i < |o.evicted| ==> o.evicted[i].hash in all && all[o.evicted[i].hash] == o.evicted[i])
    && (!o.Reached() || SlotSum(all) + o.tx.Slots() <= limit ==> o.evicted == [])
    && (o.outcome == Overflow ==> !local && SlotSum(all) + o.tx.Slots() > limit && (plain ==> o.tx.Slots() > limit))
    && (o.Reached() && !local ==> PricedList.SlotsOf(o.evicted) >= SlotSum(all) + o.tx.Slots() - limit)
  }

  /** The log of a reset: the dropped transactions are offered in order, each to the pool as the offers before left it. */
  ghost predicate LogOk(start: Snapshot, all: map<Hash, Tx>, h: Head, log: seq<Offering>, limit: nat, locals: set<Address>, plain: bool) {
    && |log| <= |h.reinject|
    && forall i :: 0 <= i < |log| ==> LoggedOk(start, all, h, log, limit, locals, plain, i)
  }

  ghost predicate LoggedOk(start: Snapshot, all: map<Hash, Tx>, h: Head, log: seq<Offering>, limit: nat, locals: set<Address>, plain: bool, i: nat)
    requires i < |log| <= |h.reinject|
  {
    var tx := h.reinject[i];
    && log[i].tx == tx
    && OfferingOk(LookupAt(start, all, log[..i]), Reinjected(start.View(tx.from), tx.from, log[..i]), log[i],
                  Funds(h.nonceOf(tx.from), h.balanceOf(tx.from), h.maxGas), limit, tx.from in locals, plain)
  }

  lemma LogGrows(start: Snapshot, all: map<Hash, Tx>, h: Head, log: seq<Offering>, limit: nat, locals: set<Address>, plain: bool, o: Offering)
    requires LogOk(start, all, h, log, limit, locals, plain) && |log| < |h.reinject| && o.tx == h.reinject[|log|]
    requires OfferingOk(LookupAt(start, all, log), Reinjected(start.View(o.tx.from), o.tx.from, log), o,
                        Funds(h.nonceOf(o.tx.from), h.balanceOf(o.tx.from), h.maxGas), limit, o.tx.from in locals, plain)
    ensures LogOk(start, all, h, log + [o], limit, locals, plain)
    ensures LookupAt(start, all, log + [o]) == LookupAfter(LookupAt(start, all, log), Reinjected(start.View(o.tx.from), o.tx.from, log), o)
  {
    hide OfferingOk, LookupAt, LookupAfter, Reinjected;
    var more := log + [o];
    assert more[..|log|] == log;
    LookupNext(start, all, more);
    forall i | 0 <= i < |more| ensures LoggedOk(start, all, h, more, limit, locals, plain, i) {
      assert more[..i] == log[..i];
      if i < |log| { assert LoggedOk(start, all, h, log, limit, locals, plain, i); }
    }
  }

  lemma LookupNext(start: Snapshot, all: map<Hash, Tx>, log: seq<Offering>)
    requires log != []
    ensures var front, o := log[..|log| - 1], log[|log| - 1];
            LookupAt(start, all, log) == LookupAfter(LookupAt(start, all, front), Reinjected(start.View(o.tx.from), o.tx.from, front), o)
  {
    hide LookupAfter, Reinjected;
  }

  lemma ReinjectedNext(acc: Account, a: Address, log: seq<Offering>, o: Offering)
    ensures Reinjected(acc, a, log + [o]) == AfterOffer(Reinjected(acc, a, log), a, o) && Reinjected(acc, a, []) == acc
  {
    hide AfterOffer;
    assert (log + [o])[..|log|] == log;
  }

  /** The head lowers no state nonce of the pool, and what it gives back had been executed on it. */
  ghost predicate Forward(req: Request, nonceOf: Address -> nat) {
    req.Reset? && req.taken ==>
      && (forall a: Address :: nonceOf(a) <= req.head.nonceOf(a))
      && (forall i :: 0 <= i < |req.head.reinject| ==> req.head.reinject[i].nonce < req.head.nonceOf(req.head.reinject[i].from))
  }

  /** Then nothing that is offered again is admissible, and nothing happens. */
  lemma {:induction false} ForwardOffers(start: Snapshot, all: map<Hash, Tx>, h: Head, log: seq<Offering>, limit: nat, locals: set<Address>,
                                         plain: bool, nonceOf: Address -> nat, acc: Account, a: Address, k: nat)
    requires LogOk(start, all, h, log, limit, locals, plain) && Forward(Reset(h, true), nonceOf) && k <= |log|
    ensures Reinjected(acc, a, log[..k]) == acc && forall i :: 0 <= i < k ==> !log[i].Reached()
  {
    hide AfterOffer, LogOk, Forward, Offering.Reached;
    if k > 0 {
      ForwardOffers(start, all, h, log, limit, locals, plain, nonceOf, acc, a, k - 1);
      ForwardOffer(start, all, h, log, limit, locals, plain, nonceOf, k - 1);
      assert log[..k] == log[..k - 1] + [log[k - 1]];
      ReinjectedNext(acc, a, log[..k - 1], log[k - 1]);
      NotReached(acc, a, log[k - 1]);
    }
  }

  lemma ForwardOffer(start: Snapshot, all: map<Hash, Tx>, h: Head, log: seq<Offering>, limit: nat, locals: set<Address>, plain: bool,
                     nonceOf: Address -> nat, k: nat)
    requires LogOk(start, all, h, log, limit, locals, plain) && Forward(Reset(h, true), nonceOf) && k < |log|
    ensures !log[k].Reached()
  {
    hide LookupAt, EvictedFrom, Reinjected, SlotSum, OfferOutcome;
    assert LoggedOk(start, all, h, log, limit, locals, plain, k);
  }

  lemma NotReached(acc: Account, a: Address, o: Offering)
    ensures !o.Reached() ==> AfterOffer(acc, a, o) == acc
  {
  }

  /** So with such a head every run is kept. */
  lemma ForwardKeepsRun(start: Snapshot, all: map<Hash, Tx>, h: Head, log: seq<Offering>, limit: nat, locals: set<Address>, plain: bool,
                        nonceOf: Address -> nat, acc: Account, a: Address, f: Funds, local: bool, level: nat)
    requires LogOk(start, all, h, log, limit, locals, plain) && Forward(Reset(h, true), nonceOf) && f.nonce == h.nonceOf(a)
    ensures KeepsRun(acc, nonceOf(a), a, Reset(h, true), log, f, local, level)
    ensures Reinjected(acc, a, log) == acc
  {
    hide LogOk, Eligible, Reinjected, HitsExecuted;
    ForwardOffers(start, all, h, log, limit, locals, plain, nonceOf, acc.(next := f.nonce), a, |log|);
    ForwardOffers(start, all, h, log, limit, locals, plain, nonceOf, acc, a, |log|);
    assert log[..|log|] == log;
    NoGapUpwards(acc.(next := f.nonce), nonceOf(a), f);
  }

  lemma NoGapUpwards(acc: Account, before: nat, f: Funds)
    requires before <= f.nonce
    ensures !LeavesGap(acc, before, f)
  {
    hide Eligible;
    var e := Eligible(acc.queue, f);
    forall n | n in e ensures n >= f.nonce { EligibleIs(acc.queue, f, n); }
    ReadyRun(e, f.nonce);
  }

  /** Promotion drops nothing of the account. */
  ghost predicate Lossless(acc: Account, f: Funds, limit: Option<nat>) {
    var e := Eligible(acc.queue, f);
    e == acc.queue && (limit.Some? ==> Lowest(NotReady(e, acc.next), limit.value) == NotReady(e, acc.next))
  }

  /** An account when promotion starts: after the reset and the reinjection, if there are any. */
  ghost function Resumed(acc: Account, a: Address, req: Request, log: seq<Offering>, f: Funds): Account {
    if req.Reset? && req.taken then Reinjected(acc.(next := f.nonce), a, log) else acc
  }

  /** An account after promotion and, on a reset, demotion. */
  ghost function Rearranged(acc: Account, a: Address, req: Request, f: Funds, limit: Option<nat>): Account {
    match req
    case Promote(accounts) => if a in accounts then Promoted(acc, f, limit) else acc
    case Reset(_, _) => Demoted(Promoted(acc, f, limit), f)
  }

  /** An account after the first half of a reorganisation: reset and reinjection, promotion, demotion. */
  ghost function Reorganised(acc: Account, a: Address, req: Request, log: seq<Offering>, f: Funds, limit: Option<nat>): Account {
    Rearranged(Resumed(acc, a, req, log, f), a, req, f, limit)
  }

  /** The transactions a request gives back. */
  ghost function Given(req: Request): seq<Tx> {
    if req.Reset? && req.taken then req.head.reinject else []
  }

  /** The chain state the pool works with. */
  datatype State = State(nonceOf: Address -> nat, balanceOf: Address -> nat, maxGas: nat) {
    ghost function For(a: Address): Funds {
      Funds(nonceOf(a), balanceOf(a), maxGas)
    }
  }

  ghost function StateAfter(req: Request, state: State): State {
    if req.Reset? && req.taken then State(req.head.nonceOf, req.head.balanceOf, req.head.maxGas) else state
  }

  /** The queue limit that applies to an account: none for local ones. */
  ghost function LimitFor(a: Address, locals: set<Address>, accountQueue: nat): Option<nat> {
    if a in locals then None else Some(accountQueue)
  }

  /** Every account after the first half of a reorganisation. */
  ghost predicate AllReorganised(before: Snapshot, mid: Snapshot, req: Request, log: seq<Offering>, state: State, locals: set<Address>,
                                 accountQueue: nat) {
    forall a :: mid.View(a) == Reorganised(before.View(a), a, req, log, state.For(a), LimitFor(a, locals, accountQueue))
  }

  ghost predicate AllSound(s: Snapshot, state: State) {
    forall a :: Sound(s.View(a), state.For(a))
  }

  ghost predicate AllKeepRuns(before: Snapshot, prior: State, req: Request, log: seq<Offering>, state: State, locals: set<Address>, level: nat) {
    forall a :: KeepsRun(before.View(a), prior.nonceOf(a), a, req, log, state.For(a), a in locals, level)
  }

  /** After any reinjection no nonce of an account is both pending and queued. */
  ghost predicate AllSeparate(before: Snapshot, req: Request, log: seq<Offering>, state: State) {
    forall a :: Separate(Resumed(before.View(a), a, req, log, state.For(a)))
  }

  /** The promotion of a reorganisation drops nothing of any account. */
  ghost predicate QuietReorg(before: Snapshot, req: Request, log: seq<Offering>, state: State, locals: set<Address>, accountQueue: nat) {
    forall a :: Lossless(Resumed(before.View(a), a, req, log, state.For(a)), state.For(a), LimitFor(a, locals, accountQueue))
  }

  /** And after the second half: pending cut to the common level unless local, `q` queued ones kept, virtual nonce recomputed. */
  ghost function Limited(acc: Account, local: bool, level: nat, q: nat): Account {
    var cut := if local then acc else Cut(acc, level);
    Account(cut.pending, Lowest(cut.queue, q), PastOr(cut.pending, cut.next))
  }

  /**
   Whether a reorganisation keeps an account's pending run: always without a new head. With one, its
   reinjection must not evict a pending transaction the head has executed, and a gap below the old
   run must be cut off by the common level.
   */
  ghost predicate KeepsRun(acc: Account, before: nat, a: Address, req: Request, log: seq<Offering>, f: Funds, local: bool, level: nat) {
    req.Reset? && req.taken ==>
      var mid := Reinjected(acc.(next := f.nonce), a, log);
      && !EvictsExecuted(acc, f.nonce, a, log)
      && (LeavesGap(mid, before, f) ==> !local && level <= FirstRun(mid, f) - f.nonce)
  }

  lemma LimitedParts(d: Account, local: bool, level: nat, q: nat)
    requires level >= 1
    ensures var k := if local then |d.pending| + 1 else level;
            var x := Limited(d, local, level, q);
            && x.pending == Lowest(d.pending, k) && k >= 1
            && (d.pending == map[] <==> x.pending == map[]) && (d.pending == map[] ==> x.next == d.next)
            && (x.pending != map[] ==> x.next == PastOr(x.pending, d.next))
            && (forall n :: n in x.queue ==> n in d.queue && x.queue[n] == d.queue[n])
  {
    LowestAll(d.pending, |d.pending| + 1);
    if d.pending == map[] {
      CutEmpty(d, level);
    } else {
      LowestKeepsOne(d.pending, level);
    }
    var cut := if local then d else Cut(d, level);
    if cut.pending != map[] {
      PastOrSame(cut.pending, cut.next, d.next);
    }
  }

  lemma LowestKeepsOne(m: Txs, k: nat)
    requires m != map[] && k >= 1
    ensures Lowest(m, k) != map[]
  {
    assert m.Keys != {};
    var n := LowestNonceOf(m.Keys);
    assert (set x | x in m.Keys && x < n) == {};
    assert n in Lowest(m, k);
  }

  lemma PastOrSame(m: Txs, a: nat, b: nat)
    requires m != map[]
    ensures PastOr(m, a) == PastOr(m, b)
  {
    var x, y := PastOr(m, a), PastOr(m, b);
    assert x - 1 in m && y - 1 in m;
  }

  lemma CutEmpty(acc: Account, k: nat)
    requires Keyed(acc.pending)
    ensures acc.pending == map[] ==> Cut(acc, k).next == acc.next
  {
    FlatListing(acc.pending);
    ListingLength(Flat(acc.pending), acc.pending);
  }

  lemma LimitedAnchored(d: Account, state: nat, local: bool, level: nat, q: nat)
    requires Anchored(d, state) && level >= 1
    ensures Settled(Limited(d, local, level, q), state)
  {
    hide PastOr, Limited, Lowest;
    LimitedParts(d, local, level, q);
    var k := if local then |d.pending| + 1 else level;
    var x := Limited(d, local, level, q);
    var y := d.(pending := Lowest(d.pending, k));
    CapAnchored(d, state, k, d.next);
    AnchoredSettles(y, state);
    assert Exactly(x.pending, state, y.(next := PastOr(y.pending, y.next)).next);
    PastOrEmpty(y);
  }

  lemma PastOrEmpty(acc: Account)
    ensures acc.pending == map[] ==> PastOr(acc.pending, acc.next) == acc.next
  {
  }

  lemma LimitedGap(d: Account, state: nat, past: nat, beyond: nat, local: bool, level: nat, q: nat)
    requires GapAt(d.pending, state, past, beyond) && level >= 1
    ensures Settled(Limited(d, local, level, q), state) <==> !local && level <= past - state
  {
    hide PastOr, Limited, Lowest;
    LimitedParts(d, local, level, q);
    var k := if local then |d.pending| + 1 else level;
    var x := Limited(d, local, level, q);
    LowestOfGap(d.pending, state, past, beyond, k);
    if local {
      GapSize(d.pending, state, past, beyond);
    }
    if k <= past - state {
      var hi :| state <= hi && Exactly(x.pending, state, hi);
      var y := Account(x.pending, x.queue, state);
      assert state in x.pending;
      AnchoredSettles(y, state);
      PastOrSame(x.pending, d.next, state);
    }
  }

  lemma GapSize(m: Txs, lo: nat, past: nat, beyond: nat)
    requires GapAt(m, lo, past, beyond)
    ensures |m| + 1 > past - lo
  {
    RankInFront(m, lo, past, past);
    var below := set x | x in m.Keys && x < past;
    SubsetSize(below, m.Keys);
  }

  /**
   Exactly when a reset leaves an account settled. After an eviction of an executed transaction the
   account has nothing pending and expects a nonce below the state nonce.
   */
  lemma ResetSettlesIff(acc: Account, before: nat, a: Address, log: seq<Offering>, f: Funds, limit: Option<nat>, local: bool, level: nat, q: nat)
    requires Settled(acc, before) && level >= 1 && Separate(Reinjected(acc.(next := f.nonce), a, log))
    ensures var mid := Reinjected(acc.(next := f.nonce), a, log);
            Settled(Limited(Demoted(Promoted(mid, f, limit), f), local, level, q), f.nonce) <==>
            !EvictsExecuted(acc, f.nonce, a, log) && (LeavesGap(mid, before, f) ==> !local && level <= FirstRun(mid, f) - f.nonce)
    ensures EvictsExecuted(acc, f.nonce, a, log) ==>
              var fin := Limited(Demoted(Promoted(Reinjected(acc.(next := f.nonce), a, log), f, limit), f), local, level, q);
              fin.pending == map[] && fin.next < f.nonce
  {
    hide Rebased, Promoted, Demoted, Limited, LeavesGap, FirstRun, Reinjected, HitsExecuted, Anchored;
    var start := acc.(next := f.nonce);
    var mid := Reinjected(start, a, log);
    RebasedStart(acc, before, f.nonce);
    RebasedReinjected(start, before, f.nonce, a, log);
    RebasedAnchors(mid, before, f, limit);
    var d := Demoted(Promoted(mid, f, limit), f);
    if mid.next < f.nonce {
      LimitedParts(d, local, level, q);
    } else if LeavesGap(mid, before, f) {
      LimitedGap(d, f.nonce, FirstRun(mid, f), before, local, level, q);
    } else {
      LimitedAnchored(d, f.nonce, local, level, q);
    }
  }

  /** After a reset everything pooled is payable, whatever the head. */
  lemma ResetPayable(acc: Account, f: Funds, limit: Option<nat>, local: bool, level: nat, q: nat)
    requires level >= 1
    ensures AllPayable(Limited(Demoted(Promoted(acc, f, limit), f), local, level, q), f)
  {
    hide Limited, Demoted, Eligible;
    var p := Promoted(acc, f, limit);
    forall n | n in p.queue ensures Payable(p.queue[n], f.balance, f.maxGas) { EligibleIs(acc.queue, f, n); }
    DemotePayable(p, f);
    LimitedPayable(Demoted(p, f), f, local, level, q);
  }

  lemma LimitedPayable(d: Account, f: Funds, local: bool, level: nat, q: nat)
    requires AllPayable(d, f) && level >= 1
    ensures AllPayable(Limited(d, local, level, q), f)
  {
    hide Limited;
    LimitedParts(d, local, level, q);
  }

  /** A sound account is sound after a reorganisation if and only if its run is kept. */
  lemma ReorgSoundIff(acc: Account, before: Funds, a: Address, req: Request, log: seq<Offering>, f: Funds, limit: Option<nat>, local: bool,
                      level: nat, q: nat)
    requires Sound(acc, before) && Separate(acc) && level >= 1
    requires if req.Reset? && req.taken then Separate(Reinjected(acc.(next := f.nonce), a, log)) else f == before
    ensures Sound(Limited(Reorganised(acc, a, req, log, f, limit), local, level, q), f) <==>
            KeepsRun(acc, before.nonce, a, req, log, f, local, level)
  {
    hide Promoted, Demoted, Limited, Reinjected, EvictsExecuted, LeavesGap, FirstRun, AllPayable, Settled;
    if req.Reset? && req.taken {
      ResetSettlesIff(acc, before.nonce, a, log, f, limit, local, level, q);
      ResetPayable(Reinjected(acc.(next := f.nonce), a, log), f, limit, local, level, q);
    } else {
      PromoteSound(acc, f, limit);
      DemoteSound(Promoted(acc, f, limit), f);
      var d := Reorganised(acc, a, req, log, f, limit);
      assert Sound(d, f);
      SettledIsAnchored(d, f.nonce);
      LimitedAnchored(d, f.nonce, local, level, q);
      LimitedPayable(d, f, local, level, q);
    }
  }

  /** The account's transaction at a nonce, pending or queued. */
  ghost function TxAt(acc: Account, n: nat): Option<Tx> {
    if n in acc.pending then Some(acc.pending[n]) else if n in acc.queue then Some(acc.queue[n]) else None
  }

  /** A queued transaction that promotion leaves behind and that is beyond the account's queue limit. */
  ghost predicate OverCap(acc: Account, f: Funds, limit: Option<nat>, n: nat) {
    limit.Some? && Rank(NotReady(Eligible(acc.queue, f), acc.next), n) >= limit.value
  }

  lemma PromotionKeeps(acc: Account, f: Funds, limit: Option<nat>, n: nat)
    requires Separate(acc) && TxAt(acc, n).Some?
    ensures var tx := TxAt(acc, n).value;
            TxAt(Promoted(acc, f, limit), n) == Some(tx) ||
            (TxAt(Promoted(acc, f, limit), n) == None && (n < f.nonce || !Payable(tx, f.balance, f.maxGas) || OverCap(acc, f, limit, n)))
    ensures Separate(Promoted(acc, f, limit))
  {
    hide Eligible, PastOr, Gapless, ReachesDownTo, Rank, Payable;
    PromoteSeparate(acc, f, limit);
    EligibleIs(acc.queue, f, n);
    var e := Eligible(acc.queue, f);
    assert n in e ==> n in Ready(e, acc.next) || n in NotReady(e, acc.next);
  }

  lemma DemotionKeeps(acc: Account, f: Funds, n: nat)
    requires Separate(acc) && TxAt(acc, n).Some?
    ensures var tx := TxAt(acc, n).value;
            TxAt(Demoted(acc, f), n) == Some(tx) || (TxAt(Demoted(acc, f), n) == None && (n < f.nonce || !Payable(tx, f.balance, f.maxGas)))
  {
    hide Payable;
    var recent := From(acc.pending, f.nonce);
    var r := Runnable(acc.pending, f);
    assert n in r ==> n in acc.pending && r[n] == acc.pending[n];
    assert n in recent && Payable(recent[n], f.balance, f.maxGas) ==> n in r || n in Stranded(recent, f.balance, f.maxGas);
    assert n in Unpayable(recent, f.balance, f.maxGas) ==> n in acc.pending && !Payable(acc.pending[n], f.balance, f.maxGas);
  }

  lemma LimitsKeep(acc: Account, local: bool, level: nat, q: nat, n: nat)
    requires level >= 1 && TxAt(acc, n).Some? && Separate(acc)
    ensures var tx := TxAt(acc, n).value;
            TxAt(Limited(acc, local, level, q), n) == Some(tx) ||
            (TxAt(Limited(acc, local, level, q), n) == None && ((!local && Rank(acc.pending, n) >= level) || Rank(acc.queue, n) >= q))
  {
    hide Rank, PastOr, CutNext;
  }

  /**
   A transaction that is pooled when the offers of a reset are done leaves in the rest of the
   reorganisation only when it is below the state nonce, unpayable, beyond its account's queue limit,
   above the common level or cut off by the total queue limit.
   */
  lemma LeavesForReason(mid: Account, f: Funds, limit: Option<nat>, local: bool, level: nat, q: nat, n: nat)
    requires Separate(mid) && level >= 1 && TxAt(mid, n).Some?
    ensures var tx := TxAt(mid, n).value;
            var p := Promoted(mid, f, limit);
            var d := Demoted(p, f);
            var fin := Limited(d, local, level, q);
            TxAt(fin, n) == Some(tx) ||
            (TxAt(fin, n) == None &&
             (n < f.nonce || !Payable(tx, f.balance, f.maxGas) || OverCap(mid, f, limit, n) ||
              (!local && Rank(d.pending, n) >= level) || Rank(d.queue, n) >= q))
  {
    hide Promoted, Demoted, Limited, OverCap, Rank, Payable, Separate, TxAt;
    var p := Promoted(mid, f, limit);
    var d := Demoted(p, f);
    PromotionKeeps(mid, f, limit, n);
    if TxAt(p, n).Some? {
      DemotionKeeps(p, f, n);
      DemotedSeparate(p, f);
      if TxAt(d, n).Some? {
        LimitsKeep(d, local, level, q, n);
      } else {
        LimitedAddsNothing(d, local, level, q, n);
      }
    } else {
      DemotedAddsNothing(p, f, n);
      LimitedAddsNothing(d, local, level, q, n);
    }
  }

  lemma DemotedSeparate(acc: Account, f: Funds)
    requires Separate(acc)
    ensures Separate(Demoted(acc, f))
  {
  }

  lemma DemotedAddsNothing(acc: Account, f: Funds, n: nat)
    ensures TxAt(acc, n) == None ==> TxAt(Demoted(acc, f), n) == None
  {
  }

  lemma LimitedAddsNothing(acc: Account, local: bool, level: nat, q: nat, n: nat)
    ensures TxAt(acc, n) == None ==> TxAt(Limited(acc, local, level, q), n) == None
  {
    hide PastOr, CutNext, Rank;
  }

  /** No live entry occurs twice. */
  ghost predicate Undoubled(entries: multiset<Tx>, remotes: map<Hash, Tx>) {
    forall tx :: tx in entries && PricedList.Live(tx, remotes) ==> entries[tx] == 1
  }

  ghost predicate DistinctHashes(s: seq<Tx>) {
    forall i, j :: 0 <= i < j < |s| ==> s[i].hash != s[j].hash
  }

  lemma {:induction false} SlotsWithout(all: map<Hash, Tx>, drop: seq<Tx>)
    requires DistinctHashes(drop) && forall i :: 0 <= i < |drop| ==> drop[i].hash in all && all[drop[i].hash] == drop[i]
    ensures SlotSum(all - HashesOf(drop)) == SlotSum(all) - PricedList.SlotsOf(drop)
  {
    if drop == [] {
      assert all - HashesOf(drop) == all;
    } else {
      var k := |drop| - 1;
      var front := drop[..k];
      SlotsWithout(all, front);
      HashesPrefix(drop, k);
      assert drop[..k + 1] == drop;
      var less := all - HashesOf(front);
      assert all - HashesOf(drop) == less - {drop[k].hash};
      assert drop[k].hash in less;
      assert Weights(less - {drop[k].hash}) == Weights(less) - {drop[k].hash};
      Sums.SumWithout(Weights(less), drop[k].hash);
    }
  }

  /** The slots that the transactions with the given hashes use. */
  ghost function SlotsAt(all: map<Hash, Tx>, gone: set<Hash>): int {
    SlotSum(Only(all, gone))
  }

  ghost function Only(all: map<Hash, Tx>, some: set<Hash>): map<Hash, Tx> {
    map h | h in all && h in some :: all[h]
  }

  lemma {:induction false} SlotsSplit(all: map<Hash, Tx>, gone: set<Hash>)
    ensures SlotSum(all) == SlotSum(all - gone) + SlotsAt(all, gone) && SlotsAt(all, gone) >= 0
    decreases |gone|
  {
    if h :| h in gone {
      var rest := gone - {h};
      SlotsSplit(all, rest);
      var kept, at := all - rest, Only(all, rest);
      if h in all {
        assert h in kept && kept[h] == all[h] && h !in at;
        assert all - gone == kept - {h} && Weights(kept - {h}) == Weights(kept) - {h};
        Sums.SumWithout(Weights(kept), h);
        assert Only(all, gone) == at[h := all[h]];
        assert Weights(at[h := all[h]]) == Weights(at)[h := all[h].Slots()];
        Sums.SumUpdate(Weights(at), h, all[h].Slots());
        assert Weights(kept)[h] == all[h].Slots() && h !in Weights(at);
      } else {
        assert all - gone == kept && Only(all, gone) == at;
      }
    } else {
      assert all - gone == all;
      assert Weights(Only(all, gone)) == map[];
    }
  }

  /** The hashes of the transactions that an offer pushes out or replaces. */
  ghost function Leaving(acc: Account, o: Offering): set<Hash> {
    if o.Reached() then HashesOf(o.evicted) + OfferReplaces(EvictedFrom(acc, o.tx.from, o.evicted), o.tx) else {}
  }

  /** An offer changes the slots in use by what enters minus what leaves, each counted once. */
  lemma SlotsAfter(all: map<Hash, Tx>, acc: Account, o: Offering)
    requires o.tx.hash !in all
    ensures SlotSum(LookupAfter(all, acc, o)) == SlotSum(all) - SlotsAt(all, Leaving(acc, o)) + (if o.outcome.Accepted? then o.tx.Slots() else 0)
    ensures SlotsAt(all, Leaving(acc, o)) >= 0
  {
    hide SlotSum, SlotsAt, HashesOf, OfferReplaces, EvictedFrom;
    var gone := Leaving(acc, o);
    SlotsSplit(all, gone);
    var kept := all - gone;
    assert LookupAfter(all, acc, o) == if o.outcome.Accepted? then kept[o.tx.hash := o.tx] else kept;
    SlotsWith(kept, o.tx);
  }

  lemma SlotsWith(all: map<Hash, Tx>, tx: Tx)
    requires tx.hash !in all
    ensures SlotSum(all[tx.hash := tx]) == SlotSum(all) + tx.Slots()
  {
    assert Weights(all[tx.hash := tx]) == Weights(all)[tx.hash := tx.Slots()];
    Sums.SumUpdate(Weights(all), tx.hash, tx.Slots());
  }

  /** What an offer comes to when nothing needs to be evicted for it. */
  ghost function Foreseen(all: map<Hash, Tx>, acc: Account, tx: Tx, f: Funds): Offering {
    Offering(tx, if tx.hash in all then AlreadyKnown else if !Admissible(tx, f) then Invalid else OfferOutcome(acc, tx), [])
  }

  /** The log of the first `k` offers of a reset, worked out from the pool and the head alone. */
  ghost function ForeseenLog(start: Snapshot, all: map<Hash, Tx>, h: Head, k: nat): (log: seq<Offering>)
    requires k <= |h.reinject|
    ensures |log| == k
  {
    if k == 0 then []
    else
      var front, tx := ForeseenLog(start, all, h, k - 1), h.reinject[k - 1];
      front + [Foreseen(LookupAt(start, all, front), Reinjected(start.View(tx.from), tx.from, front), tx,
                        Funds(h.nonceOf(tx.from), h.balanceOf(tx.from), h.maxGas))]
  }

  /** With room for everything the head gives back, the log is the one worked out beforehand. */
  lemma {:induction false} RoomForeseen(start: Snapshot, all: map<Hash, Tx>, h: Head, log: seq<Offering>, limit: nat, locals: set<Address>,
                                        plain: bool, k: nat)
    requires LogOk(start, all, h, log, limit, locals, plain) && SlotSum(all) + PricedList.SlotsOf(h.reinject) <= limit && k <= |log|
    ensures log[..k] == ForeseenLog(start, all, h, k)
    ensures SlotSum(LookupAt(start, all, log[..k])) <= SlotSum(all) + PricedList.SlotsOf(h.reinject[..k])
  {
    hide LookupAt, LookupAfter, Reinjected, SlotSum, PricedList.SlotsOf, OfferingOk, Foreseen, Snapshot.View, LogOk;
    if k == 0 {
      assert LookupAt(start, all, []) == all by { LookupNone(start, all); }
      assert PricedList.SlotsOf([]) == 0 by { NoSlots(); }
    } else {
      var i := k - 1;
      RoomForeseen(start, all, h, log, limit, locals, plain, i);
      LogAt(start, all, h, log, limit, locals, plain, i);
      SlotsOfFront(h.reinject, i);
      var o := log[i];
      var seen, acc := LookupAt(start, all, log[..i]), Reinjected(start.View(o.tx.from), o.tx.from, log[..i]);
      RoomForeseenStep(seen, acc, o, Funds(h.nonceOf(o.tx.from), h.balanceOf(o.tx.from), h.maxGas), limit, o.tx.from in locals, plain);
      assert log[..k] == log[..i] + [o];
      assert (log[..k])[..i] == log[..i];
      LookupNext(start, all, log[..k]);
    }
  }

  lemma LookupNone(start: Snapshot, all: map<Hash, Tx>)
    ensures LookupAt(start, all, []) == all
  {
  }

  lemma NoSlots()
    ensures PricedList.SlotsOf([]) == 0
  {
  }

  lemma LogAt(start: Snapshot, all: map<Hash, Tx>, h: Head, log: seq<Offering>, limit: nat, locals: set<Address>, plain: bool, i: nat)
    requires LogOk(start, all, h, log, limit, locals, plain) && i < |log|
    ensures i < |h.reinject| && log[i].tx == h.reinject[i] && LoggedOk(start, all, h, log, limit, locals, plain, i)
  {
    hide OfferingOk, LookupAt, Reinjected;
    assert LoggedOk(start, all, h, log, limit, locals, plain, i);
  }

  lemma {:induction false} SlotsOfFront(txs: seq<Tx>, i: nat)
    requires i < |txs|
    ensures PricedList.SlotsOf(txs[..i + 1]) == PricedList.SlotsOf(txs[..i]) + txs[i].Slots() <= PricedList.SlotsOf(txs)
    decreases |txs| - i
  {
    hide Tx.Slots;
    assert txs[..i + 1][..i] == txs[..i];
    if i + 1 < |txs| {
      SlotsOfFront(txs, i + 1);
    } else {
      assert txs[..i + 1] == txs;
    }
  }

  lemma NoneEvicted(acc: Account, a: Address, drop: seq<Tx>)
    ensures EvictedFrom(acc, a, drop[..0]) == acc && EvictedFrom(acc, a, []) == acc
  {
  }

  lemma RoomForeseenStep(all: map<Hash, Tx>, acc: Account, o: Offering, f: Funds, limit: nat, local: bool, plain: bool)
    requires OfferingOk(all, acc, o, f, limit, local, plain) && SlotSum(all) + o.tx.Slots() <= limit
    ensures o == Foreseen(all, acc, o.tx, f)
    ensures SlotSum(LookupAfter(all, acc, o)) <= SlotSum(all) + o.tx.Slots()
  {
    hide SlotSum, Admissible, OfferOutcome, LookupAfter, Tx.Slots, Leaving, SlotsAt, EvictedFrom;
    assert EvictedFrom(acc, o.tx.from, []) == acc by { NoneEvicted(acc, o.tx.from, []); }
    if o.Reached() {
      SlotsAfter(all, acc, o);
    } else {
      NotLookedUp(all, acc, o);
    }
  }

  lemma NotLookedUp(all: map<Hash, Tx>, acc: Account, o: Offering)
    ensures !o.Reached() ==> LookupAfter(all, acc, o) == all
  {
  }

  /**
   With room for everything the head gives back, no executed transaction is evicted, and whether an account's
   run is kept is decided by the pool, the head and the common level.
   */
  lemma RoomKeepsRun(start: Snapshot, all: map<Hash, Tx>, h: Head, log: seq<Offering>, limit: nat, locals: set<Address>, plain: bool,
                     acc: Account, before: nat, a: Address, f: Funds, local: bool, level: nat)
    requires LogOk(start, all, h, log, limit, locals, plain) && |log| == |h.reinject|
    requires SlotSum(all) + PricedList.SlotsOf(h.reinject) <= limit
    ensures !EvictsExecuted(acc, f.nonce, a, log)
    ensures var mid := Reinjected(acc.(next := f.nonce), a, ForeseenLog(start, all, h, |h.reinject|));
            KeepsRun(acc, before, a, Reset(h, true), log, f, local, level) <==> (LeavesGap(mid, before, f) ==> !local && level <= FirstRun(mid, f) - f.nonce)
  {
    hide LogOk, SlotSum, PricedList.SlotsOf, LeavesGap, FirstRun, Reinjected, LookupAt, Foreseen;
    RoomForeseen(start, all, h, log, limit, locals, plain, |log|);
    assert log[..|log|] == log;
    forall i | 0 <= i < |log| ensures log[i].evicted == [] { ForeseenQuiet(start, all, h, |log|, i); }
  }

  lemma {:induction false} ForeseenQuiet(start: Snapshot, all: map<Hash, Tx>, h: Head, k: nat, i: nat)
    requires i < k <= |h.reinject|
    ensures ForeseenLog(start, all, h, k)[i].evicted == []
  {
    hide LookupAt, Reinjected, OfferOutcome, Admissible;
    if i < k - 1 {
      ForeseenQuiet(start, all, h, k - 1, i);
    }
  }

  lemma SlotsExchange(all: map<Hash, Tx>, replaced: set<Hash>, tx: Tx)
    requires tx.hash !in all && |replaced| <= 1
    ensures SlotSum(Exchange(all, replaced, tx, true)) <= SlotSum(all) + tx.Slots()
  {
    var less := all - replaced;
    assert SlotSum(less) <= SlotSum(all) by {
      if h :| h in replaced && h in all {
        assert replaced == {h} by { SingletonIs(replaced, h); }
        assert Weights(less) == Weights(all) - {h};
        Sums.SumWithout(Weights(all), h);
      } else {
        assert less == all;
      }
    }
    assert Weights(less[tx.hash := tx]) == Weights(less)[tx.hash := tx.Slots()];
    Sums.SumUpdate(Weights(less), tx.hash, tx.Slots());
  }

  lemma SingletonIs(s: set<Hash>, h: Hash)
    requires |s| <= 1 && h in s
    ensures s == {h}
  {
    assert |s - {h}| == 0;
  }

  /** The pool's stock: what is known, the slots in use, the eviction list, and what was ever entered as remote or as local. */
  datatype Stock = Stock(all: map<Hash, Tx>, slots: int, tally: PricedList.Tally, entered: multiset<Tx>, localTxs: set<Hash>)

  /**
   The stock after an offer that comes as `local` or from a local account (`known`). A remote one that
   is accepted is entered. Without local transactions and replacement the eviction list gains that entry
   and loses the evicted ones, stale ones aside, and exactly that when there was room. An accepted offer
   fits if and only if what leaves makes up for the surplus; a remote one always fits when no live entry
   was doubled.
   */
  ghost predicate StockAdded(before: Stock, after: Stock, remotes: map<Hash, Tx>, acc: Account, o: Offering, limit: nat, local: bool, known: bool) {
    var enters := o.outcome.Accepted? && !local && !known;
    var surplus := before.slots - limit + o.tx.Slots();
    && after.entered == before.entered + One(o.tx, enters)
    && (!local ==> after.localTxs <= before.localTxs + (if known then {o.tx.hash} else {}))
    && (!local && !known ==> after.localTxs == before.localTxs)
    && (o.outcome != Accepted(true) && !local ==>
          && (surplus <= 0 ==> after.tally == before.tally.With(o.tx, enters))
          && PricedList.KeepsLive(before.tally.entries + One(o.tx, enters), after.tally.entries + multiset(o.evicted), remotes))
    && (o.outcome.Accepted? ==> (after.slots <= limit <==> surplus <= SlotsAt(before.all, Leaving(acc, o))))
    && after.slots <= before.slots + o.tx.Slots()
    && (!local && !known && Undoubled(before.tally.entries, remotes) && (o.outcome.Accepted? || before.slots <= limit) ==> after.slots <= limit)
  }

  /** An offer that is refused at the door changes nothing. */
  lemma NothingAdded(stock: Stock, remotes: map<Hash, Tx>, acc: Account, o: Offering, limit: nat, local: bool, known: bool)
    requires !o.Reached() && o.evicted == []
    ensures StockAdded(stock, stock, remotes, acc, o, limit, local, known)
    ensures (forall b, a :: AfterOffer(b, a, o) == b) && LookupAfter(stock.all, acc, o) == stock.all
  {
    hide Undoubled, SlotsAt;
    assert stock.entered + One(o.tx, false) == stock.entered;
    assert stock.tally.entries + One(o.tx, false) == stock.tally.entries + multiset(o.evicted);
  }

  /** The stock after one remote offer. */
  ghost predicate StockOffered(before: Stock, after: Stock, o: Offering, limit: nat, locals: set<Address>) {
    var enters := o.outcome.Accepted? && o.tx.from !in locals;
    && after.entered == before.entered + One(o.tx, enters)
    && after.slots <= before.slots + o.tx.Slots() && |after.all| <= |before.all| + 1
    && (before.slots + o.tx.Slots() <= limit ==>
          o.evicted == [] && (o.outcome != Accepted(true) ==> after.tally == before.tally.With(o.tx, enters)))
    && (locals == {} && Single(after.entered) && before.slots <= limit ==> after.slots <= limit)
    && after.localTxs <= before.localTxs + (if o.tx.from in locals then {o.tx.hash} else {})
  }

  ghost function LocalOnes(txs: seq<Tx>, locals: set<Address>): set<Hash> {
    set i | 0 <= i < |txs| && txs[i].from in locals :: txs[i].hash
  }

  /**
   The stock after `txs` were offered with the given log and some transactions were dropped. What was
   entered is counted exactly. If there is room for all, nothing is evicted; if besides nothing is
   replaced and the rest was `quiet`, the eviction list has exactly the entered ones more. Without local
   accounts and without a transaction entered twice the slots stay within the limit.
   */
  ghost predicate StockLogged(before: Stock, after: Stock, txs: seq<Tx>, log: seq<Offering>, limit: nat, locals: set<Address>, quiet: bool) {
    && after.entered == before.entered + Entering(log, locals) && Entering(log, locals) <= multiset(txs)
    && after.slots <= before.slots + PricedList.SlotsOf(txs) && |after.all| <= |before.all| + |txs|
    && (before.slots + PricedList.SlotsOf(txs) <= limit ==>
          && (forall i :: 0 <= i < |log| ==> log[i].evicted == [])
          && (quiet && NoneReplaced(log) ==> after.tally == before.tally.WithMany(Entering(log, locals))))
    && (locals == {} && Single(before.entered + multiset(txs)) && before.slots <= limit ==> after.slots <= limit)
    && after.localTxs <= before.localTxs + LocalOnes(txs, locals)
  }

  ghost predicate NoneReplaced(log: seq<Offering>) {
    forall i :: 0 <= i < |log| ==> log[i].outcome != Accepted(true)
  }

  lemma StockStart(stock: Stock, limit: nat, locals: set<Address>, quiet: bool)
    ensures StockLogged(stock, stock, [], [], limit, locals, quiet)
  {
  }

  lemma StockNext(start: Stock, before: Stock, after: Stock, txs: seq<Tx>, log: seq<Offering>, o: Offering, limit: nat, locals: set<Address>)
    requires StockLogged(start, before, txs, log, limit, locals, true) && StockOffered(before, after, o, limit, locals)
    ensures StockLogged(start, after, txs + [o.tx], log + [o], limit, locals, true)
  {
    hide PricedList.SlotsOf, Entering, Single, LocalOnes, NoneReplaced;
    EnteringNext(log, o, locals);
    MoreOffered(txs, o.tx, locals);
    MoreLogged(log, o);
    assert multiset(txs + [o.tx]) == multiset(txs) + multiset{o.tx};
    SingleParts(start.entered, multiset(txs + [o.tx]), multiset(txs), after.entered);
  }

  lemma MoreOffered(txs: seq<Tx>, tx: Tx, locals: set<Address>)
    ensures PricedList.SlotsOf(txs + [tx]) == PricedList.SlotsOf(txs) + tx.Slots()
    ensures LocalOnes(txs, locals) + (if tx.from in locals then {tx.hash} else {}) <= LocalOnes(txs + [tx], locals)
  {
    var more := txs + [tx];
    assert more[..|txs|] == txs;
    forall h | h in LocalOnes(txs, locals) ensures h in LocalOnes(more, locals) {
      var i :| 0 <= i < |txs| && txs[i].from in locals && txs[i].hash == h;
      assert more[i] == txs[i];
    }
    if tx.from in locals { assert more[|txs|] == tx; }
  }

  lemma MoreLogged(log: seq<Offering>, o: Offering)
    ensures NoneReplaced(log + [o]) <==> NoneReplaced(log) && o.outcome != Accepted(true)
    ensures (forall i :: 0 <= i < |log| ==> log[i].evicted == []) && o.evicted == [] ==>
              forall i :: 0 <= i < |log + [o]| ==> (log + [o])[i].evicted == []
  {
    var more := log + [o];
    assert forall i :: 0 <= i < |log| ==> more[i] == log[i];
    assert more[|log|] == o;
  }

  lemma SingleParts(entered: multiset<Tx>, all: multiset<Tx>, some: multiset<Tx>, now: multiset<Tx>)
    requires some <= all
    ensures Single(entered + all) ==> Single(entered + some) && (now <= entered + all ==> Single(now))
  {
    if Single(entered + all) {
      forall tx: Tx ensures (entered + some)[tx] <= 1 && (now <= entered + all ==> now[tx] <= 1) {
        assert (entered + all)[tx] <= 1;
      }
    }
  }

  /** Transactions only leave. */
  ghost predicate StockShrunk(before: Stock, after: Stock, quiet: bool) {
    && after.entered == before.entered && after.localTxs == before.localTxs
    && after.slots <= before.slots && |after.all| <= |before.all|
    && (quiet ==> after.tally == before.tally)
  }

  lemma StockThen(start: Stock, before: Stock, after: Stock, txs: seq<Tx>, log: seq<Offering>, limit: nat, locals: set<Address>, quiet: bool,
                  more: bool, both: bool)
    requires StockLogged(start, before, txs, log, limit, locals, quiet) && StockShrunk(before, after, more)
    requires both && start.slots + PricedList.SlotsOf(txs) <= limit && NoneReplaced(log) ==> quiet && more
    ensures StockLogged(start, after, txs, log, limit, locals, both)
  {
    hide PricedList.SlotsOf, Entering, Single, LocalOnes, NoneReplaced;
  }

  /** `now` has nothing at a nonce but what `acc` has there. */
  ghost predicate OnlyFrom(now: Account, acc: Account) {
    forall n :: TxAt(now, n).Some? ==> TxAt(now, n) == TxAt(acc, n)
  }

  lemma ReorganisedOnly(acc: Account, f: Funds, limit: Option<nat>)
    requires Separate(acc)
    ensures OnlyFrom(Promoted(acc, f, limit), acc) && OnlyFrom(Demoted(Promoted(acc, f, limit), f), acc)
    ensures Separate(Promoted(acc, f, limit)) && Separate(Demoted(Promoted(acc, f, limit), f))
  {
    hide Promoted, Demoted, TxAt, Separate;
    var p := Promoted(acc, f, limit);
    PromoteSeparate(acc, f, limit);
    DemotedSeparate(p, f);
    forall n: nat ensures TxAt(p, n).Some? ==> TxAt(p, n) == TxAt(acc, n) {
      if TxAt(acc, n).Some? { PromotionKeeps(acc, f, limit, n); } else { PromotedAddsNothing(acc, f, limit, n); }
    }
    forall n: nat ensures TxAt(Demoted(p, f), n).Some? ==> TxAt(Demoted(p, f), n) == TxAt(acc, n) {
      if TxAt(p, n).Some? { DemotionKeeps(p, f, n); } else { DemotedAddsNothing(p, f, n); }
    }
  }

  lemma RearrangedOnly(acc: Account, a: Address, req: Request, f: Funds, limit: Option<nat>)
    requires Separate(acc)
    ensures OnlyFrom(Rearranged(acc, a, req, f, limit), acc)
  {
    hide Promoted, Demoted;
    ReorganisedOnly(acc, f, limit);
  }

  /** More entries with no more stale ones stay calm. */
  lemma CalmStays(before: Stock, after: Stock, txs: seq<Tx>, log: seq<Offering>, limit: nat, locals: set<Address>)
    requires StockLogged(before, after, txs, log, limit, locals, true)
    ensures before.tally.Calm() && before.slots + PricedList.SlotsOf(txs) <= limit && NoneReplaced(log) ==> after.tally.Calm()
  {
    hide PricedList.SlotsOf, Entering, Single, LocalOnes, NoneReplaced;
  }

  lemma PromotedAddsNothing(acc: Account, f: Funds, limit: Option<nat>, n: nat)
    ensures TxAt(acc, n) == None ==> TxAt(Promoted(acc, f, limit), n) == None
  {
    hide PastOr, Gapless, ReachesDownTo, Rank, Eligible;
    EligibleIs(acc.queue, f, n);
  }

  lemma LimitedOnly(acc: Account, local: bool, level: nat, q: nat)
    requires Separate(acc) && level >= 1
    ensures OnlyFrom(Limited(acc, local, level, q), acc)
  {
    hide Limited, TxAt, Separate;
    forall n: nat ensures TxAt(Limited(acc, local, level, q), n).Some? ==> TxAt(Limited(acc, local, level, q), n) == TxAt(acc, n) {
      if TxAt(acc, n).Some? { LimitsKeep(acc, local, level, q, n); } else { LimitedAddsNothing(acc, local, level, q, n); }
    }
  }

  /** When every account has only what it had, so has the lookup. */
  lemma LookupShrinks(before: Snapshot, all: map<Hash, Tx>, now: Snapshot, all': map<Hash, Tx>)
    requires Partition(before.pending, before.queue, all) && Partition(now.pending, now.queue, all')
    requires forall a :: OnlyFrom(now.View(a), before.View(a))
    ensures (forall h :: h in all' ==> h in all && all[h] == all'[h]) && |all'| <= |all| && SlotSum(all') <= SlotSum(all)
  {
    hide Partition, OnlyFrom, SlotSum;
    forall h | h in all' ensures h in all && all[h] == all'[h] {
      StillKnown(before, all, now, all', h);
    }
    SubmapSize(all, all');
  }

  lemma SubmapSize(all: map<Hash, Tx>, all': map<Hash, Tx>)
    requires forall h :: h in all' ==> h in all && all[h] == all'[h]
    ensures |all'| <= |all| && SlotSum(all') <= SlotSum(all)
  {
    hide SlotSum, SlotsAt;
    SubmapCount(all, all');
    SubmapIs(all, all');
    SlotsSplit(all, all.Keys - all'.Keys);
  }

  lemma SubmapIs(all: map<Hash, Tx>, all': map<Hash, Tx>)
    requires forall h :: h in all' ==> h in all && all[h] == all'[h]
    ensures all - (all.Keys - all'.Keys) == all'
  {
  }

  lemma SubmapCount(all: map<Hash, Tx>, all': map<Hash, Tx>)
    requires forall h :: h in all' ==> h in all
    ensures |all'| <= |all|
  {
    assert all'.Keys <= all.Keys;
    SubsetSize(all'.Keys, all.Keys);
  }

  lemma StillKnown(before: Snapshot, all: map<Hash, Tx>, now: Snapshot, all': map<Hash, Tx>, h: Hash)
    requires Partition(before.pending, before.queue, all) && Partition(now.pending, now.queue, all') && h in all'
    requires forall a :: OnlyFrom(now.View(a), before.View(a))
    ensures h in all && all[h] == all'[h]
  {
    hide OwnList;
    var tx := all'[h];
    assert Holds(now.pending, tx) || Holds(now.queue, tx);
    assert TxAt(now.View(tx.from), tx.nonce) == Some(tx);
    assert OnlyFrom(now.View(tx.from), before.View(tx.from));
    assert TxAt(before.View(tx.from), tx.nonce) == Some(tx);
    HeldAt(before, tx);
  }

  lemma HeldAt(s: Snapshot, tx: Tx)
    ensures TxAt(s.View(tx.from), tx.nonce) == Some(tx) ==> Holds(s.pending, tx) || Holds(s.queue, tx)
  {
  }

  /** A book has no more transactions than the lookup. */
  lemma {:induction false} TotalAtMost(p: Book, strict: bool, all: map<Hash, Tx>)
    requires BookOk(p, strict) && AllKnown(p, all)
    ensures Total(p) <= |all|
    decreases |p|
  {
    hide BookOk, AllKnown;
    if p == map[] {
      assert Lens(p) == map[];
    } else {
      var a :| a in p;
      var rest, gone := p - {a}, HashesIn(p[a].txs);
      assert Lens(p) - {a} == Lens(rest);
      Sums.SumWithout(Lens(p), a);
      WithoutAccount(p, strict, all, a);
      TotalAtMost(rest, strict, all - gone);
      assert (all - gone).Keys == all.Keys - gone;
    }
  }

  ghost predicate AllKnown(p: Book, all: map<Hash, Tx>) {
    forall tx: Tx :: Holds(p, tx) ==> tx.hash in all && all[tx.hash] == tx
  }

  lemma WithoutAccount(p: Book, strict: bool, all: map<Hash, Tx>, a: Address)
    requires BookOk(p, strict) && AllKnown(p, all) && a in p
    ensures var gone := HashesIn(p[a].txs);
            gone <= all.Keys && |gone| == |p[a].txs| && BookOk(p - {a}, strict) && AllKnown(p - {a}, all - gone)
  {
    var m := p[a].txs;
    var gone := HashesIn(m);
    forall n | n in m ensures m[n].from == a && m[n].nonce == n && m[n].hash in all && all[m[n].hash] == m[n] {
      assert Holds(p, m[n]);
    }
    HashCount(m);
    forall tx: Tx | Holds(p - {a}, tx) ensures tx.hash in all - gone && (all - gone)[tx.hash] == tx {
      assert Holds(p, tx) && tx.from != a;
      forall n | n in m ensures m[n].hash != tx.hash { assert all[m[n].hash].from == a; }
    }
  }

  ghost function HashesIn(m: Txs): set<Hash> {
    set n | n in m :: m[n].hash
  }

  lemma {:induction false} HashCount(m: Txs)
    requires forall n, k :: n in m && k in m && m[n].hash == m[k].hash ==> n == k
    ensures |HashesIn(m)| == |m|
    decreases |m|
  {
    if m != map[] {
      var n :| n in m;
      var rest := m - {n};
      HashCount(rest);
      forall h ensures h in HashesIn(m) <==> h in HashesIn(rest) || h == m[n].hash {
        if k :| k in m && m[k].hash == h { assert k == n || rest[k].hash == h; }
        if k :| k in rest && rest[k].hash == h { assert m[k].hash == h; }
      }
      assert HashesIn(m) == HashesIn(rest) + {m[n].hash};
      assert m[n].hash !in HashesIn(rest);
    }
  }
}
