/**
 Runs of the pool that end where one would not expect: a head that lowers a nonce leaves a gap, a
 reinjection evicts what the head has executed, and a doubled entry overfills the pool.
 */
module PoolExamples {
  import opened Common
  import opened Transactions
  import opened AccountLists
  import opened PoolState
  import opened PoolAccounts
  import opened PoolFairness
  import opened PoolOffers
  import opened Pool
  import PricedList
  import Sums

  /** A transaction as simple as can be: one unit of gas at price one. */
  function Plain(hash: Hash, from: Address, nonce: nat, value: nat, size: nat): Tx {
    Tx(hash, from, nonce, 1, 1, value, size, false, true)
  }

  lemma PlainIs(tx: Tx, value: nat)
    requires tx == Plain(tx.hash, tx.from, tx.nonce, value, tx.size)
    ensures Payable(tx, 100, 100) <==> value <= 99
    ensures forall n: nat :: Admissible(tx, Funds(n, 100, 100)) <==> n <= tx.nonce && value <= 99
  {
  }

  lemma SlotsOfSize(tx: Tx)
    ensures tx.size == 100 ==> tx.Slots() == 1
    ensures tx.size == 40000 ==> tx.Slots() == 2
    ensures tx.size == 70000 ==> tx.Slots() == 3
  {
  }

  /** Enters a transaction that fits into the pool and does not replace another one. */
  method Enter(pool: TxPool, tx: Tx)
    requires pool.Valid() && pool.evicting == {} && pool.meaning(tx.hash) == tx
    requires tx.hash !in pool.all.All() && pool.Validates(tx) && pool.Surplus(pool.all.slots, tx) <= 0
    requires tx.nonce !in pool.Acc(tx.from).pending && tx.nonce !in pool.Acc(tx.from).queue
    modifies pool, pool.priced
    ensures pool.Valid() && pool.evicting == {} && pool.locals == old(pool.locals) && pool.StateOf() == old(pool.StateOf())
    ensures pool.localTxs <= old(pool.localTxs) + (if tx.from in pool.locals then {tx.hash} else {})
    ensures old(pool.SoundPool()) ==> pool.SoundPool()
    ensures pool.all.All() == old(pool.all.All())[tx.hash := tx] && pool.all.slots == SlotSum(pool.all.All())
    ensures pool.Acc(tx.from) == old(pool.Acc(tx.from)).(queue := old(pool.Acc(tx.from)).queue[tx.nonce := tx])
    ensures forall a :: a != tx.from ==> pool.Acc(a) == old(pool.Acc(a))
    ensures pool.priced.View() == old(pool.priced.View()).With(tx, tx.from !in pool.locals)
  {
    hide TxPool.Valid, Partition, Covered, PricedList.SlotsOf, PricedList.LiveSlots, PricedList.KeepsLive, At, Lookup.All, Lookup.Ok, Evictions, Offered,
      OfferReplaces, EvictedFrom, Admissible, SlotSum, SlotsAt, Leaving, Undoubled, LookupAfter, OfferOutcome;
    ghost var acc, l, entries := pool.Acc(tx.from), pool.all, pool.priced.Entries();
    var r;
    ghost var evicted;
    r, evicted := pool.Add(tx, false);
    NoneNeeded(evicted, l.remotes, entries, pool.Surplus(l.slots, tx));
    forall a: Address ensures EvictedFrom(old(pool.Acc(a)), a, []) == old(pool.Acc(a)) { NoneEvicted(old(pool.Acc(a)), a, []); }
    OfferedNew(l.All(), acc, tx);
    pool.ValidParts();
    SlotsAre(pool.all);
  }

  lemma NoneNeeded(drop: seq<Tx>, remotes: map<Hash, Tx>, entries: multiset<Tx>, need: int)
    requires Evictions(drop, remotes, entries, need) && need <= 0
    ensures drop == []
  {
  }

  lemma OfferedNew(all: map<Hash, Tx>, acc: Account, tx: Tx)
    requires tx.nonce !in acc.pending && tx.nonce !in acc.queue
    ensures OfferOutcome(acc, tx) == Accepted(false) && Offered(acc, tx) == acc.(queue := acc.queue[tx.nonce := tx])
    ensures LookupAfter(all, acc, Offering(tx, Accepted(false), [])) == all[tx.hash := tx]
  {
    assert all - HashesOf([]) == all && all - {} == all;
  }

  /** An account after a reorganisation. */
  lemma AccountAfter(before: Snapshot, mid: Snapshot, now: Snapshot, req: Request, log: seq<Offering>, state: State, locals: set<Address>,
                     accountQueue: nat, level: nat, accountSlots: nat, globalSlots: nat, globalQueue: nat, beat: Address -> int, a: Address)
    requires AllReorganised(before, mid, req, log, state, locals, accountQueue)
    requires WithinLimits(mid, now, locals, level, accountSlots, globalSlots, globalQueue, beat)
    ensures level >= accountSlots
    ensures now.View(a) == Limited(Reorganised(before.View(a), a, req, log, state.For(a), LimitFor(a, locals, accountQueue)), a in locals, level,
                                   |now.View(a).queue|)
  {
    hide Reorganised, Limited, Tight, NewestFirst, Total, BookOk, Snapshot.View;
  }

  /** A transaction is known exactly when its account holds it. */
  lemma KnownIff(pool: TxPool, tx: Tx)
    requires pool.Valid() && pool.meaning(tx.hash) == tx
    ensures tx.hash in pool.all.All() <==> TxAt(pool.Acc(tx.from), tx.nonce) == Some(tx)
    ensures tx.hash in pool.all.All() ==> pool.all.All()[tx.hash] == tx
    ensures pool.all.slots == SlotSum(pool.all.All())
  {
    hide Lookup.All, Lookup.Ok, BookOk, OwnList, SlotSum;
    pool.ValidParts();
    SlotsAre(pool.all);
    var all := pool.all.All();
    HeldAt(pool.Snap(), tx);
    if tx.hash in all {
      assert pool.meaning(tx.hash) == all[tx.hash];
      assert Holds(pool.pending, tx) || Holds(pool.queue, tx);
    }
  }

  lemma Meaningful(pool: TxPool, h: Hash)
    requires pool.Valid() && h in pool.all.All()
    ensures pool.meaning(h) == pool.all.All()[h] && pool.all.All()[h].hash == h
  {
    hide Lookup.All;
    assert pool.all.All()[h].hash == h;
  }

  lemma NothingAt(a: Address)
    ensures At(map[], a, true).txs == map[] && At(map[], a, false).txs == map[]
  {
  }

  lemma NotSettled(pool: TxPool, a: Address, n: nat)
    requires pool.nonceOf(a) <= n < pool.Acc(a).next && n !in pool.Acc(a).pending
    ensures !pool.SoundPool()
  {
    assert !Sound(pool.Acc(a), pool.FundsOf(a));
  }

  lemma NextBelow(pool: TxPool, a: Address)
    requires pool.Acc(a).next < pool.nonceOf(a)
    ensures !pool.SoundPool()
  {
    assert !Sound(pool.Acc(a), pool.FundsOf(a));
  }

  /** Reorganises the pool with all accounts equally active; what every account looks like afterwards. */
  method Reorganise(pool: TxPool, req: Request) returns (ghost log: seq<Offering>, ghost level: nat)
    requires pool.Valid() && pool.evicting == {} && Genuine(Given(req), pool.meaning)
    modifies pool, pool.priced
    ensures pool.Valid() && pool.evicting == {} && pool.locals == old(pool.locals) && pool.StateOf() == StateAfter(req, old(pool.StateOf()))
    ensures pool.localTxs <= old(pool.localTxs) + LocalOnes(Given(req), pool.locals)
    ensures old(pool.SoundPool()) && (req.Reset? ==> !req.taken) ==> pool.SoundPool()
    ensures level >= pool.accountSlots
    ensures forall a :: pool.Acc(a) == Limited(Reorganised(old(pool.Acc(a)), a, req, log, pool.FundsOf(a), pool.QueueLimit(a)), a in pool.locals, level,
                                               |pool.Acc(a).queue|)
    ensures |log| == |Given(req)|
    ensures req.Reset? && req.taken ==>
              LogOk(Snapshot(old(pool.pending), old(pool.queue), map[], pool.nonceOf), old(pool.all.All()), req.head, log, pool.Capacity(), pool.locals,
                    pool.locals == {} && old(pool.localTxs) == {})
    ensures StockLogged(old(pool.Goods()), pool.Goods(), Given(req), log, pool.Capacity(), pool.locals,
                        && old(pool.priced.View()).Calm() && |old(pool.all.All())| + |Given(req)| <= Min(pool.globalSlots, pool.globalQueue)
                        && QuietReorg(old(pool.Snap()), req, log, pool.StateOf(), pool.locals, pool.accountQueue))
  {
    hide TxPool.Valid, Partition, Covered, At, Lookup.All, Lookup.Ok, Reorganised, Limited, TxPool.SoundPool, AllReorganised, WithinLimits, QuietReorg,
      AllKeepRuns, PricedList.Tally.Calm, StockLogged, LogOk, PricedList.TxPricedList.View;
    ghost var before, goods := pool.Snap(), pool.Goods();
    ghost var mid;
    var beat := (b: Address) => 0;
    log, level, mid := pool.RunReorg(req, beat);
    LoggedLocals(goods, pool.Goods(), Given(req), log, pool.Capacity(), pool.locals,
                 && goods.tally.Calm() && |goods.all| + |Given(req)| <= Min(pool.globalSlots, pool.globalQueue)
                 && QuietReorg(before, req, log, pool.StateOf(), pool.locals, pool.accountQueue));
    AccountAfter(before, mid, pool.Snap(), req, log, pool.StateOf(), pool.locals, pool.accountQueue, level, pool.accountSlots, pool.globalSlots,
                 pool.globalQueue, beat, 0);
    forall a: Address ensures
      pool.Acc(a) == Limited(Reorganised(old(pool.Acc(a)), a, req, log, pool.FundsOf(a), pool.QueueLimit(a)), a in pool.locals, level,
                                |pool.Acc(a).queue|)
    {
      AccountAfter(before, mid, pool.Snap(), req, log, pool.StateOf(), pool.locals, pool.accountQueue, level, pool.accountSlots, pool.globalSlots,
                   pool.globalQueue, beat, a);
      assert pool.Snap().View(a) == pool.Acc(a) && before.View(a) == old(pool.Acc(a));
    }
  }

  lemma LoggedLocals(before: Stock, after: Stock, txs: seq<Tx>, log: seq<Offering>, limit: nat, locals: set<Address>, quiet: bool)
    requires StockLogged(before, after, txs, log, limit, locals, quiet)
    ensures after.localTxs <= before.localTxs + LocalOnes(txs, locals)
  {
  }

  /**
   A head lowers an account's nonce from 5 to 3 and gives nonces 3 and 4 back, but 4 cannot be paid any
   more: the pool ends with 3 and 5 pending and expects 6.
   */
  method LoweredNonceLeavesGap() returns (pool: TxPool)
    ensures pool.Valid() && !pool.SoundPool()
    ensures pool.nonceOf(0) == 3 && pool.Acc(0).pending.Keys == {3, 5} && pool.Acc(0).next == 6
  {
    hide *;
    NoncesAre();
    var three, four, five := Plain(30, 0, 3, 0, 100), Plain(40, 0, 4, 1000, 100), Plain(50, 0, 5, 0, 100);
    pool := PoolWithFive(three, four, five);
    GiveBack(pool, three, four, five);
    NotSettled(pool, 0, 4);
  }

  ghost predicate Nonces(three: Tx, four: Tx, five: Tx) {
    three == Plain(30, 0, 3, 0, 100) && four == Plain(40, 0, 4, 1000, 100) && five == Plain(50, 0, 5, 0, 100)
  }

  lemma NoncesAre()
    ensures Nonces(Plain(30, 0, 3, 0, 100), Plain(40, 0, 4, 1000, 100), Plain(50, 0, 5, 0, 100))
  {
  }

  /** A pool whose only transaction is queued at the state nonce. */
  method PoolWithQueuedFive(ghost three: Tx, ghost four: Tx, five: Tx) returns (pool: TxPool)
    requires Nonces(three, four, five)
    ensures pool.Valid() && pool.evicting == {} && pool.locals == {} && pool.localTxs == {} && fresh(pool) && fresh(pool.priced)
    ensures pool.accountSlots == 2 && pool.accountQueue == 10 && pool.Capacity() == 20 && pool.FundsOf(0) == Funds(5, 100, 100)
    ensures pool.Acc(0) == Account(map[], map[5 := five], 5)
    ensures forall h :: pool.meaning(h) == if h == 30 then three else if h == 40 then four else five
  {
    hide TxPool.Valid, Partition, Covered, At, Lookup.All, Lookup.Ok, SlotSum, TxPool.SoundPool, TxPool.Validates, PricedList.Tally.With, Tx.Slots;
    pool := new TxPool(2, 10, 10, 10, {}, _ => 5, _ => 100, 100, h => if h == 30 then three else if h == 40 then four else five);
    NothingAt(0);
    SlotsOfSize(five);
    PlainFits(pool, five, 0);
    Enter(pool, five);
  }

  /** The same pool with the transaction pending. */
  method PoolWithFive(ghost three: Tx, ghost four: Tx, five: Tx) returns (pool: TxPool)
    requires Nonces(three, four, five)
    ensures pool.Valid() && pool.evicting == {} && pool.locals == {} && pool.localTxs == {} && fresh(pool) && fresh(pool.priced)
    ensures pool.accountSlots == 2 && pool.accountQueue == 10 && pool.Capacity() == 20
    ensures pool.Acc(0) == Account(map[5 := five], map[], 6) && pool.all.All() == map[50 := five]
    ensures pool.meaning(30) == three && pool.meaning(40) == four
  {
    hide TxPool.Valid, Partition, Covered, At, Lookup.All, Lookup.Ok, Promoted, Limited, LogOk, Payable, TxPool.SoundPool, PricedList.Tally.Calm,
      QuietReorg, StockLogged, TxPool.Goods, Exactly;
    pool := PoolWithQueuedFive(three, four, five);
    ghost var log, level;
    log, level := Reorganise(pool, Promote({0}));
    PlainIs(five, 0);
    JustOne(5, five);
    PromotesAll(map[5 := five], 5, 6, Funds(5, 100, 100), Some(10), level, |pool.Acc(0).queue|);
    OnlyFive(pool, three, four, five);
  }

  lemma JustOne(n: nat, tx: Tx)
    ensures Exactly(map[n := tx], n, n + 1)
  {
  }

  lemma PlainFits(pool: TxPool, tx: Tx, value: nat)
    requires tx == Plain(tx.hash, tx.from, tx.nonce, value, tx.size) && value <= 99
    requires pool.nonceOf(tx.from) <= tx.nonce && pool.balanceOf(tx.from) == 100 && pool.maxGas == 100
    ensures pool.Validates(tx)
  {
  }

  lemma OnlyFive(pool: TxPool, three: Tx, four: Tx, five: Tx)
    requires pool.Valid() && Nonces(three, four, five) && pool.Acc(0) == Account(map[5 := five], map[], 6)
    requires forall h :: pool.meaning(h) == if h == 30 then three else if h == 40 then four else five
    ensures pool.all.All() == map[50 := five]
  {
    hide TxPool.Valid, Lookup.All, TxPool.Acc;
    KnownIff(pool, three);
    KnownIff(pool, four);
    KnownIff(pool, five);
    forall h | h in pool.all.All() ensures h == 50 { Meaningful(pool, h); }
  }

  /** The reset that lowers the nonce and gives two transactions back. */
  method GiveBack(pool: TxPool, three: Tx, four: Tx, five: Tx)
    requires Nonces(three, four, five)
    requires pool.Valid() && pool.evicting == {} && pool.locals == {} && pool.localTxs == {}
    requires pool.accountSlots == 2 && pool.accountQueue == 10 && pool.Capacity() == 20
    requires pool.Acc(0) == Account(map[5 := five], map[], 6) && pool.all.All() == map[50 := five]
    requires pool.meaning(30) == three && pool.meaning(40) == four
    modifies pool, pool.priced
    ensures pool.Valid()
    ensures pool.nonceOf(0) == 3 && pool.Acc(0).pending.Keys == {3, 5} && pool.Acc(0).next == 6
  {
    hide TxPool.Valid, Partition, Covered, At, Lookup.All, Lookup.Ok, Limited, LogOk, TxPool.SoundPool, Reorganised, QuietReorg, StockLogged,
      PricedList.Tally.Calm;
    var head := Head(_ => 3, _ => 100, 100, [three, four]);
    ghost var start := Snapshot(pool.pending, pool.queue, map[], head.nonceOf);
    ghost var acc, all := pool.Acc(0), pool.all.All();
    ghost var log, level;
    log, level := Reorganise(pool, Reset(head, true));
    ghost var f := Funds(3, 100, 100);
    assert pool.Acc(0) == Limited(Reorganised(acc, 0, Reset(head, true), log, f, Some(10)), false, level, |pool.Acc(0).queue|);
    assert start.View(0) == Account(map[5 := five], map[], 3);
    GapOfLog(start, all, head, log, three, four, five);
    GapResult(acc, head, log, three, five, level, |pool.Acc(0).queue|);
  }

  lemma GapOfLog(start: Snapshot, all: map<Hash, Tx>, h: Head, log: seq<Offering>, three: Tx, four: Tx, five: Tx)
    requires Nonces(three, four, five) && all == map[50 := five] && start.View(0) == Account(map[5 := five], map[], 3)
    requires h.nonceOf(0) == 3 && h.balanceOf(0) == 100 && h.maxGas == 100 && h.reinject == [three, four] && |log| == 2
    requires LogOk(start, all, h, log, 20, {}, true)
    ensures Reinjected(start.View(0), 0, log) == Account(map[5 := five], map[3 := three], 3)
  {
    hide Reinjected, LookupAt, SlotSum, PricedList.SlotsOf, LogOk, OfferOutcome, Offered, Admissible, LookupAfter, EvictedFrom;
    var acc, o, o' := start.View(0), log[0], log[1];
    LoggedInTurn(start, all, h, log, 20, {}, true);
    SumOfOne(five);
    SlotsOfSize(three);
    SlotsOfSize(five);
    PlainIs(three, 0);
    PlainIs(four, 1000);
    NoneEvicted(acc, 0, []);
    OfferedNew(all, acc, three);
    assert o == Offering(three, Accepted(false), []);
    assert o'.outcome == Invalid;
    NotReached(Account(map[5 := five], map[3 := three], 3), 0, o');
  }

  /** A log of two offers: each is offered to the pool as the one before left it. */
  lemma LoggedInTurn(start: Snapshot, all: map<Hash, Tx>, h: Head, log: seq<Offering>, limit: nat, locals: set<Address>, plain: bool)
    requires LogOk(start, all, h, log, limit, locals, plain) && |log| == 2
    ensures var o, o' := log[0], log[1];
            var acc' := start.View(o'.tx.from);
            && o.tx == h.reinject[0] && o'.tx == h.reinject[1]
            && OfferingOk(all, start.View(o.tx.from), o, Funds(h.nonceOf(o.tx.from), h.balanceOf(o.tx.from), h.maxGas), limit, o.tx.from in locals, plain)
            && OfferingOk(LookupAfter(all, start.View(o.tx.from), o), AfterOffer(acc', o'.tx.from, o), o',
                          Funds(h.nonceOf(o'.tx.from), h.balanceOf(o'.tx.from), h.maxGas), limit, o'.tx.from in locals, plain)
            && forall a :: Reinjected(start.View(a), a, log) == AfterOffer(AfterOffer(start.View(a), a, o), a, o')
  {
    hide OfferingOk, AfterOffer, LookupAfter;
    assert LoggedOk(start, all, h, log, limit, locals, plain, 0);
    assert LoggedOk(start, all, h, log, limit, locals, plain, 1);
    assert log[..0] == [] && log[..1] == [] + [log[0]] && log == log[..1] + [log[1]];
    LookupNext(start, all, log[..1]);
    forall a: Address ensures Reinjected(start.View(a), a, log[..1]) == AfterOffer(start.View(a), a, log[0])
                              && Reinjected(start.View(a), a, log) == AfterOffer(AfterOffer(start.View(a), a, log[0]), a, log[1]) {
      ReinjectedNext(start.View(a), a, [], log[0]);
      ReinjectedNext(start.View(a), a, log[..1], log[1]);
    }
  }

  /** A log of one offer is that offer to the pool as it was. */
  lemma FirstLogged(start: Snapshot, all: map<Hash, Tx>, h: Head, log: seq<Offering>, limit: nat, locals: set<Address>, plain: bool)
    requires LogOk(start, all, h, log, limit, locals, plain) && |log| == 1
    ensures var o := log[0];
            && o.tx == h.reinject[0]
            && OfferingOk(all, start.View(o.tx.from), o, Funds(h.nonceOf(o.tx.from), h.balanceOf(o.tx.from), h.maxGas), limit, o.tx.from in locals, plain)
            && forall a :: Reinjected(start.View(a), a, log) == AfterOffer(start.View(a), a, o)
  {
    hide OfferingOk, AfterOffer, LookupAfter;
    assert LoggedOk(start, all, h, log, limit, locals, plain, 0);
    assert log[..0] == [] && log == [] + [log[0]];
    forall a: Address ensures Reinjected(start.View(a), a, log) == AfterOffer(start.View(a), a, log[0]) {
      ReinjectedNext(start.View(a), a, [], log[0]);
    }
  }

  lemma GapResult(acc: Account, head: Head, log: seq<Offering>, three: Tx, five: Tx, level: nat, q: nat)
    requires Reinjected(acc.(next := 3), 0, log) == Account(map[5 := five], map[3 := three], 3)
    requires three == Plain(30, 0, 3, 0, 100) && five == Plain(50, 0, 5, 0, 100) && level >= 2
    ensures var f := Funds(3, 100, 100);
            var fin := Limited(Reorganised(acc, 0, Reset(head, true), log, f, Some(10)), false, level, q);
            fin.pending.Keys == {3, 5} && fin.next == 6
  {
    PlainIs(three, 0);
    PlainIs(five, 0);
    hide *;
    var f, d := Funds(3, 100, 100), Account(map[5 := five, 3 := three], map[], 4);
    ReorganisedIs(acc, 0, head, log, f, Some(10));
    GapPromoted(five, three, f);
    GapDemoted(d, f);
    LimitedParts(d, false, level, q);
    GapLowest(d.pending, five, three, level);
    PastIs(d.pending, d.next, 6);
  }

  lemma ReorganisedIs(acc: Account, a: Address, head: Head, log: seq<Offering>, f: Funds, limit: Option<nat>)
    ensures Reorganised(acc, a, Reset(head, true), log, f, limit) == Demoted(Promoted(Reinjected(acc.(next := f.nonce), a, log), f, limit), f)
  {
  }

  lemma PastIs(m: Txs, otherwise: nat, hi: nat)
    requires IsPast(m, hi)
    ensures m != map[] && PastOr(m, otherwise) == hi
  {
    assert hi - 1 in m;
    var p := PastOr(m, otherwise);
    assert p - 1 in m;
  }

  lemma GapPromoted(five: Tx, three: Tx, f: Funds)
    requires f == Funds(3, 100, 100) && Payable(three, 100, 100)
    ensures Promoted(Account(map[5 := five], map[3 := three], 3), f, Some(10)) == Account(map[5 := five, 3 := three], map[], 4)
  {
    hide Ready, NotReady, PastOr, Payable, Rank;
    AllReady(map[3 := three], 3, 4);
    PastRun(map[3 := three], 3, 4, 3);
    assert Eligible(map[3 := three], f) == map[3 := three];
  }

  lemma GapDemoted(d: Account, f: Funds)
    requires f == Funds(3, 100, 100) && d.pending.Keys == {3, 5} && d.queue == map[]
    requires Payable(d.pending[3], 100, 100) && Payable(d.pending[5], 100, 100)
    ensures Demoted(d, f) == d
  {
    hide Payable;
    var recent := From(d.pending, 3);
    assert recent == d.pending;
    assert Unpayable(recent, 100, 100) == map[] && Stranded(recent, 100, 100) == map[];
  }

  lemma GapLowest(pending: Txs, five: Tx, three: Tx, level: nat)
    requires pending == map[5 := five, 3 := three] && level >= 2
    ensures Lowest(pending, level) == pending && IsPast(pending, 6)
  {
    assert (set x | x in pending.Keys && x < 5) == {3};
    assert (set x | x in pending.Keys && x < 3) == {};
  }

  /**
   A full pool holds nonces 3 and 4 of one account. A head that executed both lowers another
   account's nonce and gives its transaction back, which evicts one of the two: the account ends with
   nothing pending and expects a nonce below 5, so nothing of it becomes ready before the next reset.
   */
  method EvictionBreaksRun() returns (pool: TxPool)
    ensures pool.Valid() && !pool.SoundPool()
    ensures pool.nonceOf(0) == 5 && pool.Acc(0).pending == map[] && pool.Acc(0).next < 5
  {
    hide *;
    TwoAndOneAre();
    var a3, a4, b0 := Plain(3, 0, 3, 0, 100), Plain(4, 0, 4, 0, 100), Plain(7, 1, 0, 0, 100);
    pool := FullPool(a3, a4, b0, 1);
    Overtake(pool, a3, a4, b0);
    NextBelow(pool, 0);
  }

  /**
   The same ending although no state nonce that the pool ever takes over goes down: a reset to a head at
   which the other account's transaction was executed is given up, and the next head, which gives that
   transaction back, is compared with the pool's own older state.
   */
  method GivenUpResetBreaksRun() returns (pool: TxPool, before: Address -> nat)
    ensures pool.Valid() && !pool.SoundPool() && NotAhead(before, pool.nonceOf)
    ensures pool.nonceOf(0) == 5 && pool.Acc(0).pending == map[] && pool.Acc(0).next < 5
  {
    hide *;
    TwoAndOneAre();
    var a3, a4, b0 := Plain(3, 0, 3, 0, 100), Plain(4, 0, 4, 0, 100), Plain(7, 1, 0, 0, 100);
    pool := FullPool(a3, a4, b0, 0);
    before := pool.nonceOf;
    GiveUp(pool, a3, a4, b0);
    Overtake(pool, a3, a4, b0);
    NoneLowered(before, pool.nonceOf);
    NextBelow(pool, 0);
  }

  lemma NoneLowered(before: Address -> nat, now: Address -> nat)
    requires forall a: Address :: before(a) == if a == 0 then 3 else 0
    requires forall a: Address :: now(a) == if a == 0 then 5 else 0
    ensures NotAhead(before, now)
  {
  }

  ghost predicate TwoAndOne(a3: Tx, a4: Tx, b0: Tx) {
    a3 == Plain(3, 0, 3, 0, 100) && a4 == Plain(4, 0, 4, 0, 100) && b0 == Plain(7, 1, 0, 0, 100)
  }

  lemma TwoAndOneAre()
    ensures TwoAndOne(Plain(3, 0, 3, 0, 100), Plain(4, 0, 4, 0, 100), Plain(7, 1, 0, 0, 100))
  {
  }

  /** A pool of two slots, no local transaction, and the meaning of three hashes. */
  ghost predicate SmallPool(pool: TxPool, a3: Tx, a4: Tx, b0: Tx)
    reads pool
  {
    && pool.evicting == {} && pool.locals == {} && pool.localTxs == {} && pool.Capacity() == 2 && pool.accountSlots == 2 && pool.accountQueue == 10
    && pool.nonceOf(0) == 3 && pool.balanceOf(0) == 100 && pool.maxGas == 100
    && TwoMeant(pool.meaning, a3, a4, b0)
  }

  ghost predicate TwoMeant(meaning: Hash -> Tx, a3: Tx, a4: Tx, b0: Tx) {
    forall h :: meaning(h) == if h == 3 then a3 else if h == 4 then a4 else b0
  }

  method NewSmallPool(ghost a3: Tx, ghost a4: Tx, ghost b0: Tx, nonceB: nat) returns (pool: TxPool)
    ensures pool.Valid() && pool.SoundPool() && SmallPool(pool, a3, a4, b0) && fresh(pool) && fresh(pool.priced)
    ensures forall a: Address :: pool.nonceOf(a) == if a == 0 then 3 else nonceB
    ensures pool.Acc(0) == Account(map[], map[], 3) && pool.Acc(1) == Account(map[], map[], nonceB)
    ensures pool.all.All() == map[] && pool.all.slots == 0
  {
    hide TxPool.Valid, Lookup.All, At, TxPool.SoundPool;
    pool := new TxPool(2, 1, 10, 1, {}, a => if a == 0 then 3 else nonceB, _ => 100, 100, h => if h == 3 then a3 else if h == 4 then a4 else b0);
    NothingAt(0);
    NothingAt(1);
  }

  /** It holds two queued transactions of one account. */
  method FilledPool(a3: Tx, a4: Tx, ghost b0: Tx, nonceB: nat) returns (pool: TxPool)
    requires TwoAndOne(a3, a4, b0)
    ensures pool.Valid() && pool.SoundPool() && SmallPool(pool, a3, a4, b0) && fresh(pool) && fresh(pool.priced)
    ensures forall a: Address :: pool.nonceOf(a) == if a == 0 then 3 else nonceB
    ensures pool.Acc(0) == Account(map[], map[3 := a3, 4 := a4], 3) && pool.Acc(1) == Account(map[], map[], nonceB)
  {
    hide TxPool.Valid, Lookup.All, At, SlotSum, TxPool.SoundPool, TxPool.Validates, PricedList.Tally.With, Tx.Slots, TxPool.Acc;
    pool := NewSmallPool(a3, a4, b0, nonceB);
    SlotsOfSize(a3);
    SlotsOfSize(a4);
    PlainFits(pool, a3, 0);
    Enter(pool, a3);
    SumOfOne(a3);
    PlainFits(pool, a4, 0);
    Enter(pool, a4);
    assert pool.Acc(0).queue == map[3 := a3, 4 := a4];
  }

  /** Both are pending. */
  ghost predicate Full(pool: TxPool, a3: Tx, a4: Tx, b0: Tx)
    reads pool, pool.priced
  {
    && pool.Valid() && pool.SoundPool() && SmallPool(pool, a3, a4, b0)
    && pool.Acc(0) == Account(map[3 := a3, 4 := a4], map[], 5) && pool.Acc(1).pending == map[] && pool.Acc(1).queue == map[]
    && pool.all.All() == map[3 := a3, 4 := a4]
  }

  method FullPool(a3: Tx, a4: Tx, ghost b0: Tx, nonceB: nat) returns (pool: TxPool)
    requires TwoAndOne(a3, a4, b0)
    ensures Full(pool, a3, a4, b0) && fresh(pool) && fresh(pool.priced)
    ensures forall a: Address :: pool.nonceOf(a) == if a == 0 then 3 else nonceB
  {
    hide TxPool.Valid, Partition, Covered, At, Lookup.All, Lookup.Ok, Promoted, Limited, LogOk, Payable, TxPool.SoundPool, PricedList.Tally.Calm,
      QuietReorg, StockLogged, TxPool.Goods, Exactly;
    pool := FilledPool(a3, a4, b0, nonceB);
    ghost var log, level;
    ghost var m: Txs := map[3 := a3, 4 := a4];
    log, level := Reorganise(pool, Promote({0}));
    TwoAffordable(a3, a4, b0, m);
    assert pool.Acc(0) == Limited(Promoted(Account(map[], m, 3), Funds(3, 100, 100), Some(10)), false, level, |pool.Acc(0).queue|);
    PromotesAll(m, 3, 5, Funds(3, 100, 100), Some(10), level, |pool.Acc(0).queue|);
    LimitedNothing(nonceB, level, |pool.Acc(1).queue|);
    OnlyTwo(pool, a3, a4, b0);
  }

  lemma TwoAffordable(a3: Tx, a4: Tx, b0: Tx, m: Txs)
    requires TwoAndOne(a3, a4, b0) && m == map[3 := a3, 4 := a4]
    ensures Exactly(m, 3, 5) && forall n :: n in m ==> Payable(m[n], 100, 100)
  {
    PlainIs(a3, 0);
    PlainIs(a4, 0);
  }

  lemma LimitedNothing(next: nat, level: nat, q: nat)
    requires level >= 1
    ensures var fin := Limited(Account(map[], map[], next), false, level, q);
            fin.pending == map[] && fin.queue == map[]
  {
    hide PastOr, CutNext, Rank;
  }

  lemma OnlyTwo(pool: TxPool, a3: Tx, a4: Tx, b0: Tx)
    requires pool.Valid() && TwoAndOne(a3, a4, b0) && pool.Acc(0) == Account(map[3 := a3, 4 := a4], map[], 5)
    requires pool.Acc(1).pending == map[] && pool.Acc(1).queue == map[]
    requires TwoMeant(pool.meaning, a3, a4, b0)
    ensures pool.all.All() == map[3 := a3, 4 := a4]
  {
    hide TxPool.Valid, Lookup.All, TxPool.Acc;
    KnownIff(pool, a3);
    KnownIff(pool, a4);
    KnownIff(pool, b0);
    forall h | h in pool.all.All() ensures h == 3 || h == 4 { Meaningful(pool, h); }
  }

  /** A reset that is given up leaves this pool as it is. */
  method GiveUp(pool: TxPool, a3: Tx, a4: Tx, b0: Tx)
    requires TwoAndOne(a3, a4, b0) && Full(pool, a3, a4, b0)
    modifies pool, pool.priced
    ensures Full(pool, a3, a4, b0) && pool.nonceOf == old(pool.nonceOf)
  {
    hide TxPool.Valid, Partition, Covered, At, Lookup.All, Lookup.Ok, Limited, LogOk, Payable, TxPool.SoundPool, PricedList.Tally.Calm,
      QuietReorg, StockLogged, TxPool.Goods, Sound, Promoted, Demoted, TwoMeant;
    ghost var acc, f := pool.Acc(0), pool.FundsOf(0);
    SoundAt0(pool);
    ghost var log, level;
    log, level := Reorganise(pool, Reset(Head(a => if a == 0 then 3 else 1, _ => 100, 100, []), false));
    Unmoved(acc, f, level, |pool.Acc(0).queue|, a3, a4);
    EmptyUnmoved(old(pool.Acc(1)).next, pool.FundsOf(1), level, |pool.Acc(1).queue|);
    OnlyTwo(pool, a3, a4, b0);
  }

  lemma SoundAt0(pool: TxPool)
    requires pool.SoundPool()
    ensures Sound(pool.Acc(0), pool.FundsOf(0))
  {
  }

  lemma Unmoved(acc: Account, f: Funds, level: nat, q: nat, a3: Tx, a4: Tx)
    requires acc == Account(map[3 := a3, 4 := a4], map[], 5) && Sound(acc, f) && level >= 2 && f.nonce == 3
    ensures Limited(Demoted(Promoted(acc, f, Some(10)), f), false, level, q) == acc
  {
    hide Limited, Demoted, Promoted, Sound;
    PromotedNothing(acc, f, Some(10));
    DemoteSound(acc, f);
    LimitedParts(acc, false, level, q);
    assert Exactly(acc.pending, 3, 5);
    AllBelowLevel(acc.pending, 3, 5, level);
    PastRun(acc.pending, 3, 5, acc.next);
    assert Limited(acc, false, level, q).queue == map[];
  }

  lemma EmptyUnmoved(next: nat, f: Funds, level: nat, q: nat)
    requires level >= 1
    ensures var fin := Limited(Demoted(Promoted(Account(map[], map[], next), f, Some(10)), f), false, level, q);
            fin.pending == map[] && fin.queue == map[]
  {
    hide Limited, Promoted;
    PromotedNothing(Account(map[], map[], next), f, Some(10));
    DemotedNothing(Account(map[], map[], next), f);
    LimitedNothing(next, level, q);
  }

  /** The reset that executes both and gives another account's transaction back. */
  method Overtake(pool: TxPool, a3: Tx, a4: Tx, b0: Tx)
    requires TwoAndOne(a3, a4, b0) && Full(pool, a3, a4, b0)
    modifies pool, pool.priced
    ensures pool.Valid() && pool.Acc(0).pending == map[] && pool.Acc(0).next < 5
    ensures forall a: Address :: pool.nonceOf(a) == if a == 0 then 5 else 0
  {
    hide TxPool.Valid, Partition, Covered, At, Lookup.All, Lookup.Ok, Limited, LogOk, TxPool.SoundPool, Reinjected, Reorganised, EvictsExecuted,
      EvictedFrom, Exactly, QuietReorg, StockLogged, PricedList.Tally.Calm, TxPool.Goods;
    var head := Head(a => if a == 0 then 5 else 0, _ => 100, 100, [b0]);
    ghost var start := Snapshot(pool.pending, pool.queue, map[], head.nonceOf);
    ghost var acc, all := pool.Acc(0), pool.all.All();
    ghost var log, level;
    log, level := Reorganise(pool, Reset(head, true));
    ghost var f := Funds(5, 100, 100);
    assert pool.Acc(0) == Limited(Reorganised(acc, 0, Reset(head, true), log, f, Some(10)), false, level, |pool.Acc(0).queue|);
    assert start.View(0) == acc;
    TwoAffordable(a3, a4, b0, acc.pending);
    OvertakenLog(start, all, head, log, a3, a4, b0);
    OvertakenResult(acc, head, log, f, Some(10), level, |pool.Acc(0).queue|);
  }

  lemma OvertakenLog(start: Snapshot, all: map<Hash, Tx>, h: Head, log: seq<Offering>, a3: Tx, a4: Tx, b0: Tx)
    requires TwoAndOne(a3, a4, b0) && all == map[3 := a3, 4 := a4] && start.View(0) == Account(map[3 := a3, 4 := a4], map[], 5)
    requires h.nonceOf(1) == 0 && h.balanceOf(1) == 100 && h.maxGas == 100 && h.reinject == [b0] && |log| == 1
    requires LogOk(start, all, h, log, 2, {}, true)
    ensures EvictsExecuted(start.View(0), 5, 0, log)
    ensures Reinjected(start.View(0), 0, log) == EvictedFrom(start.View(0), 0, log[0].evicted)
  {
    hide Reinjected, LookupAt, SlotSum, EvictedFrom, OfferOutcome, LogOk, At, PricedList.SlotsOf, Admissible;
    FirstLogged(start, all, h, log, 2, {}, true);
    SumOfTwo(a3, a4);
    SlotsOfSize(a3);
    SlotsOfSize(a4);
    SlotsOfSize(b0);
    PlainIs(b0, 0);
    var o := log[0];
    SomeEvicted(o.evicted);
    assert HitsExecuted(start.View(0).pending, 5, 0, o.evicted) by { assert o.evicted[0].hash in all; }
  }

  lemma SomeEvicted(drop: seq<Tx>)
    ensures PricedList.SlotsOf(drop) >= 1 ==> drop != []
  {
  }

  lemma OvertakenResult(acc: Account, head: Head, log: seq<Offering>, f: Funds, limit: Option<nat>, level: nat, q: nat)
    requires Exactly(acc.pending, 3, 5) && acc.queue == map[] && acc.next == 5 && f.nonce == 5 && level >= 1 && |log| == 1
    requires EvictsExecuted(acc, 5, 0, log) && Reinjected(acc.(next := 5), 0, log) == EvictedFrom(acc, 0, log[0].evicted)
    ensures var fin := Limited(Reorganised(acc, 0, Reset(head, true), log, f, limit), false, level, q);
            fin.pending == map[] && fin.next < 5
  {
    hide Limited, Promoted, Demoted, Reinjected, EvictsExecuted, EvictedFrom, LeavesGap;
    EvictedGone(acc, 0, log[0].evicted);
    ResetSettlesIff(acc, 3, 0, log, f, limit, false, level, q);
  }

  /**
   A pool of four slots with a local and a remote transaction of two slots each. A head executes the
   remote one and the next head gives it back: it has two entries in the eviction list now, and an offer
   of three slots is accepted although only two can be freed.
   */
  method DoubledEntryOverfills() returns (pool: TxPool)
    ensures pool.Valid() && pool.all.slots == 5 && pool.globalSlots + pool.globalQueue == 4
  {
    hide *;
    TrioAre();
    var l, a, c := Plain(10, 1, 0, 0, 40000), Plain(20, 0, 0, 0, 40000), Plain(30, 2, 0, 0, 70000);
    pool := BothQueued(l, a, c);
    PromoteBoth(pool, l, a, c);
    Execute(pool, l, a, c);
    Revert(pool, l, a, c);
    Overfill(pool, l, a, c);
  }

  ghost predicate Trio(l: Tx, a: Tx, c: Tx) {
    l == Plain(10, 1, 0, 0, 40000) && a == Plain(20, 0, 0, 0, 40000) && c == Plain(30, 2, 0, 0, 70000)
  }

  lemma TrioAre()
    ensures Trio(Plain(10, 1, 0, 0, 40000), Plain(20, 0, 0, 0, 40000), Plain(30, 2, 0, 0, 70000))
  {
  }

  /** A pool of four slots in which account 1 is local, and the meaning of three hashes. */
  ghost predicate TightPool(pool: TxPool, l: Tx, a: Tx, c: Tx)
    reads pool
  {
    && pool.evicting == {} && pool.locals == {1} && pool.localTxs <= {10}
    && pool.globalSlots == 2 && pool.globalQueue == 2 && pool.accountSlots == 2 && pool.accountQueue == 10
    && pool.balanceOf(0) == 100 && pool.FundsOf(1) == pool.FundsOf(2) == Funds(0, 100, 100)
    && TrioMeant(pool.meaning, l, a, c)
  }

  ghost predicate TrioMeant(meaning: Hash -> Tx, l: Tx, a: Tx, c: Tx) {
    forall h :: meaning(h) == if h == 10 then l else if h == 20 then a else c
  }

  ghost predicate Empty(acc: Account) {
    acc.pending == map[] && acc.queue == map[]
  }

  /** What the pool holds: the two accounts, nothing else, and `entries` in the eviction list, none stale. */
  ghost predicate Holding(pool: TxPool, nonce: nat, acc0: Account, acc1: Account, entries: multiset<Tx>)
    reads pool, pool.priced
  {
    && pool.nonceOf(0) == nonce && pool.Acc(0) == acc0 && pool.Acc(1) == acc1 && (forall b: Address :: b > 1 ==> Empty(pool.Acc(b)))
    && pool.priced.View() == PricedList.Tally(entries, 0)
  }

  method NewTightPool(ghost l: Tx, ghost a: Tx, ghost c: Tx) returns (pool: TxPool)
    ensures pool.Valid() && TightPool(pool, l, a, c) && fresh(pool) && fresh(pool.priced)
    ensures Holding(pool, 0, Account(map[], map[], 0), Account(map[], map[], 0), multiset{})
    ensures pool.all.All() == map[] && pool.all.slots == 0
  {
    hide TxPool.Valid, Lookup.All, At, TxPool.SoundPool;
    pool := new TxPool(2, 2, 10, 2, {1}, _ => 0, _ => 100, 100, h => if h == 10 then l else if h == 20 then a else c);
    forall b: Address ensures pool.Acc(b) == Account(map[], map[], 0) { NothingAt(b); }
  }

  method BothQueued(l: Tx, a: Tx, ghost c: Tx) returns (pool: TxPool)
    requires Trio(l, a, c)
    ensures pool.Valid() && TightPool(pool, l, a, c) && fresh(pool) && fresh(pool.priced)
    ensures Holding(pool, 0, Account(map[], map[0 := a], 0), Account(map[], map[0 := l], 0), multiset{a})
    ensures pool.all.All() == map[10 := l, 20 := a]
  {
    hide TxPool.Valid, Lookup.All, At, SlotSum, TxPool.SoundPool, TxPool.Validates, Tx.Slots, TxPool.Acc, PricedList.TxPricedList.View;
    pool := NewTightPool(l, a, c);
    SlotsOfSize(l);
    SlotsOfSize(a);
    PlainFits(pool, l, 0);
    Enter(pool, l);
    SumOfOne(l);
    PlainFits(pool, a, 0);
    Enter(pool, a);
    assert multiset{} + multiset{a} == multiset{a};
  }

  /** Nothing dropped by promotion: an account with nothing queued, or with its next transaction queued. */
  lemma LosslessNothing(acc: Account, f: Funds, limit: Option<nat>)
    requires acc.queue == map[]
    ensures Lossless(acc, f, limit)
  {
    hide Rank, Gapless, ReachesDownTo;
    assert Eligible(map[], f) == map[];
  }

  lemma LosslessOne(acc: Account, tx: Tx, n: nat, f: Funds, limit: Option<nat>)
    requires acc.queue == map[n := tx] && acc.next == n && f.nonce <= n && Payable(tx, f.balance, f.maxGas)
    ensures Lossless(acc, f, limit)
  {
    hide Rank, Gapless, ReachesDownTo, Payable;
    EligibleOne(tx, n, f);
    AllReady(map[n := tx], n, n + 1);
  }

  lemma EligibleOne(tx: Tx, n: nat, f: Funds)
    requires f.nonce <= n && Payable(tx, f.balance, f.maxGas)
    ensures Eligible(map[n := tx], f) == map[n := tx]
  {
    var e := Eligible(map[n := tx], f);
    forall x: nat ensures x in e <==> x == n { EligibleIs(map[n := tx], f, x); }
    EligibleIs(map[n := tx], f, n);
  }

  /** A queued transaction at the state nonce becomes pending, and stays so when demotion follows. */
  lemma OneQueued(tx: Tx, n: nat, f: Funds, limit: Option<nat>, local: bool, level: nat, q: nat)
    requires f.nonce == n && Payable(tx, f.balance, f.maxGas) && level >= 1
    ensures var p := Promoted(Account(map[], map[n := tx], n), f, limit);
            Limited(p, local, level, q) == Account(map[n := tx], map[], n + 1) && Limited(Demoted(p, f), local, level, q) == Account(map[n := tx], map[], n + 1)
  {
    hide Ready, NotReady, PastOr, Payable, Rank, Limited, Demoted;
    EligibleOne(tx, n, f);
    AllReady(map[n := tx], n, n + 1);
    PastRun(map[n := tx], n, n + 1, n);
    assert Promoted(Account(map[], map[n := tx], n), f, limit) == Account(map[n := tx], map[], n + 1);
    OneDemoted(tx, n, f, n + 1);
    OneLimited(tx, n, n + 1, local, level, q);
  }

  /** A pending transaction at the state nonce stays. */
  lemma OnePending(tx: Tx, n: nat, f: Funds, limit: Option<nat>, local: bool, level: nat, q: nat)
    requires f.nonce == n && Payable(tx, f.balance, f.maxGas) && level >= 1
    ensures Limited(Demoted(Promoted(Account(map[n := tx], map[], n), f, limit), f), local, level, q) == Account(map[n := tx], map[], n + 1)
  {
    hide Payable, Limited, Demoted, Promoted;
    PromotedNothing(Account(map[n := tx], map[], n), f, limit);
    OneDemoted(tx, n, f, n);
    OneLimited(tx, n, n, local, level, q);
  }

  lemma OneDemoted(tx: Tx, n: nat, f: Funds, next: nat)
    requires f.nonce == n && Payable(tx, f.balance, f.maxGas)
    ensures Demoted(Account(map[n := tx], map[], next), f) == Account(map[n := tx], map[], next)
  {
    hide Payable;
    var m: Txs := map[n := tx];
    assert From(m, n) == m;
    assert Unpayable(m, f.balance, f.maxGas) == map[] && Stranded(m, f.balance, f.maxGas) == map[];
    assert Runnable(m, f) == m;
  }

  lemma OneLimited(tx: Tx, n: nat, next: nat, local: bool, level: nat, q: nat)
    requires level >= 1
    ensures Limited(Account(map[n := tx], map[], next), local, level, q) == Account(map[n := tx], map[], n + 1)
  {
    var acc := Account(map[n := tx], map[], next);
    LimitedParts(acc, local, level, q);
    assert (set x | x in acc.pending.Keys && x < n) == {};
    assert forall k: nat :: k >= 1 ==> Lowest(acc.pending, k) == acc.pending;
    PastRun(acc.pending, n, n + 1, next);
    hide Limited;
    assert Limited(acc, local, level, q).queue == map[];
  }

  /** An executed transaction goes. */
  lemma OneExecuted(tx: Tx, f: Funds, limit: Option<nat>, level: nat, q: nat)
    requires f.nonce == 1 && level >= 1
    ensures Limited(Demoted(Promoted(Account(map[0 := tx], map[], 1), f, limit), f), false, level, q) == Account(map[], map[], 1)
  {
    hide Promoted, Limited;
    PromotedNothing(Account(map[0 := tx], map[], 1), f, limit);
    assert From(map[0 := tx], 1) == map[];
    assert Demoted(Account(map[0 := tx], map[], 1), f) == Account(map[], map[], 1);
    LimitedParts(Account(map[], map[], 1), false, level, q);
    assert Limited(Account(map[], map[], 1), false, level, q).queue == map[];
  }

  /** An empty account stays empty. */
  lemma EmptyStays(acc: Account, b: Address, req: Request, log: seq<Offering>, f: Funds, limit: Option<nat>, level: nat, q: nat)
    requires Empty(acc) && level >= 1 && Others(log, b)
    ensures Empty(Limited(Reorganised(acc, b, req, log, f, limit), false, level, q))
    ensures Resumed(acc, b, req, log, f).queue == map[]
  {
    hide Promoted, Demoted, Limited, Reinjected, Others;
    NotOffered(acc.(next := f.nonce), b, log);
    var mid := Resumed(acc, b, req, log, f);
    PromotedNothing(mid, f, limit);
    DemotedNothing(mid, f);
    LimitedNothing(mid.next, level, q);
  }

  /** At most one offer, of another account's transaction, that evicts nothing. */
  ghost predicate Others(log: seq<Offering>, b: Address) {
    |log| <= 1 && forall i :: 0 <= i < |log| ==> log[i].tx.from != b && log[i].evicted == []
  }

  lemma NotOffered(acc: Account, b: Address, log: seq<Offering>)
    requires Others(log, b)
    ensures Reinjected(acc, b, log) == acc
  {
    if log != [] {
      assert log == [] + [log[0]];
      ReinjectedNext(acc, b, [], log[0]);
    }
  }

  /** The accounts that have nothing still have nothing, and promotion drops nothing if it drops nothing of the two others. */
  lemma OthersAfter(before: Snapshot, now: Snapshot, req: Request, log: seq<Offering>, state: State, level: nat)
    requires level >= 1 && forall b: Address :: b > 1 ==> Empty(before.View(b)) && Others(log, b)
    requires forall b: Address :: b > 1 ==>
               now.View(b) == Limited(Reorganised(before.View(b), b, req, log, state.For(b), Some(10)), false, level, |now.View(b).queue|)
    requires Lossless(Resumed(before.View(0), 0, req, log, state.For(0)), state.For(0), LimitFor(0, {1}, 10))
    requires Lossless(Resumed(before.View(1), 1, req, log, state.For(1)), state.For(1), LimitFor(1, {1}, 10))
    ensures forall b: Address :: b > 1 ==> Empty(now.View(b))
    ensures QuietReorg(before, req, log, state, {1}, 10)
  {
    hide Reorganised, Resumed, Limited, Lossless, Others, Empty, Snapshot.View;
    forall b: Address ensures (b > 1 ==> Empty(now.View(b)))
                              && Lossless(Resumed(before.View(b), b, req, log, state.For(b)), state.For(b), LimitFor(b, {1}, 10)) {
      if b > 1 {
        EmptyStays(before.View(b), b, req, log, state.For(b), Some(10), level, |now.View(b).queue|);
        LosslessNothing(Resumed(before.View(b), b, req, log, state.For(b)), state.For(b), Some(10));
      }
    }
  }

  /** One reorganisation of the pool of four slots, on values. */
  ghost predicate Stepped(before: Snapshot, now: Snapshot, goods: Stock, after: Stock, req: Request, log: seq<Offering>, state: State, level: nat) {
    && level >= 1 && |log| == |Given(req)|
    && (forall b: Address {:trigger now.View(b)} ::
          now.View(b) == Limited(Reorganised(before.View(b), b, req, log, state.For(b), LimitFor(b, {1}, 10)), b in {1}, level, |now.View(b).queue|))
    && (req.Reset? && req.taken ==>
          LogOk(Snapshot(before.pending, before.queue, map[], state.nonceOf), goods.all, req.head, log, 4, {1}, false))
    && StockLogged(goods, after, Given(req), log, 4, {1},
                   goods.tally.Calm() && |goods.all| + |Given(req)| <= 2 && QuietReorg(before, req, log, state, {1}, 10))
  }

  method Settle(pool: TxPool, req: Request, ghost l: Tx, ghost a: Tx, ghost c: Tx) returns (ghost log: seq<Offering>, ghost level: nat)
    requires pool.Valid() && TightPool(pool, l, a, c) && Genuine(Given(req), pool.meaning) && LocalOnes(Given(req), {1}) == {}
    requires var state := StateAfter(req, pool.StateOf());
             state.balanceOf(0) == 100 && state.For(1) == state.For(2) == Funds(0, 100, 100)
    modifies pool, pool.priced
    ensures pool.Valid() && TightPool(pool, l, a, c) && pool.StateOf() == StateAfter(req, old(pool.StateOf()))
    ensures Stepped(old(pool.Snap()), pool.Snap(), old(pool.Goods()), pool.Goods(), req, log, pool.StateOf(), level)
  {
    hide TxPool.Valid, Lookup.All, At, TxPool.SoundPool, Limited, Reorganised, LogOk, StockLogged, QuietReorg, PricedList.Tally.Calm, LocalOnes,
      PricedList.TxPricedList.View, TrioMeant, Genuine;
    ghost var before := pool.Snap();
    log, level := Reorganise(pool, req);
    forall b: Address ensures pool.Snap().View(b) == Limited(
      Reorganised(before.View(b), b, req, log, pool.StateOf().For(b), LimitFor(b, {1}, 10)), b in {1}, level, |pool.Snap().View(b).queue|) {
      assert before.View(b) == old(pool.Acc(b)) && pool.Snap().View(b) == pool.Acc(b);
      assert pool.StateOf().For(b) == pool.FundsOf(b) && LimitFor(b, {1}, 10) == pool.QueueLimit(b);
    }
  }

  /** One account of it. */
  lemma StepAt(before: Snapshot, now: Snapshot, goods: Stock, after: Stock, req: Request, log: seq<Offering>, state: State, level: nat, b: Address)
    requires Stepped(before, now, goods, after, req, log, state, level)
    ensures level >= 1 && |log| == |Given(req)|
    ensures now.View(b) == Limited(Rearranged(Resumed(before.View(b), b, req, log, state.For(b)), b, req, state.For(b), LimitFor(b, {1}, 10)), b in {1}, level,
                                   |now.View(b).queue|)
  {
    hide Limited, LogOk, StockLogged, QuietReorg, Promoted, Demoted, Reinjected, Snapshot.View;
  }

  /** The account's next transaction is queued: it becomes pending. */
  lemma StepQueued(before: Snapshot, now: Snapshot, goods: Stock, after: Stock, req: Request, log: seq<Offering>, state: State, level: nat, b: Address,
                   tx: Tx)
    requires Stepped(before, now, goods, after, req, log, state, level) && state.For(b) == Funds(0, 100, 100) && Payable(tx, 100, 100)
    requires Resumed(before.View(b), b, req, log, state.For(b)) == Account(map[], map[0 := tx], 0) && (req.Promote? ==> b in req.accounts)
    ensures now.View(b) == Account(map[0 := tx], map[], 1)
    ensures Lossless(Resumed(before.View(b), b, req, log, state.For(b)), state.For(b), LimitFor(b, {1}, 10))
  {
    hide Stepped, Limited, Promoted, Demoted, Resumed, Lossless, Payable, Snapshot.View, State.For, LimitFor;
    StepAt(before, now, goods, after, req, log, state, level, b);
    OneQueued(tx, 0, state.For(b), LimitFor(b, {1}, 10), b in {1}, level, |now.View(b).queue|);
    LosslessOne(Account(map[], map[0 := tx], 0), tx, 0, state.For(b), LimitFor(b, {1}, 10));
  }

  /** It is pending: a reset keeps it. */
  lemma StepPending(before: Snapshot, now: Snapshot, goods: Stock, after: Stock, req: Request, log: seq<Offering>, state: State, level: nat, b: Address,
                    tx: Tx)
    requires Stepped(before, now, goods, after, req, log, state, level) && state.For(b) == Funds(0, 100, 100) && Payable(tx, 100, 100) && req.Reset?
    requires Resumed(before.View(b), b, req, log, state.For(b)) == Account(map[0 := tx], map[], 0)
    ensures now.View(b) == Account(map[0 := tx], map[], 1)
    ensures Lossless(Resumed(before.View(b), b, req, log, state.For(b)), state.For(b), LimitFor(b, {1}, 10))
  {
    hide Stepped, Limited, Promoted, Demoted, Resumed, Lossless, Payable, Snapshot.View, State.For, LimitFor;
    StepAt(before, now, goods, after, req, log, state, level, b);
    OnePending(tx, 0, state.For(b), LimitFor(b, {1}, 10), b in {1}, level, |now.View(b).queue|);
    LosslessNothing(Account(map[0 := tx], map[], 0), state.For(b), LimitFor(b, {1}, 10));
  }

  /** It is pending and executed: a reset drops it. */
  lemma StepExecuted(before: Snapshot, now: Snapshot, goods: Stock, after: Stock, req: Request, log: seq<Offering>, state: State, level: nat, tx: Tx)
    requires Stepped(before, now, goods, after, req, log, state, level) && state.For(0) == Funds(1, 100, 100) && req.Reset?
    requires Resumed(before.View(0), 0, req, log, state.For(0)) == Account(map[0 := tx], map[], 1)
    ensures now.View(0) == Account(map[], map[], 1)
    ensures Lossless(Resumed(before.View(0), 0, req, log, state.For(0)), state.For(0), LimitFor(0, {1}, 10))
  {
    hide Stepped, Limited, Promoted, Demoted, Resumed, Lossless, Snapshot.View, State.For, LimitFor;
    StepAt(before, now, goods, after, req, log, state, level, 0);
    OneExecuted(tx, state.For(0), LimitFor(0, {1}, 10), level, |now.View(0).queue|);
    LosslessNothing(Account(map[0 := tx], map[], 1), state.For(0), LimitFor(0, {1}, 10));
  }

  lemma NoOfferFor(acc: Account, b: Address, req: Request, log: seq<Offering>, f: Funds)
    requires Others(log, b)
    ensures Resumed(acc, b, req, log, f) == if req.Reset? && req.taken then acc.(next := f.nonce) else acc
  {
    hide Reinjected, Others;
    NotOffered(acc.(next := f.nonce), b, log);
  }

  /** What a reorganisation makes of the pool when promotion drops nothing and the log evicts nothing. */
  lemma SteppedQuietly(before: Snapshot, now: Snapshot, goods: Stock, after: Stock, req: Request, log: seq<Offering>, state: State, level: nat)
    requires Stepped(before, now, goods, after, req, log, state, level)
    requires goods.tally.stales == 0 && |goods.all| + |Given(req)| <= 2
    requires forall b: Address :: b > 1 ==> Empty(before.View(b)) && Others(log, b)
    requires Lossless(Resumed(before.View(0), 0, req, log, state.For(0)), state.For(0), LimitFor(0, {1}, 10))
    requires Lossless(Resumed(before.View(1), 1, req, log, state.For(1)), state.For(1), LimitFor(1, {1}, 10))
    ensures forall b: Address :: b > 1 ==> Empty(now.View(b))
    ensures StockLogged(goods, after, Given(req), log, 4, {1}, true)
  {
    assert goods.tally.Calm();
    hide Reorganised, Resumed, Limited, Lossless, Others, Empty, Snapshot.View, StockLogged, PricedList.Tally.Calm, QuietReorg, LogOk;
    forall b: Address | b > 1 ensures now.View(b) == Limited(Reorganised(before.View(b), b, req, log, state.For(b), Some(10)), false, level, |now.View(b).queue|) {
      assert LimitFor(b, {1}, 10) == Some(10);
    }
    OthersAfter(before, now, req, log, state, level);
  }

  method PromoteBoth(pool: TxPool, l: Tx, a: Tx, c: Tx)
    requires Trio(l, a, c) && pool.Valid() && TightPool(pool, l, a, c) && pool.all.All() == map[10 := l, 20 := a]
    requires Holding(pool, 0, Account(map[], map[0 := a], 0), Account(map[], map[0 := l], 0), multiset{a})
    modifies pool, pool.priced
    ensures pool.Valid() && TightPool(pool, l, a, c) && pool.all.All() == map[10 := l, 20 := a]
    ensures Holding(pool, 0, Account(map[0 := a], map[], 1), Account(map[0 := l], map[], 1), multiset{a})
  {
    hide TxPool.Valid, Lookup.All, At, TxPool.SoundPool, Stepped, Empty, LocalOnes, PricedList.TxPricedList.View, TrioMeant;
    var req := Promote({0, 1});
    ghost var before, goods := pool.Snap(), pool.Goods();
    Before(pool, before);
    SlotsAreFour(pool, l, a);
    NoLocals([]);
    ghost var log, level;
    log, level := Settle(pool, req, l, a, c);
    PromotedBoth(before, pool.Snap(), goods, pool.Goods(), req, log, pool.StateOf(), level, l, a);
    NowHolding(pool, 0, Account(map[0 := a], map[], 1), Account(map[0 := l], map[], 1), multiset{a});
    Known(pool, l, a, c, true);
  }

  lemma Before(pool: TxPool, before: Snapshot)
    requires before == pool.Snap() && forall b: Address :: b > 1 ==> Empty(pool.Acc(b))
    ensures before.View(0) == pool.Acc(0) && before.View(1) == pool.Acc(1) && forall b: Address :: b > 1 ==> Empty(before.View(b))
  {
    hide Empty, At;
    forall b: Address | b > 1 ensures Empty(before.View(b)) { assert Empty(pool.Acc(b)); }
  }

  lemma PromotedBoth(before: Snapshot, now: Snapshot, goods: Stock, after: Stock, req: Request, log: seq<Offering>, state: State, level: nat,
                     l: Tx, a: Tx)
    requires Stepped(before, now, goods, after, req, log, state, level) && req == Promote({0, 1})
    requires l == Plain(10, 1, 0, 0, 40000) && a == Plain(20, 0, 0, 0, 40000) && goods.all == map[10 := l, 20 := a]
    requires before.View(0) == Account(map[], map[0 := a], 0) && before.View(1) == Account(map[], map[0 := l], 0)
    requires forall b: Address :: b > 1 ==> Empty(before.View(b))
    requires state.For(0) == state.For(1) == Funds(0, 100, 100) && goods.tally == PricedList.Tally(multiset{a}, 0) && goods.slots == 4
    ensures now.View(0) == Account(map[0 := a], map[], 1) && now.View(1) == Account(map[0 := l], map[], 1)
    ensures forall b: Address :: b > 1 ==> Empty(now.View(b))
    ensures after.tally == goods.tally
  {
    PlainIs(a, 0);
    PlainIs(l, 0);
    SizeOf(goods.all, l, a);
    StepAt(before, now, goods, after, req, log, state, level, 0);
    NoOffers(log);
    hide *;
    NoOfferFor(before.View(0), 0, req, log, state.For(0));
    NoOfferFor(before.View(1), 1, req, log, state.For(1));
    StepQueued(before, now, goods, after, req, log, state, level, 0, a);
    StepQueued(before, now, goods, after, req, log, state, level, 1, l);
    SteppedQuietly(before, now, goods, after, req, log, state, level);
    SameTally(goods, after, log, 4, {1}, true);
  }

  lemma NowHolding(pool: TxPool, nonce: nat, acc0: Account, acc1: Account, entries: multiset<Tx>)
    requires pool.nonceOf(0) == nonce && pool.Acc(0) == acc0 && pool.Acc(1) == acc1 && forall b: Address :: b > 1 ==> Empty(pool.Snap().View(b))
    requires pool.priced.View() == PricedList.Tally(entries, 0)
    ensures Holding(pool, nonce, acc0, acc1, entries)
  {
    hide Empty, At;
    forall b: Address | b > 1 ensures Empty(pool.Acc(b)) { assert Empty(pool.Snap().View(b)); }
  }

  lemma NoOffers(log: seq<Offering>)
    requires log == []
    ensures forall b: Address :: Others(log, b)
  {
  }

  lemma SlotsAreFour(pool: TxPool, l: Tx, a: Tx)
    requires pool.Valid() && pool.all.All() == map[10 := l, 20 := a] && l.size == a.size == 40000 && l.hash == 10 && a.hash == 20
    ensures pool.all.slots == 4
  {
    hide SlotSum, Lookup.All;
    pool.ValidParts();
    SlotsAre(pool.all);
    SlotsOfSize(l);
    SlotsOfSize(a);
    SumOfTwo(l, a);
  }

  lemma SizeOf(all: map<Hash, Tx>, l: Tx, a: Tx)
    ensures (all == map[10 := l, 20 := a] ==> |all| == 2) && (all == map[10 := l] ==> |all| == 1)
  {
    if all == map[10 := l] {
      assert all.Keys == {10};
    } else if all == map[10 := l, 20 := a] {
      assert all.Keys == {10, 20};
    }
  }

  lemma SameTally(before: Stock, after: Stock, log: seq<Offering>, limit: nat, locals: set<Address>, quiet: bool)
    requires StockLogged(before, after, [], log, limit, locals, quiet) && quiet && log == [] && before.slots <= limit
    ensures after.tally == before.tally && after.localTxs <= before.localTxs
  {
    assert before.tally.entries + multiset{} == before.tally.entries;
    assert LocalOnes([], locals) == {};
  }

  /** The local transaction is known, the remote one if it is `there`, and the third is not. */
  lemma Known(pool: TxPool, l: Tx, a: Tx, c: Tx, there: bool)
    requires pool.Valid() && Trio(l, a, c) && TightPool(pool, l, a, c)
    requires pool.Acc(0).pending == (if there then map[0 := a] else map[]) && pool.Acc(0).queue == map[]
    requires pool.Acc(1).pending == map[0 := l] && Empty(pool.Acc(2))
    ensures pool.all.All() == if there then map[10 := l, 20 := a] else map[10 := l]
    ensures pool.all.slots == if there then 4 else 2
  {
    hide TxPool.Valid, Lookup.All, TxPool.Acc, SlotSum;
    KnownIff(pool, l);
    KnownIff(pool, a);
    KnownIff(pool, c);
    forall h | h in pool.all.All() ensures h == 10 || (there && h == 20) { Meaningful(pool, h); }
    assert pool.all.All() == if there then map[10 := l, 20 := a] else map[10 := l];
    SlotsOfSize(l);
    SlotsOfSize(a);
    SumOfOne(l);
    SumOfTwo(l, a);
  }

  /** A head executes the remote transaction; its entry stays. */
  method Execute(pool: TxPool, l: Tx, a: Tx, c: Tx)
    requires Trio(l, a, c) && pool.Valid() && TightPool(pool, l, a, c) && pool.all.All() == map[10 := l, 20 := a]
    requires Holding(pool, 0, Account(map[0 := a], map[], 1), Account(map[0 := l], map[], 1), multiset{a})
    modifies pool, pool.priced
    ensures pool.Valid() && TightPool(pool, l, a, c) && pool.all.All() == map[10 := l]
    ensures Holding(pool, 1, Account(map[], map[], 1), Account(map[0 := l], map[], 1), multiset{a})
  {
    hide TxPool.Valid, Lookup.All, At, TxPool.SoundPool, Stepped, Empty, LocalOnes, PricedList.TxPricedList.View, TrioMeant;
    var req := Reset(Head(b => if b == 0 then 1 else 0, _ => 100, 100, []), true);
    ghost var before, goods := pool.Snap(), pool.Goods();
    Before(pool, before);
    SlotsAreFour(pool, l, a);
    NoLocals([]);
    ghost var log, level;
    log, level := Settle(pool, req, l, a, c);
    Executed(before, pool.Snap(), goods, pool.Goods(), req, log, pool.StateOf(), level, l, a);
    NowHolding(pool, 1, Account(map[], map[], 1), Account(map[0 := l], map[], 1), multiset{a});
    Known(pool, l, a, c, false);
  }

  lemma NoLocals(txs: seq<Tx>)
    requires forall tx :: tx in txs ==> tx.from != 1
    ensures LocalOnes(txs, {1}) == {}
  {
  }

  lemma Executed(before: Snapshot, now: Snapshot, goods: Stock, after: Stock, req: Request, log: seq<Offering>, state: State, level: nat,
                 l: Tx, a: Tx)
    requires Stepped(before, now, goods, after, req, log, state, level) && req.Reset? && req.taken && Given(req) == []
    requires l == Plain(10, 1, 0, 0, 40000) && goods.all == map[10 := l, 20 := a]
    requires before.View(0) == Account(map[0 := a], map[], 1) && before.View(1) == Account(map[0 := l], map[], 1)
    requires forall b: Address :: b > 1 ==> Empty(before.View(b))
    requires state.For(0) == Funds(1, 100, 100) && state.For(1) == Funds(0, 100, 100) && goods.tally == PricedList.Tally(multiset{a}, 0) && goods.slots == 4
    ensures now.View(0) == Account(map[], map[], 1) && now.View(1) == Account(map[0 := l], map[], 1)
    ensures forall b: Address :: b > 1 ==> Empty(now.View(b))
    ensures after.tally == goods.tally
  {
    PlainIs(l, 0);
    SizeOf(goods.all, l, a);
    StepAt(before, now, goods, after, req, log, state, level, 0);
    NoOffers(log);
    hide *;
    NoOfferFor(before.View(0), 0, req, log, state.For(0));
    NoOfferFor(before.View(1), 1, req, log, state.For(1));
    StepExecuted(before, now, goods, after, req, log, state, level, a);
    StepPending(before, now, goods, after, req, log, state, level, 1, l);
    SteppedQuietly(before, now, goods, after, req, log, state, level);
    SameTally(goods, after, log, 4, {1}, true);
  }

  /** The next head gives it back, which enters it again. */
  method Revert(pool: TxPool, l: Tx, a: Tx, c: Tx)
    requires Trio(l, a, c) && pool.Valid() && TightPool(pool, l, a, c) && pool.all.All() == map[10 := l]
    requires Holding(pool, 1, Account(map[], map[], 1), Account(map[0 := l], map[], 1), multiset{a})
    modifies pool, pool.priced
    ensures pool.Valid() && TightPool(pool, l, a, c) && pool.all.All() == map[10 := l, 20 := a]
    ensures Holding(pool, 0, Account(map[0 := a], map[], 1), Account(map[0 := l], map[], 1), multiset{a, a})
  {
    hide TxPool.Valid, Lookup.All, At, TxPool.SoundPool, Stepped, Empty, LocalOnes, PricedList.TxPricedList.View;
    var head := Head(_ => 0, _ => 100, 100, [a]);
    var req := Reset(head, true);
    ghost var before, goods := pool.Snap(), pool.Goods();
    Before(pool, before);
    SlotsAreTwo(pool, l);
    NoLocals([a]);
    ghost var log, level;
    log, level := Settle(pool, req, l, a, c);
    Reverted(before, pool.Snap(), goods, pool.Goods(), head, log, pool.StateOf(), level, l, a);
    NowHolding(pool, 0, Account(map[0 := a], map[], 1), Account(map[0 := l], map[], 1), multiset{a, a});
    Known(pool, l, a, c, true);
  }

  lemma Reverted(before: Snapshot, now: Snapshot, goods: Stock, after: Stock, h: Head, log: seq<Offering>, state: State, level: nat, l: Tx, a: Tx)
    requires Stepped(before, now, goods, after, Reset(h, true), log, state, level) && h.reinject == [a]
    requires l == Plain(10, 1, 0, 0, 40000) && a == Plain(20, 0, 0, 0, 40000) && goods.all == map[10 := l]
    requires before.View(0) == Account(map[], map[], 1) && before.View(1) == Account(map[0 := l], map[], 1)
    requires forall b: Address :: b > 1 ==> Empty(before.View(b))
    requires state == State(h.nonceOf, h.balanceOf, h.maxGas) && state.For(0) == state.For(1) == Funds(0, 100, 100)
    requires goods.tally == PricedList.Tally(multiset{a}, 0) && goods.slots == 2
    ensures now.View(0) == Account(map[0 := a], map[], 1) && now.View(1) == Account(map[0 := l], map[], 1)
    ensures forall b: Address :: b > 1 ==> Empty(now.View(b))
    ensures after.tally == PricedList.Tally(multiset{a, a}, 0)
  {
    PlainIs(l, 0);
    PlainIs(a, 0);
    SlotsOfSize(a);
    SizeOf(goods.all, l, a);
    var start := Snapshot(before.pending, before.queue, map[], state.nonceOf);
    assert start.View(0) == Account(map[], map[], 0);
    StepAt(before, now, goods, after, Reset(h, true), log, state, level, 0);
    RevertLog(start, goods.all, h, log, l, a, false);
    assert Resumed(before.View(0), 0, Reset(h, true), log, state.For(0)) == Account(map[], map[0 := a], 0);
    hide *;
    NoOfferFor(before.View(1), 1, Reset(h, true), log, state.For(1));
    StepQueued(before, now, goods, after, Reset(h, true), log, state, level, 0, a);
    StepPending(before, now, goods, after, Reset(h, true), log, state, level, 1, l);
    SteppedQuietly(before, now, goods, after, Reset(h, true), log, state, level);
    OneMoreEntry(goods, after, log, a, 4, true);
  }

  lemma SlotsAreTwo(pool: TxPool, l: Tx)
    requires pool.Valid() && pool.all.All() == map[10 := l] && l.size == 40000 && l.hash == 10
    ensures pool.all.slots == 2
  {
    hide SlotSum, Lookup.All;
    pool.ValidParts();
    SlotsAre(pool.all);
    SlotsOfSize(l);
    SumOfOne(l);
  }

  lemma RevertLog(start: Snapshot, all: map<Hash, Tx>, h: Head, log: seq<Offering>, l: Tx, a: Tx, plain: bool)
    requires l == Plain(10, 1, 0, 0, 40000) && a == Plain(20, 0, 0, 0, 40000)
    requires all == map[10 := l] && start.View(0) == Account(map[], map[], 0)
    requires h.nonceOf(0) == 0 && h.balanceOf(0) == 100 && h.maxGas == 100 && h.reinject == [a] && |log| == 1
    requires LogOk(start, all, h, log, 4, {1}, plain)
    ensures log == [Offering(a, Accepted(false), [])] && (forall b: Address :: b != 0 ==> Others(log, b))
    ensures Reinjected(start.View(0), 0, log) == Account(map[], map[0 := a], 0)
  {
    hide Reinjected, LookupAt, SlotSum, PricedList.SlotsOf, LogOk, OfferOutcome, Offered, Admissible, EvictedFrom, LookupAfter;
    FirstLogged(start, all, h, log, 4, {1}, plain);
    SumOfOne(l);
    SlotsOfSize(l);
    SlotsOfSize(a);
    PlainIs(a, 0);
    NoneEvicted(start.View(0), 0, []);
    OfferedNew(all, start.View(0), a);
    assert log[0] == Offering(a, Accepted(false), []);
  }

  lemma OneMoreEntry(before: Stock, after: Stock, log: seq<Offering>, a: Tx, limit: nat, quiet: bool)
    requires StockLogged(before, after, [a], log, limit, {1}, quiet) && quiet && log == [Offering(a, Accepted(false), [])]
    requires before.slots + a.Slots() <= limit && a.from == 0 && before.tally.entries == multiset{a}
    ensures after.tally == PricedList.Tally(multiset{a, a}, before.tally.stales) && after.localTxs <= before.localTxs
  {
    OneEntered(a, log);
    NoLocals([a]);
    assert before.tally.entries + multiset{a} == multiset{a, a};
    hide PricedList.SlotsOf, LocalOnes, Entering, Tx.Slots, Single;
    assert NoneReplaced(log);
  }

  lemma OneEntered(a: Tx, log: seq<Offering>)
    requires log == [Offering(a, Accepted(false), [])] && a.from == 0
    ensures PricedList.SlotsOf([a]) == a.Slots() && Entering(log, {1}) == multiset{a}
  {
    hide Tx.Slots;
    assert [a][..0] == [];
    assert log == [] + [log[0]];
    EnteringNext([], log[0], {1});
  }

  /** An offer of three slots is accepted. */
  method Overfill(pool: TxPool, l: Tx, a: Tx, c: Tx)
    requires Trio(l, a, c) && pool.Valid() && TightPool(pool, l, a, c) && pool.all.All() == map[10 := l, 20 := a]
    requires Holding(pool, 0, Account(map[0 := a], map[], 1), Account(map[0 := l], map[], 1), multiset{a, a})
    modifies pool, pool.priced
    ensures pool.Valid() && pool.all.slots == 5 && pool.globalSlots + pool.globalQueue == 4
  {
    hide TxPool.Valid, Lookup.All, Lookup.Ok, At, TxPool.SoundPool, LookupAfter, AfterOffer, StockAdded, SlotSum, Evictions, PricedList.SlotsOf,
      PricedList.LiveSlots, EvictedFrom, OfferOutcome, TxPool.Validates, Empty;
    ghost var acc, lookup, entries := pool.Acc(2), pool.all, pool.priced.Entries();
    SlotsAreFour(pool, l, a);
    SlotsOfSize(c);
    PlainFits(pool, c, 0);
    RemoteSide(pool, l, a, c);
    TwoEntries(a, lookup.remotes);
    SlotsOfSize(a);
    var r;
    ghost var evicted;
    r, evicted := pool.Add(c, false);
    Overfilled(lookup.All(), acc, Offering(c, r, evicted), lookup.remotes, entries, l, a);
    pool.ValidParts();
    SlotsAre(pool.all);
  }

  /** The remote side is the twice entered transaction. */
  lemma RemoteSide(pool: TxPool, l: Tx, a: Tx, c: Tx)
    requires pool.Valid() && Trio(l, a, c) && TightPool(pool, l, a, c) && pool.all.All() == map[10 := l, 20 := a]
    requires pool.priced.Entries() == multiset{a, a}
    ensures pool.all.remotes == map[20 := a]
  {
    hide TxPool.Valid, Partition, Lookup.All, TrioMeant, PricedList.TxPricedList.Valid;
    pool.ValidParts();
    RemoteSideIs(pool.all, l, a);
  }

  lemma RemoteSideIs(all: Lookup, l: Tx, a: Tx)
    requires all.All() == map[10 := l, 20 := a] && l != a && all.locals.Keys <= {10}
    requires forall h :: h in all.remotes ==> all.remotes[h] in multiset{a, a}
    requires all.Ok()
    ensures all.remotes == map[20 := a]
  {
    assert 20 in all.All();
    forall h | h in all.remotes ensures h == 20 && all.remotes[h] == a {
      assert h in all.All() && all.All()[h] == all.remotes[h];
    }
  }

  lemma Overfilled(all: map<Hash, Tx>, acc: Account, o: Offering, remotes: map<Hash, Tx>, entries: multiset<Tx>, l: Tx, a: Tx)
    requires l == Plain(10, 1, 0, 0, 40000) && a == Plain(20, 0, 0, 0, 40000) && o.tx == Plain(30, 2, 0, 0, 70000)
    requires all == map[10 := l, 20 := a] && remotes == map[20 := a] && Empty(acc) && o.Reached()
    requires Evictions(o.evicted, remotes, entries, 3) && PricedList.SlotsOf(o.evicted) >= 3
    requires o.outcome == OfferOutcome(EvictedFrom(acc, 2, o.evicted), o.tx)
    ensures SlotSum(LookupAfter(all, acc, o)) == 5
  {
    hide SlotSum, PricedList.SlotsOf;
    forall i | 0 <= i < |o.evicted| ensures o.evicted[i] == a { assert o.evicted[i].hash in remotes; }
    SomeEvicted(o.evicted);
    NothingToEvict(acc, 2, o.evicted, a);
    assert HashesOf(o.evicted) == {20} by { assert o.evicted[0] == a; }
    assert LookupAfter(all, acc, o) == map[10 := l, 30 := o.tx];
    SlotsOfSize(l);
    SlotsOfSize(o.tx);
    SumOfTwo(l, o.tx);
  }

  lemma TwoEntries(a: Tx, remotes: map<Hash, Tx>)
    requires a.hash in remotes
    ensures PricedList.LiveSlots(multiset{a, a}, remotes) == 2 * a.Slots()
  {
    PricedList.LiveSlotsWithout(multiset{a, a}, a, remotes);
    assert multiset{a, a} - multiset{a} == multiset{a};
    PricedList.LiveSlotsWithout(multiset{a}, a, remotes);
    assert multiset{a} - multiset{a} == multiset{};
  }

  lemma SumOfTwo(x: Tx, y: Tx)
    requires x.hash != y.hash
    ensures SlotSum(map[x.hash := x, y.hash := y]) == x.Slots() + y.Slots()
  {
    SumOfOne(x);
    var one := map[x.hash := x];
    assert Weights(one[y.hash := y]) == Weights(one)[y.hash := y.Slots()];
    Sums.SumUpdate(Weights(one), y.hash, y.Slots());
    assert one[y.hash := y] == map[x.hash := x, y.hash := y];
  }

  lemma SumOfOne(x: Tx)
    ensures SlotSum(map[x.hash := x]) == x.Slots()
  {
    var none: map<Hash, Tx> := map[];
    assert Weights(none) == map[];
    assert Weights(none[x.hash := x]) == Weights(none)[x.hash := x.Slots()];
    Sums.SumUpdate(Weights(none), x.hash, x.Slots());
    assert none[x.hash := x] == map[x.hash := x];
  }

  lemma {:induction false} NothingToEvict(acc: Account, a: Address, drop: seq<Tx>, victim: Tx)
    requires victim.from != a && forall i :: 0 <= i < |drop| ==> drop[i] == victim
    ensures EvictedFrom(acc, a, drop) == acc
  {
    if drop != [] {
      NothingToEvict(acc, a, drop[..|drop| - 1], victim);
    }
  }

  /** The run at `lo` that promotion makes of a gapless queue. */
  lemma PromotesAll(queue: Txs, lo: nat, hi: nat, f: Funds, limit: Option<nat>, level: nat, q: nat)
    requires f.nonce == lo < hi && Exactly(queue, lo, hi) && hi - lo <= level
    requires forall n :: n in queue ==> Payable(queue[n], f.balance, f.maxGas)
    ensures var acc := Limited(Promoted(Account(map[], queue, lo), f, limit), false, level, q);
            acc.pending == queue && acc.queue == map[] && acc.next == hi
  {
    hide Eligible, Payable, Rank, Ready, NotReady;
    var e := Eligible(queue, f);
    forall n ensures (n in e <==> n in queue) && (n in e ==> e[n] == queue[n]) {
      if n >= 0 { EligibleIs(queue, f, n); }
    }
    assert e == queue;
    AllReady(queue, lo, hi);
    var p := Promoted(Account(map[], queue, lo), f, limit);
    assert p.pending == queue;
    assert p.queue == map[];
    AllBelowLevel(queue, lo, hi, level);
    PastRun(queue, lo, hi, lo);
    LimitedParts(p, false, level, q);
    PastRun(queue, lo, hi, p.next);
  }

  lemma AllReady(m: Txs, lo: nat, hi: nat)
    requires Exactly(m, lo, hi) && lo < hi
    ensures Ready(m, lo) == m && NotReady(m, lo) == map[]
  {
    assert lo in m;
  }

  lemma AllBelowLevel(m: Txs, lo: nat, hi: nat, level: nat)
    requires Exactly(m, lo, hi) && hi - lo <= level
    ensures Lowest(m, level) == m
  {
    forall n | n in m ensures Rank(m, n) < level { RankInRun(m, lo, hi, n); }
  }

  lemma PastRun(m: Txs, lo: nat, hi: nat, otherwise: nat)
    requires Exactly(m, lo, hi) && lo < hi
    ensures PastOr(m, otherwise) == hi
  {
    assert hi - 1 in m;
    var p := PastOr(m, otherwise);
    assert p - 1 in m;
  }
}
