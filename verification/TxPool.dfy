/**
 The transaction pool (core/tx_pool.go). Every method runs under the pool lock, so each is
 one step of a run. `Valid` says that pending, queue, lookup and eviction list agree; the
 per-account effect of each step is given by the functions of `PoolAccounts`.
 */
module Pool {
  import opened Common
  import opened Transactions
  import opened SortedMap
  import opened AccountLists
  import opened PoolState
  import opened PoolAccounts
  import opened PoolFairness
  import opened PoolOffers
  import PricedList
  import Sorting
  import Sums

  /** The map a listing stands for. */
  ghost function MapOf(s: seq<Tx>): Txs {
    if s == [] then map[] else MapOf(s[..|s| - 1])[s[|s| - 1].nonce := s[|s| - 1]]
  }

  lemma {:induction false} MapOfListing(s: seq<Tx>)
    requires forall i, j :: 0 <= i < j < |s| ==> s[i].nonce != s[j].nonce
    ensures forall n :: n in MapOf(s) <==> n in NoncesOf(s)
    ensures forall i :: 0 <= i < |s| ==> s[i].nonce in MapOf(s) && MapOf(s)[s[i].nonce] == s[i]
  {
    if s != [] {
      var t := s[..|s| - 1];
      MapOfListing(t);
      assert NoncesOf(s) == NoncesOf(t) + {s[|s| - 1].nonce};
      assert forall i :: 0 <= i < |t| ==> t[i] == s[i];
    }
  }

  lemma MapOfListed(s: seq<Tx>, m: Txs)
    requires Transactions.Lists(s, m) && Keyed(m)
    ensures MapOf(s) == m
  {
    MapOfListing(s);
    ListingLength(s, m);
    forall n | n in m ensures MapOf(s)[n] == m[n] {
      var i :| 0 <= i < |s| && s[i].nonce == n;
    }
  }

  ghost function Hashes(s: set<Tx>): set<Hash> {
    set tx | tx in s :: tx.hash
  }

  lemma HashesOfListing(s: seq<Tx>, m: Txs)
    requires Transactions.Lists(s, m)
    ensures HashesOf(s) == Hashes(m.Values)
  {
    forall h | h in HashesOf(s) ensures h in Hashes(m.Values) {
      var i :| 0 <= i < |s| && s[i].hash == h;
      assert s[i] in m.Values;
    }
    forall tx | tx in m.Values ensures tx.hash in HashesOf(s) {
      var n :| n in m && m[n] == tx;
      var i :| 0 <= i < |s| && s[i] == m[n];
    }
  }

  lemma AddToBook(m: Book, tx: Tx, strict: bool)
    requires BookOk(m, strict) && At(m, tx.from, strict).Accepts(tx)
    ensures BookOk(m[tx.from := At(m, tx.from, strict).Add(tx)], strict)
  {
    hide List.Ok;
    AtOk(m, tx.from, strict);
    AddKeepsOk(At(m, tx.from, strict), tx);
    var l := At(m, tx.from, strict).Add(tx);
    assert tx.nonce in l.txs;
  }

  /** One locked step of the pool: a transaction arrives, the pool is reorganised or an idle account is evicted. */
  datatype Step =
    | Offer(tx: Tx, local: bool)
    | Reorg(req: Request, beat: Address -> int)
    | EvictIdle(beat: Address -> int, now: int, lifetime: int)

  /**
   A run along which the chain goes forward: from head to head, given-up ones included, no state nonce
   goes down, and what a head gives back had been executed at the head before it.
   */
  ghost predicate ForwardRun(steps: seq<Step>, chain: Address -> nat) {
    steps != [] ==> ForwardStep(steps[0], chain) && ForwardRun(steps[1..], ChainAfter(steps[0], chain))
  }

  ghost predicate ForwardStep(step: Step, chain: Address -> nat) {
    step.Reorg? && step.req.Reset? ==> ForwardHead(step.req.head, chain)
  }

  /** The state nonces of the chain after a step. */
  ghost function ChainAfter(step: Step, chain: Address -> nat): Address -> nat {
    if step.Reorg? && step.req.Reset? then step.req.head.nonceOf else chain
  }

  ghost predicate NotAhead(nonceOf: Address -> nat, chain: Address -> nat) {
    forall a: Address :: nonceOf(a) <= chain(a)
  }

  ghost predicate ForwardHead(h: Head, chain: Address -> nat) {
    && (forall a: Address :: chain(a) <= h.nonceOf(a))
    && (forall i :: 0 <= i < |h.reinject| ==> h.reinject[i].nonce < chain(h.reinject[i].from))
  }

  /** The pool's state may lag behind the chain; such a head is forward for it all the same. */
  lemma ForwardForPool(req: Request, chain: Address -> nat, nonceOf: Address -> nat)
    requires req.Reset? ==> ForwardHead(req.head, chain)
    requires NotAhead(nonceOf, chain)
    ensures Forward(req, nonceOf)
  {
    if req.Reset? && req.taken {
      forall a: Address ensures nonceOf(a) <= req.head.nonceOf(a) { assert nonceOf(a) <= chain(a); }
    }
  }

  lemma StillNotAhead(step: Step, req: Request, prior: Address -> nat, nonceOf: Address -> nat, chain: Address -> nat)
    requires step.Reorg? && step.req == req && nonceOf == if req.Reset? && req.taken then req.head.nonceOf else prior
    ensures NotAhead(prior, chain) && ForwardStep(step, chain) ==> NotAhead(nonceOf, ChainAfter(step, chain))
  {
    if NotAhead(prior, chain) && ForwardStep(step, chain) && req.Reset? && !req.taken {
      forall a: Address ensures nonceOf(a) <= req.head.nonceOf(a) { assert prior(a) <= chain(a); }
    }
  }

  /** The transactions a step offers to the pool. */
  ghost function StepOffers(step: Step): seq<Tx> {
    match step
    case Offer(tx, _) => [tx]
    case Reorg(req, _) => Given(req)
    case EvictIdle(_, _, _) => []
  }

  ghost function Offers(steps: seq<Step>): seq<Tx> {
    if steps == [] then [] else Offers(steps[..|steps| - 1]) + StepOffers(steps[|steps| - 1])
  }

  ghost predicate LocalOffer(step: Step) {
    step.Offer? && step.local
  }

  ghost predicate NoLocalOffers(steps: seq<Step>) {
    forall i :: 0 <= i < |steps| ==> !LocalOffer(steps[i])
  }

  lemma NoLocalMore(steps: seq<Step>, i: nat)
    requires i < |steps|
    ensures NoLocalOffers(steps[..i + 1]) <==> NoLocalOffers(steps[..i]) && !LocalOffer(steps[i])
  {
    var more := steps[..i + 1];
    assert more[i] == steps[i] && forall j :: 0 <= j < i ==> more[j] == steps[..i][j];
  }

  /** The stock after `txs` were offered: only they are entered, and if none is entered twice a `plain` pool stays within its limit. */
  ghost predicate StockTaken(before: Stock, after: Stock, txs: seq<Tx>, plain: bool, limit: nat) {
    && after.entered <= before.entered + multiset(txs)
    && (plain && Single(before.entered + multiset(txs)) && before.slots <= limit ==> after.slots <= limit)
  }

  lemma TakenNothingYet(goods: Stock, plain: bool, limit: nat)
    ensures StockTaken(goods, goods, [], plain, limit)
  {
  }

  lemma TakenNothing(before: Stock, after: Stock, plain: bool, limit: nat)
    requires StockShrunk(before, after, false)
    ensures StockTaken(before, after, [], plain, limit)
  {
  }

  lemma TakenOffer(before: Stock, after: Stock, remotes: map<Hash, Tx>, acc: Account, o: Offering, limit: nat, local: bool, known: bool)
    requires StockAdded(before, after, remotes, acc, o, limit, local, known)
    requires Single(before.entered) ==> Undoubled(before.tally.entries, remotes)
    ensures StockTaken(before, after, [o.tx], !local && !known, limit)
  {
    hide PricedList.KeepsLive, SlotsAt, Leaving, Undoubled;
    assert multiset([o.tx]) == multiset{o.tx};
    SingleParts(before.entered, multiset([o.tx]), multiset{}, after.entered);
    assert before.entered + multiset{} == before.entered;
  }

  lemma TakenWeaker(before: Stock, after: Stock, txs: seq<Tx>, plain: bool, less: bool, limit: nat)
    requires StockTaken(before, after, txs, plain, limit) && (less ==> plain)
    ensures StockTaken(before, after, txs, less, limit)
  {
  }

  lemma TakenLog(before: Stock, after: Stock, txs: seq<Tx>, log: seq<Offering>, limit: nat, locals: set<Address>, quiet: bool)
    requires StockLogged(before, after, txs, log, limit, locals, quiet)
    ensures StockTaken(before, after, txs, locals == {}, limit)
  {
    hide PricedList.SlotsOf, Entering, Single, LocalOnes, NoneReplaced;
  }

  lemma TakenThen(start: Stock, before: Stock, after: Stock, txs: seq<Tx>, more: seq<Tx>, plain: bool, now: bool, both: bool, limit: nat)
    requires StockTaken(start, before, txs, plain, limit) && StockTaken(before, after, more, now, limit) && (both ==> plain && now)
    ensures StockTaken(start, after, txs + more, both, limit)
  {
    hide Single;
    assert multiset(txs + more) == multiset(txs) + multiset(more);
    SingleParts(start.entered, multiset(txs + more), multiset(txs), before.entered + multiset(more));
  }

  lemma TakenSingle(before: Stock, after: Stock, l: Lookup, txs: seq<Tx>, plain: bool, limit: nat, meaning: Hash -> Tx)
    requires StockTaken(before, after, txs, plain, limit) && Covered(l, after.tally.entries, {}, after.localTxs, after.entered, meaning)
    ensures Single(before.entered + multiset(txs)) ==> Undoubled(after.tally.entries, l.remotes)
  {
    hide Covered, Undoubled, Single;
    SingleParts(before.entered, multiset(txs), multiset(txs), after.entered);
    SingleUndoubled(l, after.tally.entries, after.localTxs, after.entered, meaning);
  }

  lemma QueueDropped(acc: Account)
    ensures OnlyFrom(acc, acc) && OnlyFrom(acc.(queue := map[]), acc)
  {
  }

  /**
   Every remote transaction that is not just being evicted has an entry in the eviction list, which
   has no more entries than were `entered`; only `localTxs` are on the local side, and hashes mean the
   same transaction everywhere.
   */
  ghost predicate Covered(l: Lookup, entries: multiset<Tx>, evicting: set<Hash>, localTxs: set<Hash>, entered: multiset<Tx>, meaning: Hash -> Tx) {
    && (forall h :: h in l.remotes && h !in evicting ==> l.remotes[h] in entries)
    && entries <= entered && (forall h :: h in l.remotes ==> l.remotes[h] in entered)
    && l.locals.Keys <= localTxs
    && (forall h :: h in l.All() ==> meaning(h) == l.All()[h])
    && (forall tx :: tx in entries ==> meaning(tx.hash) == tx)
  }

  /** As `PoolState.AccountStep`, with the dropped transactions given as a set. */
  lemma AccountDrop(p: Book, q: Book, all: map<Hash, Tx>, a: Address, pl: List, ql: List, dropped: set<Tx>)
    requires Partition(p, q, all)
    requires OwnList(pl, a, true) && OwnList(ql, a, false) && pl.txs.Keys !! ql.txs.Keys
    requires forall tx: Tx :: Member(pl, tx) || Member(ql, tx) ==> Holds(p, tx) || Holds(q, tx)
    requires forall tx: Tx :: tx.from == a && (Holds(p, tx) || Holds(q, tx)) ==>
                                ((Member(pl, tx) || Member(ql, tx)) <==> tx !in dropped)
    requires forall tx: Tx :: tx in dropped ==> tx.from == a && (Holds(p, tx) || Holds(q, tx))
    ensures Partition(Store(p, a, pl), Store(q, a, ql), all - Hashes(dropped))
  {
    var gone := Hashes(dropped);
    forall tx: Tx | tx.from == a && (Holds(p, tx) || Holds(q, tx)) ensures tx.hash in gone <==> tx in dropped {
      if tx.hash in gone {
        var other :| other in dropped && other.hash == tx.hash;
        assert all[tx.hash] == tx == other;
      }
    }
    AccountStep(p, q, all, a, pl, ql, gone);
  }

  ghost predicate Part(m: Txs, whole: Txs) {
    forall n :: n in m ==> n in whole && m[n] == whole[n]
  }

  lemma PartValues(m: Txs, tx: Tx)
    requires Keyed(m)
    ensures tx in m.Values <==> tx.nonce in m && m[tx.nonce] == tx
  {
  }

  /** An account's transactions may be split anew between pending, queue and dropped. */
  lemma AccountSplit(p: Book, q: Book, all: map<Hash, Tx>, a: Address, pl: List, ql: List, dropped: Txs)
    requires Partition(p, q, all) && OwnList(pl, a, true) && OwnList(ql, a, false)
    requires var whole := At(p, a, true).txs + At(q, a, false).txs;
             && Part(pl.txs, whole) && Part(ql.txs, whole) && Part(dropped, whole)
             && pl.txs.Keys !! ql.txs.Keys !! dropped.Keys
             && whole.Keys == pl.txs.Keys + ql.txs.Keys + dropped.Keys
    ensures Partition(Store(p, a, pl), Store(q, a, ql), all - Hashes(dropped.Values))
  {
    hide BookOk, DisjointNonces, Matches, At, Store, Hashes, Holds;
    AtOk(p, a, true);
    AtOk(q, a, false);
    var whole := At(p, a, true).txs + At(q, a, false).txs;
    forall tx: Tx ensures tx in dropped.Values <==> tx.nonce in dropped && dropped[tx.nonce] == tx {
      PartValues(dropped, tx);
    }
    forall tx: Tx ensures (Holds(p, tx) || Holds(q, tx)) && tx.from == a <==> tx.nonce in whole && whole[tx.nonce] == tx {
      WholeHolds(p, q, a, tx);
    }
    AccountDrop(p, q, all, a, pl, ql, dropped.Values);
  }

  lemma WholeHolds(p: Book, q: Book, a: Address, tx: Tx)
    requires BookOk(p, true) && BookOk(q, false) && DisjointNonces(p, q)
    ensures var whole := At(p, a, true).txs + At(q, a, false).txs;
            (Holds(p, tx) || Holds(q, tx)) && tx.from == a <==> tx.nonce in whole && whole[tx.nonce] == tx
  {
  }

  /** Only account `a` may differ. */
  ghost predicate SameElsewhere(m: Book, m': Book, a: Address) {
    forall b :: b != a ==> (b in m <==> b in m') && (b in m ==> m[b] == m'[b])
  }

  lemma SameElsewhereSelf(m: Book, a: Address)
    ensures SameElsewhere(m, m, a)
  {
  }

  lemma SameElsewhereThen(m: Book, m': Book, m'': Book, a: Address)
    requires SameElsewhere(m, m', a) && SameElsewhere(m', m'', a)
    ensures SameElsewhere(m, m'', a)
  {
  }

  lemma StoredAt(m: Book, m': Book, a: Address, strict: bool)
    requires SameElsewhere(m, m', a) && BookOk(m', strict)
    ensures m' == Store(m, a, At(m', a, strict))
  {
  }

  lemma MapOfStart(q: Txs, s: seq<Tx>)
    ensures q + MapOf(s[..0]) == q
  {
  }

  lemma NextListed(q: Txs, s: seq<Tx>, m: Txs, i: nat)
    requires Transactions.Lists(s, m) && Keyed(m) && i < |s| && m.Keys !! q.Keys
    ensures s[i].nonce in m && m[s[i].nonce] == s[i]
    ensures s[i].nonce !in q + MapOf(s[..i])
    ensures q + MapOf(s[..i + 1]) == (q + MapOf(s[..i]))[s[i].nonce := s[i]]
  {
    MapOfPrefix(s, i);
  }

  lemma StoreSame(m: Book, a: Address, strict: bool)
    requires BookOk(m, strict)
    ensures Store(m, a, At(m, a, strict)) == m
  {
  }

  class TxPool {
    const accountSlots: nat
    const globalSlots: nat
    const accountQueue: nat
    const globalQueue: nat

    // the state at the current head
    var nonceOf: Address -> nat
    var balanceOf: Address -> nat
    var maxGas: nat

    var nonces: map<Address, nat>
    var locals: set<Address>
    var pending: Book
    var queue: Book
    var all: Lookup
    const priced: PricedList.TxPricedList

    /** Hashes that an eviction in progress has already taken off the eviction list. */
    ghost var evicting: set<Hash>
    /** The hashes of all transactions that were ever entered as local. */
    ghost var localTxs: set<Hash>
    /** How often each transaction was entered as a remote one. */
    ghost var entered: multiset<Tx>
    /** A hash stands for one transaction. */
    ghost const meaning: Hash -> Tx

    /** The virtual nonce, falling back to the state nonce. */
    function Next(a: Address): nat
      reads this`nonces, this`nonceOf
    {
      if a in nonces then nonces[a] else nonceOf(a)
    }

    ghost function Acc(a: Address): Account
      reads this`pending, this`queue, this`nonces, this`nonceOf
    {
      Account(At(pending, a, true).txs, At(queue, a, false).txs, Next(a))
    }

    ghost function FundsOf(a: Address): Funds
      reads this`nonceOf, this`balanceOf, this`maxGas
    {
      Funds(nonceOf(a), balanceOf(a), maxGas)
    }

    ghost predicate Indexed()
      reads this`all, this`evicting, this`localTxs, this`entered, priced
    {
      all.Ok() && priced.Valid() && Covered(all, priced.Entries(), evicting, localTxs, entered, meaning)
    }

    ghost predicate Valid()
      reads this`pending, this`queue, this`all, this`evicting, this`localTxs, this`entered, priced
    {
      accountSlots >= 1 && Indexed() && Partition(pending, queue, all.All())
    }

    lemma AccParts()
      ensures forall a :: Acc(a) == Account(At(pending, a, true).txs, At(queue, a, false).txs, Next(a))
    {
    }

    lemma SlotsPositive()
      requires Valid()
      ensures accountSlots >= 1
    {
    }

    lemma ValidParts()
      requires Valid()
      ensures Partition(pending, queue, all.All()) && all.Ok() && priced.Valid() && Covered(all, priced.Entries(), evicting, localTxs, entered, meaning)
    {
    }

    /**
     Every account's pending nonces are exactly those from its state nonce to its virtual
     nonce, and its sender can pay for everything pooled.
     */
    ghost predicate SoundPool()
      reads this`pending, this`queue, this`nonces, this`nonceOf, this`balanceOf, this`maxGas
    {
      forall a :: Sound(Acc(a), FundsOf(a))
    }

    ghost function StateOf(): State
      reads this`nonceOf, this`balanceOf, this`maxGas
    {
      State(nonceOf, balanceOf, maxGas)
    }

    lemma SoundIs()
      ensures SoundPool() <==> AllSound(Snap(), StateOf())
    {
      if SoundPool() {
        forall a: Address ensures Sound(Snap().View(a), StateOf().For(a)) { assert Sound(Acc(a), FundsOf(a)); }
      }
      if AllSound(Snap(), StateOf()) {
        forall a: Address ensures Sound(Acc(a), FundsOf(a)) { assert Sound(Snap().View(a), StateOf().For(a)); }
      }
    }

    constructor (accountSlots: nat, globalSlots: nat, accountQueue: nat, globalQueue: nat, locals: set<Address>,
                 nonceOf: Address -> nat, balanceOf: Address -> nat, maxGas: nat, ghost meaning: Hash -> Tx)
      requires accountSlots >= 1
      ensures Valid() && evicting == {} && SoundPool() && fresh(priced)
      ensures pending == map[] && queue == map[] && all.All() == map[] && nonces == map[] && all.slots == 0 && localTxs == {}
      ensures entered == multiset{} && priced.View() == PricedList.Tally(multiset{}, 0)
      ensures this.accountSlots == accountSlots && this.globalSlots == globalSlots
      ensures this.accountQueue == accountQueue && this.globalQueue == globalQueue && this.meaning == meaning
      ensures this.locals == locals && this.nonceOf == nonceOf && this.balanceOf == balanceOf && this.maxGas == maxGas
    {
      this.accountSlots, this.globalSlots := accountSlots, globalSlots;
      this.accountQueue, this.globalQueue := accountQueue, globalQueue;
      this.locals, this.nonceOf, this.balanceOf, this.maxGas := locals, nonceOf, balanceOf, maxGas;
      nonces, pending, queue, evicting := map[], map[], map[], {};
      localTxs, entered, this.meaning := {}, multiset{}, meaning;
      all := Lookup(map[], map[], 0);
      priced := new PricedList.TxPricedList();
      new;
      hide *;
      NothingPooled(this);
    }

    /** Takes a series of transactions out of the lookup. */
    method ForgetAll(txs: seq<Tx>)
      requires Indexed()
      modifies this`all
      ensures Indexed() && all.All() == old(all.All()) - HashesOf(txs)
      ensures all.remotes == old(all.remotes) - HashesOf(txs)
    {
      hide Lookup.Ok, Lookup.All, Lookup.Remove, Covered, HashesOf, PricedList.TxPricedList.Valid;
      NoHashesYet(txs, all.All());
      NoHashesYet(txs, all.remotes);
      for i := 0 to |txs|
        invariant Indexed() && all.All() == old(all.All()) - HashesOf(txs[..i])
        invariant all.remotes == old(all.remotes) - HashesOf(txs[..i])
      {
        LookupRemove(all, txs[i].hash);
        CoveredWithout(all, txs[i].hash, priced.Entries(), evicting, localTxs, entered, meaning);
        HashesPrefix(txs, i);
        all := all.Remove(txs[i].hash);
      }
      assert txs[..|txs|] == txs;
    }

    /** Reports removals to the eviction list, which may rebuild itself from the remote set. */
    method MarkRemoved(count: nat)
      requires Indexed()
      modifies priced
      ensures Indexed() && priced.View() == old(priced.View()).Reported(count, all.remotes)
    {
      hide Covered;
      RemotesKeyed(all);
      CoveredRebuilt(all, priced.Entries(), evicting, localTxs, entered, meaning);
      priced.Removed(count, all.remotes);
    }

    /** Puts a transaction into the lookup and, if remote, into the eviction list. */
    method Learn(tx: Tx, local: bool)
      requires Indexed() && tx.hash !in all.All() && meaning(tx.hash) == tx && (local ==> tx.hash in localTxs)
      modifies this`all, this`entered, priced
      ensures Indexed() && all.All() == old(all.All())[tx.hash := tx]
      ensures priced.View() == old(priced.View()).With(tx, !local) && entered == old(entered) + One(tx, !local)
    {
      hide Covered;
      LookupAdd(all, tx, local);
      CoveredWith(all, tx, local, priced.Entries(), evicting, localTxs, entered, meaning);
      all := all.Add(tx, local);
      entered := entered + One(tx, !local);
      priced.Put(tx, local);
    }

    /**
     Inserts into the account's queue. `addAll` is false when a pending transaction is moved
     back, in which case the lookup already has it.
     */
    method EnqueueTx(tx: Tx, local: bool, addAll: bool) returns (r: Outcome)
      requires Indexed() && BookOk(queue, false)
      requires addAll ==> tx.hash !in all.All() && meaning(tx.hash) == tx && (local ==> tx.hash in localTxs)
      modifies this`queue, this`all, (if addAll then {this} else {})`entered, priced
      ensures Indexed() && BookOk(queue, false) && entered == old(entered) + One(tx, r.Accepted? && addAll && !local)
      ensures r != Accepted(true) ==> priced.View() == old(priced.View()).With(tx, r.Accepted? && addAll && !local)
      ensures var l := At(old(queue), tx.from, false);
              if !l.Accepts(tx) then r == Underpriced && queue == old(queue) && all == old(all)
              else
                && r == Accepted(tx.nonce in l.txs)
                && queue == old(queue)[tx.from := l.Add(tx)]
                && all.All() == Exchange(old(all.All()), if tx.nonce in l.txs then {l.txs[tx.nonce].hash} else {}, tx, addAll)
                && (tx.nonce !in l.txs && !addAll ==> all == old(all))
    {
      hide Lookup.Ok, Lookup.All, Lookup.Remove, List.WithinCaps, Covered;
      var list := At(queue, tx.from, false);
      if !list.Accepts(tx) {
        return Underpriced;
      }
      AddToBook(queue, tx, false);
      var replaced := list.Replaced(tx);
      queue := queue[tx.from := list.Add(tx)];
      if replaced.Some? {
        LookupRemove(all, replaced.value.hash);
        CoveredWithout(all, replaced.value.hash, priced.Entries(), evicting, localTxs, entered, meaning);
        all := all.Remove(replaced.value.hash);
        MarkRemoved(1);
      } else {
        assert all.All() - {} == all.All();
      }
      if addAll {
        Learn(tx, local);
      }
      return Accepted(replaced.Some?);
    }

    /** Moves transactions whose nonces are free in the queue back into it. */
    method Requeue(a: Address, txs: seq<Tx>, ghost m: Txs)
      requires Indexed() && BookOk(queue, false)
      requires Transactions.Lists(txs, m) && Keyed(m) && forall n :: n in m ==> m[n].from == a
      requires m.Keys !! At(queue, a, false).txs.Keys
      modifies this`queue, this`all, priced
      ensures Indexed() && BookOk(queue, false) && all == old(all) && priced.View() == old(priced.View())
      ensures SameElsewhere(old(queue), queue, a)
      ensures At(queue, a, false).txs == At(old(queue), a, false).txs + m
    {
      hide TxPool.Indexed, Lookup.Ok, Lookup.All, BookOk, Transactions.Lists, MapOf, SameElsewhere, At, PricedList.TxPricedList.View;
      ghost var q0 := At(queue, a, false).txs;
      SameElsewhereSelf(queue, a);
      MapOfStart(q0, txs);
      for i := 0 to |txs|
        invariant Indexed() && BookOk(queue, false) && all == old(all) && priced.View() == old(priced.View())
        invariant SameElsewhere(old(queue), queue, a)
        invariant At(queue, a, false).txs == q0 + MapOf(txs[..i])
      {
        NextListed(q0, txs, m, i);
        ghost var before := queue;
        RequeueOne(txs[i]);
        SameElsewhereThen(old(queue), before, queue, a);
      }
      assert txs[..|txs|] == txs;
      MapOfListed(txs, m);
    }

    method RequeueOne(tx: Tx)
      requires Indexed() && BookOk(queue, false) && tx.nonce !in At(queue, tx.from, false).txs
      modifies this`queue, this`all, priced
      ensures Indexed() && BookOk(queue, false) && all == old(all) && priced.View() == old(priced.View())
      ensures SameElsewhere(old(queue), queue, tx.from)
      ensures At(queue, tx.from, false).txs == At(old(queue), tx.from, false).txs[tx.nonce := tx]
    {
      var r := EnqueueTx(tx, false, false);
    }

    /** Inserts into the account's pending list and advances the virtual nonce behind it. */
    method PromoteTx(tx: Tx) returns (ok: bool)
      requires Indexed() && BookOk(pending, true)
      modifies this`pending, this`all, this`nonces, priced
      ensures Indexed() && BookOk(pending, true)
      ensures var l := At(old(pending), tx.from, true);
              && ok == l.Accepts(tx)
              && (ok ==> pending == old(pending)[tx.from := l.Add(tx)] && nonces == old(nonces)[tx.from := tx.nonce + 1])
              && (!ok ==> pending == old(pending) && nonces == old(nonces))
              && all.All() == old(all.All()) - (if !ok then {tx.hash} else if tx.nonce in l.txs then {l.txs[tx.nonce].hash} else {})
              && (tx.nonce !in l.txs ==> all == old(all) && priced.View() == old(priced.View()))
    {
      hide Lookup.Ok, Lookup.All, Lookup.Remove, List.WithinCaps, Covered;
      var list := At(pending, tx.from, true);
      if !list.Accepts(tx) {
        LookupRemove(all, tx.hash);
        CoveredWithout(all, tx.hash, priced.Entries(), evicting, localTxs, entered, meaning);
        all := all.Remove(tx.hash);
        MarkRemoved(1);
        return false;
      }
      AddToBook(pending, tx, true);
      var replaced := list.Replaced(tx);
      pending := pending[tx.from := list.Add(tx)];
      if replaced.Some? {
        LookupRemove(all, replaced.value.hash);
        CoveredWithout(all, replaced.value.hash, priced.Entries(), evicting, localTxs, entered, meaning);
        all := all.Remove(replaced.value.hash);
        MarkRemoved(1);
      } else {
        assert all.All() - {} == all.All();
      }
      nonces := nonces[tx.from := tx.nonce + 1];
      return true;
    }

    method PromoteOne(tx: Tx)
      requires Indexed() && BookOk(pending, true) && tx.nonce !in At(pending, tx.from, true).txs
      modifies this`pending, this`all, this`nonces, priced
      ensures Indexed() && BookOk(pending, true) && all == old(all) && priced.View() == old(priced.View())
      ensures SameElsewhere(old(pending), pending, tx.from)
      ensures At(pending, tx.from, true).txs == At(old(pending), tx.from, true).txs[tx.nonce := tx]
      ensures Next(tx.from) == tx.nonce + 1 && forall b :: b != tx.from ==> Next(b) == old(Next(b))
    {
      hide TxPool.Indexed, Lookup.All, BookOk, List.Add, List.Accepts, PricedList.TxPricedList.View;
      AddedTxs(At(pending, tx.from, true), tx);
      var ok := PromoteTx(tx);
    }

    /** Promotes a run in nonce order; its nonces are free in the pending list. */
    method PromoteAll(a: Address, txs: seq<Tx>, ghost m: Txs)
      requires Indexed() && BookOk(pending, true)
      requires SortedListing(txs, m) && Keyed(m) && forall n :: n in m ==> m[n].from == a
      requires m.Keys !! At(pending, a, true).txs.Keys
      modifies this`pending, this`all, this`nonces, priced
      ensures Indexed() && BookOk(pending, true) && all == old(all) && priced.View() == old(priced.View())
      ensures SameElsewhere(old(pending), pending, a)
      ensures At(pending, a, true).txs == At(old(pending), a, true).txs + m
      ensures Next(a) == PastOr(m, old(Next(a))) && forall b :: b != a ==> Next(b) == old(Next(b))
    {
      hide TxPool.Indexed, Lookup.Ok, Lookup.All, BookOk, Transactions.Lists, MapOf, SameElsewhere, At, TxPool.Next, PricedList.TxPricedList.View;
      ghost var p0 := At(pending, a, true).txs;
      SameElsewhereSelf(pending, a);
      MapOfStart(p0, txs);
      for i := 0 to |txs|
        invariant Indexed() && BookOk(pending, true) && all == old(all) && priced.View() == old(priced.View())
        invariant SameElsewhere(old(pending), pending, a)
        invariant At(pending, a, true).txs == p0 + MapOf(txs[..i])
        invariant Next(a) == (if i == 0 then old(Next(a)) else txs[i - 1].nonce + 1)
        invariant forall b :: b != a ==> Next(b) == old(Next(b))
      {
        NextListed(p0, txs, m, i);
        ghost var before := pending;
        PromoteOne(txs[i]);
        SameElsewhereThen(old(pending), before, pending, a);
      }
      assert txs[..|txs|] == txs;
      MapOfListed(txs, m);
      LastIsPast(txs, m, old(Next(a)));
    }

    /** The queue limit that applies to an account: none for local ones. */
    function QueueLimit(a: Address): Option<nat>
      reads this`locals
    {
      if a in locals then None else Some(accountQueue)
    }

    /** Replaces an account's queue list by a part of it and forgets the other part. */
    method DropQueued(a: Address, list: List, dropped: seq<Tx>, ghost gone: Txs)
      requires Valid() && OwnList(list, a, false) && Transactions.Lists(dropped, gone)
      requires SplitsInto(At(queue, a, false).txs, list.txs, gone)
      modifies this`queue, this`all
      ensures Valid() && SameElsewhere(old(queue), queue, a) && At(queue, a, false).txs == list.txs
      ensures all.All() == old(all.All()) - Hashes(gone.Values)
    {
      hide Lookup.Ok, Lookup.All, Transactions.Lists, Partition, OwnList, Hashes, HashesOf, Covered, SplitsInto;
      QueueSplit(pending, queue, all.All(), a, list, gone);
      HashesOfListing(dropped, gone);
      queue := Store(queue, a, list);
      ForgetAll(dropped);
    }

    /** Moves the run at the virtual nonce from the account's queue to its pending list. */
    method PromoteReady(a: Address, list: List) returns (rest: List, promoted: seq<Tx>)
      requires Valid() && OwnList(list, a, false) && At(queue, a, false).txs == list.txs
      modifies this`pending, this`queue, this`all, this`nonces, priced
      ensures Valid() && OwnList(rest, a, false) && priced.View() == old(priced.View())
      ensures rest.txs == NotReady(list.txs, old(Next(a))) && At(queue, a, false).txs == rest.txs
      ensures SortedListing(promoted, Ready(list.txs, old(Next(a))))
      ensures At(pending, a, true).txs == At(old(pending), a, true).txs + Ready(list.txs, old(Next(a)))
      ensures SameElsewhere(old(queue), queue, a) && SameElsewhere(old(pending), pending, a)
      ensures Next(a) == PastOr(Ready(list.txs, old(Next(a))), old(Next(a))) && forall b :: b != a ==> Next(b) == old(Next(b))
    {
      hide Lookup.Ok, Lookup.All, Transactions.Lists, Partition, OwnList, BookOk, Covered, Ready, NotReady, SortedListing, SameElsewhere;
      ghost var p0, q0 := pending, queue;
      ReadySplit(pending, queue, all.All(), a, list, Next(a));
      promoted := Flat(Ready(list.txs, Next(a)));
      rest := list.Take(Next(a));
      queue := Store(queue, a, rest);
      PromoteAll(a, promoted, Ready(list.txs, old(Next(a))));
      ReadyMoved(p0, q0, all.All(), a, pending, rest, list, old(Next(a)));
    }

    /** Drops what is too old or unpayable from the account's queue. */
    method PruneQueue(a: Address) returns (list: List, count: nat)
      requires Valid()
      modifies this`queue, this`all
      ensures Valid() && OwnList(list, a, false) && SameElsewhere(old(queue), queue, a)
      ensures list.txs == Eligible(At(old(queue), a, false).txs, FundsOf(a)) && At(queue, a, false).txs == list.txs
      ensures list.txs == At(old(queue), a, false).txs ==> count == 0
    {
      hide Lookup.Ok, Lookup.All, Transactions.Lists, Partition, OwnList, BookOk, Covered, SortedListing,
        Unpayable, SplitsInto, Hashes, List.Filter, List.Forward, SameElsewhere, Eligible, Flat, From, Below;
      ghost var q0 := queue;
      list := At(queue, a, false);
      QueueList(pending, queue, all.All(), a);
      EligibleStages(list.txs, FundsOf(a));
      NothingPruned(list.txs, FundsOf(a));

      var forwards := Flat(Below(list.txs, nonceOf(a)));
      ForwardStage(list, a, false, nonceOf(a));
      list := list.Forward(nonceOf(a));
      DropQueued(a, list, forwards, Below(At(q0, a, false).txs, nonceOf(a)));
      ghost var q1 := queue;

      var drops := Flat(Unpayable(list.txs, balanceOf(a), maxGas));
      FilterStage(list, a, balanceOf(a), maxGas);
      ghost var over := Unpayable(list.txs, balanceOf(a), maxGas);
      list := list.Filter(balanceOf(a), maxGas);
      DropQueued(a, list, drops, over);
      SameElsewhereThen(q0, q1, queue, a);
      count := |forwards| + |drops|;
    }

    /** Applies the queue limit of a non-local account. */
    method CapQueue(a: Address, list: List) returns (count: nat)
      requires Valid() && OwnList(list, a, false) && At(queue, a, false).txs == list.txs
      modifies this`queue, this`all
      ensures Valid() && SameElsewhere(old(queue), queue, a)
      ensures At(queue, a, false).txs == if QueueLimit(a).Some? then Lowest(list.txs, QueueLimit(a).value) else list.txs
      ensures At(queue, a, false).txs == list.txs ==> count == 0
    {
      hide Lookup.Ok, Lookup.All, Transactions.Lists, Partition, OwnList, Covered, SplitsInto, Hashes, List.Cap, SameElsewhere,
        Flat, Lowest, AllButLowest;
      SameElsewhereSelf(queue, a);
      if a in locals {
        return 0;
      }
      var caps := Flat(AllButLowest(list.txs, accountQueue));
      CapStage(list, a, false, accountQueue);
      NothingCapped(list.txs, accountQueue);
      DropQueued(a, list.Cap(accountQueue), caps, AllButLowest(list.txs, accountQueue));
      count := |caps|;
    }

    /**
     Drops what is too old or unpayable from the account's queue, promotes the run at the
     virtual nonce and caps the rest.
     */
    method PromoteAccount(a: Address) returns (promoted: seq<Tx>)
      requires Valid()
      modifies this`pending, this`queue, this`all, this`nonces, priced
      ensures Valid()
      ensures Acc(a) == Promoted(old(Acc(a)), FundsOf(a), QueueLimit(a))
      ensures forall b :: b != a ==> Acc(b) == old(Acc(b))
      ensures SortedListing(promoted, Ready(Eligible(old(Acc(a)).queue, FundsOf(a)), old(Acc(a)).next))
      ensures old(priced.View()).Calm() && Lossless(old(Acc(a)), FundsOf(a), QueueLimit(a)) ==> priced.View() == old(priced.View())
    {
      hide Lookup.Ok, Lookup.All, Partition, Covered, SortedListing, Eligible, Ready, Promoted, At, Lossless;
      var count;
      promoted, count := PromoteInStages(a);
      MarkRemoved(count);
    }

    method PromoteInStages(a: Address) returns (promoted: seq<Tx>, count: nat)
      requires Valid()
      modifies this`pending, this`queue, this`all, this`nonces, priced
      ensures Valid()
      ensures Acc(a) == Promoted(old(Acc(a)), FundsOf(a), QueueLimit(a))
      ensures forall b :: b != a ==> Acc(b) == old(Acc(b))
      ensures SortedListing(promoted, Ready(Eligible(old(Acc(a)).queue, FundsOf(a)), old(Acc(a)).next))
      ensures priced.View() == old(priced.View()) && (Lossless(old(Acc(a)), FundsOf(a), QueueLimit(a)) ==> count == 0)
    {
      hide TxPool.Valid, Lookup.Ok, Lookup.All, Transactions.Lists, Partition, OwnList, Covered, Ready, NotReady, SortedListing,
        Lowest, SameElsewhere, Eligible, Promoted, PastOr, At;
      ghost var q0 := queue;
      var list, dropped := PruneQueue(a);
      ghost var q1 := queue;
      list, promoted := PromoteReady(a, list);
      SameElsewhereThen(q0, q1, queue, a);
      ghost var q2 := queue;
      var capped := CapQueue(a, list);
      SameElsewhereThen(q0, q2, queue, a);
      count := dropped + capped;
      OthersUnchanged(old(pending), pending, a, true);
      OthersUnchanged(q0, queue, a, false);
      PromotedStages(old(Acc(a)), FundsOf(a), QueueLimit(a));
      assert Acc(a).queue == Promoted(old(Acc(a)), FundsOf(a), QueueLimit(a)).queue;
      LosslessStages(old(Acc(a)), FundsOf(a), QueueLimit(a));
    }

    /** Promotes every given account that has queued transactions. */
    method PromoteExecutables(accounts: set<Address>)
      requires Valid()
      modifies this`pending, this`queue, this`all, this`nonces, priced
      ensures Valid()
      ensures forall a :: Acc(a) == if a in accounts then Promoted(old(Acc(a)), FundsOf(a), QueueLimit(a)) else old(Acc(a))
      ensures old(priced.View()).Calm() && (forall a :: a in accounts ==> Lossless(old(Acc(a)), FundsOf(a), QueueLimit(a))) ==>
                priced.View() == old(priced.View())
    {
      hide TxPool.Valid, Promoted, Lossless, PricedList.TxPricedList.View, PricedList.Tally.Calm, TxPool.FundsOf, TxPool.QueueLimit;
      var todo := accounts;
      while todo != {}
        invariant todo <= accounts && Valid()
        invariant old(priced.View()).Calm() && (forall a :: a in accounts ==> Lossless(old(Acc(a)), FundsOf(a), QueueLimit(a))) ==>
                    priced.View() == old(priced.View())
        invariant forall a :: Acc(a) == if a in accounts - todo then Promoted(old(Acc(a)), FundsOf(a), QueueLimit(a)) else old(Acc(a))
        decreases |todo|
      {
        var a :| a in todo;
        assert Acc(a) == old(Acc(a));
        if a in queue {
          var promoted := PromoteAccount(a);
        } else {
          PromotedNothing(Acc(a), FundsOf(a), QueueLimit(a));
        }
        todo := todo - {a};
      }
    }

    /**
     Replaces an account's pending list by a part of it, forgetting one part of the rest and
     moving the other back to the queue.
     */
    method ReplacePending(a: Address, list: List, dropped: seq<Tx>, ghost gone: Txs, moved: seq<Tx>, ghost back: Txs)
      requires Valid() && OwnList(list, a, true) && Transactions.Lists(dropped, gone) && Transactions.Lists(moved, back)
      requires SplitsInThree(At(pending, a, true).txs, list.txs, gone, back)
      modifies this`pending, this`queue, this`all, priced
      ensures Valid() && SameElsewhere(old(pending), pending, a) && SameElsewhere(old(queue), queue, a) && priced.View() == old(priced.View())
      ensures At(pending, a, true).txs == list.txs
      ensures At(queue, a, false).txs == At(old(queue), a, false).txs + back
      ensures all.All() == old(all.All()) - Hashes(gone.Values)
    {
      hide Lookup.Ok, Lookup.All, Transactions.Lists, Partition, OwnList, Hashes, HashesOf, Covered, SplitsInThree, Store, At, SameElsewhere, BookOk;
      ghost var p0, q0, all0 := pending, queue, all.All();
      BackMoves(pending, queue, all.All(), a, list, gone, back);
      HashesOfListing(dropped, gone);
      pending := Store(pending, a, list);
      ForgetAll(dropped);
      Requeue(a, moved, back);
      BackMoved(p0, q0, all0, a, list, queue, gone, back);
    }

    /** Forgets pending transactions that are already executed. */
    method DropExecuted(a: Address) returns (list: List)
      requires Valid()
      modifies this`pending, this`queue, this`all, priced
      ensures Valid() && SameElsewhere(old(pending), pending, a) && SameElsewhere(old(queue), queue, a) && OwnList(list, a, true)
      ensures list.txs == From(At(old(pending), a, true).txs, nonceOf(a)) == At(pending, a, true).txs && priced.View() == old(priced.View())
      ensures At(queue, a, false).txs == At(old(queue), a, false).txs
    {
      hide Lookup.Ok, Lookup.All, Transactions.Lists, Partition, OwnList, Hashes, Covered, SplitsInto, SplitsInThree, SameElsewhere, Below, From, Flat;
      list := At(pending, a, true);
      QueueList(pending, queue, all.All(), a);
      var olds := Flat(Below(list.txs, nonceOf(a)));
      ForwardStage(list, a, true, nonceOf(a));
      NothingBack(list.txs, list.Forward(nonceOf(a)).txs, Below(list.txs, nonceOf(a)));
      ReplacePending(a, list.Forward(nonceOf(a)), olds, Below(list.txs, nonceOf(a)), [], map[]);
      NoMapAdded(At(old(queue), a, false).txs);
      list := list.Forward(nonceOf(a));
    }

    /** Forgets unpayable pending transactions and moves those behind them back to the queue. */
    method DropUnpayable(a: Address, list: List) returns (rest: List)
      requires Valid() && OwnList(list, a, true) && At(pending, a, true).txs == list.txs
      modifies this`pending, this`queue, this`all, priced
      ensures Valid() && SameElsewhere(old(pending), pending, a) && SameElsewhere(old(queue), queue, a) && OwnList(rest, a, true)
      ensures rest.txs == At(pending, a, true).txs && priced.View() == old(priced.View())
      ensures rest.txs == list.txs - (Unpayable(list.txs, balanceOf(a), maxGas).Keys + Stranded(list.txs, balanceOf(a), maxGas).Keys)
      ensures At(queue, a, false).txs == At(old(queue), a, false).txs + Stranded(list.txs, balanceOf(a), maxGas)
    {
      hide Lookup.Ok, Lookup.All, Transactions.Lists, Partition, OwnList, Hashes, Covered, SplitsInThree, SameElsewhere, Unpayable, Stranded, List.Filter, Flat;
      var drops := Flat(Unpayable(list.txs, balanceOf(a), maxGas));
      var invalids := Flat(Stranded(list.txs, balanceOf(a), maxGas));
      StrictFilterStage(list, a, balanceOf(a), maxGas);
      rest := list.Filter(balanceOf(a), maxGas);
      ReplacePending(a, rest, drops, Unpayable(list.txs, balanceOf(a), maxGas), invalids, Stranded(list.txs, balanceOf(a), maxGas));
    }

    /** Moves the whole pending list back to the queue. */
    method PostponeAll(a: Address, list: List)
      requires Valid() && OwnList(list, a, true) && At(pending, a, true).txs == list.txs
      modifies this`pending, this`queue, this`all, priced
      ensures Valid() && SameElsewhere(old(pending), pending, a) && SameElsewhere(old(queue), queue, a)
      ensures At(pending, a, true).txs == map[] && priced.View() == old(priced.View())
      ensures At(queue, a, false).txs == At(old(queue), a, false).txs + list.txs
    {
      hide Lookup.Ok, Lookup.All, Transactions.Lists, Partition, OwnList, Hashes, Covered, SplitsInThree, SameElsewhere, Flat, List.Cap, Rank;
      var gapped := Flat(list.txs);
      EmptyStage(list, a);
      ReplacePending(a, list.Cap(0), [], map[], gapped, list.txs);
    }

    /** Makes an account's pending list start at the state nonce and hold only payable transactions. */
    method DemoteAccount(a: Address)
      requires Valid()
      modifies this`pending, this`queue, this`all, priced
      ensures Valid() && priced.View() == old(priced.View())
      ensures Acc(a) == Demoted(old(Acc(a)), FundsOf(a))
      ensures forall b :: b != a ==> Acc(b) == old(Acc(b))
    {
      hide Lookup.Ok, Lookup.All, Partition, OwnList, Covered, SameElsewhere, At, Demoted, Runnable, Stranded, Unpayable, From;
      ghost var p0, q0 := pending, queue;
      var list := DropExecuted(a);
      ghost var p1, q1 := pending, queue;
      list := DropUnpayable(a, list);
      SameElsewhereThen(p0, p1, pending, a);
      SameElsewhereThen(q0, q1, queue, a);
      ghost var p2, q2 := pending, queue;
      DemotedStages(old(Acc(a)), FundsOf(a));
      if list.txs != map[] && nonceOf(a) !in list.txs {
        PostponeAll(a, list);
        SameElsewhereThen(p0, p2, pending, a);
        SameElsewhereThen(q0, q2, queue, a);
      }
      OthersUnchanged(p0, pending, a, true);
      OthersUnchanged(q0, queue, a, false);
    }

    method DemoteUnexecutables()
      requires Valid()
      modifies this`pending, this`queue, this`all, priced
      ensures Valid() && priced.View() == old(priced.View())
      ensures forall a :: Acc(a) == Demoted(old(Acc(a)), FundsOf(a))
    {
      hide Lookup.Ok, Lookup.All, Partition, Covered, Demoted;
      var todo := pending.Keys;
      forall a | a !in todo ensures Acc(a) == Demoted(Acc(a), FundsOf(a)) {
        DemotedNothing(Acc(a), FundsOf(a));
      }
      while todo != {}
        invariant todo <= old(pending).Keys && Valid() && priced.View() == old(priced.View())
        invariant forall a :: Acc(a) == if a in todo then old(Acc(a)) else Demoted(old(Acc(a)), FundsOf(a))
        decreases |todo|
      {
        var a :| a in todo;
        assert Acc(a) == old(Acc(a));
        DemoteAccount(a);
        todo := todo - {a};
      }
    }

    /** Takes a pending transaction out; everything behind it goes back to the queue. */
    method CutPending(tx: Tx)
      requires Valid() && Member(At(pending, tx.from, true), tx)
      modifies this`pending, this`queue, this`all, this`nonces, priced
      ensures Valid() && all.All() == old(all.All()) - {tx.hash} && priced.View() == old(priced.View())
      ensures Acc(tx.from) == WithoutTx(old(Acc(tx.from)), tx.nonce) && forall b :: b != tx.from ==> Acc(b) == old(Acc(b))
    {
      hide Lookup.Ok, Lookup.All, Transactions.Lists, Partition, OwnList, Covered, SameElsewhere, At, Below, From, SplitsInThree, Hashes,
        List.Remove, Flat;
      var a := tx.from;
      QueueList(pending, queue, all.All(), a);
      ghost var p0, q0 := pending, queue;
      var list := At(pending, a, true);
      CutStage(list, a, tx);
      OneHash(tx);
      ReplacePending(a, list.Remove(tx.nonce), [tx], map[tx.nonce := tx], Flat(From(list.txs, tx.nonce + 1)), From(list.txs, tx.nonce + 1));
      SetIfLower(a, tx.nonce);
      OthersUnchanged(p0, pending, a, true);
      OthersUnchanged(q0, queue, a, false);
    }

    /** Takes a queued transaction out. */
    method CutQueued(tx: Tx)
      requires Valid() && Member(At(queue, tx.from, false), tx) && tx.nonce !in Acc(tx.from).pending
      modifies this`queue, this`all
      ensures Valid() && all.All() == old(all.All()) - {tx.hash}
      ensures Acc(tx.from) == WithoutTx(old(Acc(tx.from)), tx.nonce) && forall b :: b != tx.from ==> Acc(b) == old(Acc(b))
    {
      hide Lookup.Ok, Lookup.All, Transactions.Lists, Partition, OwnList, Covered, SameElsewhere, At, SplitsInto, Hashes, List.Remove;
      var a := tx.from;
      QueueList(pending, queue, all.All(), a);
      ghost var q0 := queue;
      var list := At(queue, a, false);
      QueueCutStage(list, a, tx);
      OneHash(tx);
      DropQueued(a, list.Remove(tx.nonce), [tx], map[tx.nonce := tx]);
      OthersUnchanged(q0, queue, a, false);
    }

    /**
     Removes one transaction wherever it is. If it was pending, everything behind it goes
     back to the queue and the virtual nonce drops to the removed nonce.
     */
    method RemoveTx(hash: Hash, outOfBound: bool)
      requires Valid()
      modifies this`pending, this`queue, this`all, this`nonces, priced
      ensures Valid() && all.All() == old(all.All()) - {hash}
      ensures hash !in old(all.All()) ==> forall a :: Acc(a) == old(Acc(a))
      ensures hash in old(all.All()) ==>
                var tx := old(all.All())[hash];
                && Acc(tx.from) == WithoutTx(old(Acc(tx.from)), tx.nonce)
                && forall b :: b != tx.from ==> Acc(b) == old(Acc(b))
      ensures old(SoundPool()) ==> SoundPool()
      ensures !outOfBound ==> priced.View() == old(priced.View())
    {
      hide TxPool.Valid, Lookup.All, Lookup.Ok, Partition, Covered, WithoutTx, Sound, PricedList.TxPricedList.View;
      ValidParts();
      if hash !in all.All() {
        assert all.All() - {hash} == all.All();
        return;
      }
      var tx := all.All()[hash];
      HeldSomewhere(pending, queue, all.All(), hash);
      if tx.nonce in At(pending, tx.from, true).txs {
        CutPending(tx);
      } else {
        CutQueued(tx);
      }
      if old(SoundPool()) {
        WithoutTxSound(old(Acc(tx.from)), FundsOf(tx.from), tx.nonce);
      }
      if outOfBound {
        MarkGone(1);
      }
    }

    /** Reports removals to the eviction list of a pool that is in agreement. */
    method MarkGone(count: nat)
      requires Valid()
      modifies priced
      ensures Valid() && priced.View() == old(priced.View()).Reported(count, all.remotes)
    {
      hide Partition, Covered, Lookup.Ok, PricedList.TxPricedList.View, PricedList.TxPricedList.Valid;
      MarkRemoved(count);
    }

    /** The checks of a transaction against the current head state. */
    predicate Validates(tx: Tx)
      reads this`nonceOf, this`balanceOf, this`maxGas
    {
      Admissible(tx, Funds(nonceOf(tx.from), balanceOf(tx.from), maxGas))
    }

    /** Removes evicted transactions from the pool. */
    method RemoveAll(drop: seq<Tx>)
      requires Valid() && evicting == HashesOf(drop)
      requires forall i :: 0 <= i < |drop| ==> drop[i].hash in all.All() && all.All()[drop[i].hash] == drop[i]
      modifies this`pending, this`queue, this`all, this`nonces, priced
      ensures Valid() && all.All() == old(all.All()) - HashesOf(drop) && priced.View() == old(priced.View())
      ensures forall a :: Acc(a) == EvictedFrom(old(Acc(a)), a, drop)
      ensures old(SoundPool()) ==> SoundPool()
    {
      hide Lookup.Ok, Lookup.All, Partition, SoundPool, WithoutTx, Covered, HashesOf, EvictedFrom, At, Separate;
      NoHashesYet(drop, all.All());
      forall a: Address ensures EvictedFrom(Acc(a), a, drop[..0]) == Acc(a) && Separate(Acc(a)) {
        NoneEvicted(Acc(a), a, drop);
        AccountSeparate(pending, queue, all.All(), a, Next(a));
      }
      for i := 0 to |drop|
        invariant Valid() && priced.View() == old(priced.View())
        invariant all.All() == old(all.All()) - HashesOf(drop[..i])
        invariant forall a :: Acc(a) == EvictedFrom(old(Acc(a)), a, drop[..i])
        invariant old(SoundPool()) ==> SoundPool()
      {
        HashesPrefix(drop, i);
        DroppedBefore(old(all.All()), all.All(), drop, i);
        label before:
        RemoveTx(drop[i].hash, false);
        forall a: Address ensures Acc(a) == EvictedFrom(old(Acc(a)), a, drop[..i + 1]) {
          EvictedOne(old(Acc(a)), a, drop, i, old@before(Acc(a)), Acc(a));
        }
      }
      assert drop[..|drop|] == drop;
    }

    /**
     Evicts remote transactions until `need` slots are free. Without `force` it is all or nothing,
     and nothing exactly when all live entries together would not suffice.
     */
    method MakeRoom(need: int, force: bool) returns (ok: bool, drop: seq<Tx>)
      requires Valid() && evicting == {}
      modifies this`pending, this`queue, this`all, this`nonces, this`evicting, priced
      ensures Valid() && evicting == {}
      ensures ok <==> force || need <= PricedList.LiveSlots(old(priced.Entries()), old(all.remotes))
      ensures all.All() == old(all.All()) - HashesOf(drop)
      ensures forall a :: Acc(a) == EvictedFrom(old(Acc(a)), a, drop)
      ensures ok ==> Evictions(drop, old(all).remotes, old(priced.Entries()), need)
      ensures !ok ==> drop == []
      ensures ok && !force ==> PricedList.SlotsOf(drop) >= need
      ensures PricedList.KeepsLive(old(priced.Entries()), priced.Entries() + multiset(drop), old(all.remotes))
      ensures old(SoundPool()) ==> SoundPool()
    {
      hide TxPool.Valid, Lookup.Ok, Lookup.All, Partition, PricedList.LiveSlots, PricedList.SlotsOf, PricedList.KeepsLive, SoundPool, Covered, HashesOf,
        At, EvictedFrom, Evictions;
      drop, ok := PickVictims(need, force);
      RemoveAll(drop);
      EndEviction();
    }

    method EndEviction()
      requires Valid() && all.All().Keys !! evicting
      modifies this`evicting
      ensures Valid() && evicting == {}
    {
      hide Lookup.Ok, Lookup.All, Partition, Covered;
      EvictionDone(all, priced.Entries(), evicting, localTxs, entered, meaning);
      evicting := {};
    }

    /** Takes entries off the eviction list whose transactions are to leave the pool. */
    method PickVictims(need: int, force: bool) returns (drop: seq<Tx>, ok: bool)
      requires Valid() && evicting == {}
      modifies this`evicting, priced
      ensures Valid() && evicting == HashesOf(drop)
      ensures ok <==> force || need <= PricedList.LiveSlots(old(priced.Entries()), all.remotes)
      ensures forall i :: 0 <= i < |drop| ==> drop[i].hash in all.All() && all.All()[drop[i].hash] == drop[i]
      ensures ok ==> Evictions(drop, all.remotes, old(priced.Entries()), need)
      ensures !ok ==> drop == []
      ensures ok && !force ==> PricedList.SlotsOf(drop) >= need
      ensures PricedList.KeepsLive(old(priced.Entries()), priced.Entries() + multiset(drop), old(all.remotes))
    {
      hide Lookup.Ok, Lookup.All, Partition, PricedList.KeepsLive, PricedList.LiveSlots, PricedList.SlotsOf, Covered, HashesOf, Evictions;
      ghost var entries := priced.Entries();
      drop, ok := priced.Discard(need, force, all.remotes);
      evicting := HashesOf(drop);
      EvictedAside(all, entries, priced.Entries(), drop, localTxs, entered, meaning);
      EvictionsAre(all.remotes, entries, priced.Entries(), drop, need, ok);
    }

    /** Replaces the pending transaction at the same nonce, unless that one has a higher tier. */
    method InsertPending(tx: Tx, isLocal: bool) returns (r: Outcome)
      requires Valid() && tx.hash !in all.All() && tx.nonce in Acc(tx.from).pending
      requires meaning(tx.hash) == tx && (isLocal ==> tx.hash in localTxs)
      modifies this`pending, this`all, this`entered, priced
      ensures Valid() && r == OfferOutcome(old(Acc(tx.from)), tx)
      ensures entered == old(entered) + One(tx, r.Accepted? && !isLocal)
      ensures r == Accepted(true) || (r == Underpriced && priced.View() == old(priced.View()))
      ensures Acc(tx.from) == Offered(old(Acc(tx.from)), tx) && forall b :: b != tx.from ==> Acc(b) == old(Acc(b))
      ensures all.All() == Exchange(old(all.All()), OfferReplaces(old(Acc(tx.from)), tx), tx, r.Accepted?)
    {
      hide Lookup.Ok, Lookup.All, Lookup.Remove, Partition, Covered, List.Add, List.Accepts, At, Outbids;
      var list := At(pending, tx.from, true);
      AddedTxs(list, tx);
      if !list.Accepts(tx) {
        assert all.All() - {} == all.All();
        return Underpriced;
      }
      PendingReplace(pending, queue, all.All(), tx);
      ghost var p0 := pending;
      pending := pending[tx.from := list.Add(tx)];
      UpdatedAt(p0, tx.from, list.Add(tx), true);
      Swap(list.txs[tx.nonce].hash, tx, isLocal);
      return Accepted(true);
    }

    /** Lets a new transaction take the place of a known one in the lookup. */
    method Swap(hash: Hash, tx: Tx, isLocal: bool)
      requires Indexed() && tx.hash !in all.All() && meaning(tx.hash) == tx && (isLocal ==> tx.hash in localTxs)
      modifies this`all, this`entered, priced
      ensures Indexed() && all.All() == Exchange(old(all.All()), {hash}, tx, true) && entered == old(entered) + One(tx, !isLocal)
    {
      hide Lookup.Ok, Lookup.All, Lookup.Remove, Covered;
      LookupRemove(all, hash);
      CoveredWithout(all, hash, priced.Entries(), evicting, localTxs, entered, meaning);
      all := all.Remove(hash);
      MarkRemoved(1);
      Learn(tx, isLocal);
    }

    /** Queues a transaction whose nonce is not pending. */
    method InsertQueued(tx: Tx, isLocal: bool) returns (r: Outcome)
      requires Valid() && tx.hash !in all.All() && tx.nonce !in Acc(tx.from).pending
      requires meaning(tx.hash) == tx && (isLocal ==> tx.hash in localTxs)
      modifies this`queue, this`all, this`entered, priced
      ensures Valid() && r == OfferOutcome(old(Acc(tx.from)), tx)
      ensures entered == old(entered) + One(tx, r.Accepted? && !isLocal)
      ensures r != Accepted(true) ==> priced.View() == old(priced.View()).With(tx, r.Accepted? && !isLocal)
      ensures Acc(tx.from) == Offered(old(Acc(tx.from)), tx) && forall b :: b != tx.from ==> Acc(b) == old(Acc(b))
      ensures all.All() == Exchange(old(all.All()), OfferReplaces(old(Acc(tx.from)), tx), tx, r.Accepted?)
    {
      hide Lookup.Ok, Lookup.All, Partition, BookOk, Covered, List.Add, List.Accepts, PricedList.TxPricedList.View, PricedList.TxPricedList.Valid;
      QueueAndPending(pending, queue, all.All());
      AddedTxs(At(queue, tx.from, false), tx);
      ghost var p0, q0, all0 := pending, queue, all.All();
      r := EnqueueTx(tx, isLocal, true);
      if r.Underpriced? {
        assert all0 - {} == all0;
      } else {
        QueueInsert(p0, q0, all0, tx);
      }
    }

    /**
     Puts a new transaction into the pending list if it replaces a pending one and into the
     queue otherwise. A `local` one that is queued makes its sender a local account.
     */
    method Insert(tx: Tx, local: bool) returns (r: Outcome)
      requires Valid() && tx.hash !in all.All() && meaning(tx.hash) == tx
      modifies this`pending, this`queue, this`all, this`locals, this`localTxs, this`entered, priced
      ensures Valid() && r == OfferOutcome(old(Acc(tx.from)), tx)
      ensures Acc(tx.from) == Offered(old(Acc(tx.from)), tx) && forall b :: b != tx.from ==> Acc(b) == old(Acc(b))
      ensures all.All() == Exchange(old(all.All()), OfferReplaces(old(Acc(tx.from)), tx), tx, r.Accepted?)
      ensures locals == if local && r.Accepted? && tx.nonce !in old(Acc(tx.from)).pending then old(locals) + {tx.from} else old(locals)
      ensures !local && tx.from !in old(locals) ==> localTxs == old(localTxs)
      ensures entered == old(entered) + One(tx, r.Accepted? && !local && tx.from !in old(locals))
      ensures !local ==> localTxs <= old(localTxs) + (if tx.from in old(locals) then {tx.hash} else {})
      ensures r != Accepted(true) && !local ==> priced.View() == old(priced.View()).With(tx, r.Accepted? && tx.from !in old(locals))
    {
      hide TxPool.Valid, Lookup.Ok, Lookup.All, Partition, Covered, Exchange, Offered, OfferReplaces, OfferOutcome, At, One;
      var isLocal := local || tx.from in locals;
      if isLocal {
        NoteLocal(tx);
      }
      if tx.nonce in At(pending, tx.from, true).txs {
        r := InsertPending(tx, isLocal);
      } else {
        r := InsertQueued(tx, isLocal);
        if r.Accepted? && local && tx.from !in locals {
          MakeLocal(tx.from);
        }
      }
    }

    /** Records that a transaction is entered as a local one. */
    method NoteLocal(tx: Tx)
      requires Valid()
      modifies this`localTxs
      ensures Valid() && localTxs == old(localTxs) + {tx.hash}
    {
      hide Lookup.Ok, Lookup.All, Partition, Covered;
      MoreLocal(all, priced.Entries(), evicting, localTxs, {tx.hash}, entered, meaning);
      localTxs := localTxs + {tx.hash};
    }

    /** Makes an account local and moves its remote transactions to the local side. */
    method MakeLocal(a: Address)
      requires Valid()
      modifies this`locals, this`localTxs, this`all, priced
      ensures Valid() && locals == old(locals) + {a} && all.All() == old(all.All())
    {
      hide Lookup.Ok, Lookup.All, Lookup.RemoteToLocals, Lookup.Migrating, Partition, Covered;
      locals := locals + {a};
      LookupMigrate(all, locals);
      MigrateCovered(all, locals, priced.Entries(), evicting, localTxs, entered, meaning);
      var migrated := |all.Migrating(locals)|;
      localTxs := localTxs + all.Migrating(locals).Keys;
      all := all.RemoteToLocals(locals);
      MarkRemoved(migrated);
    }

    /** Inserts an admissible transaction; the pool stays sound. */
    method Place(tx: Tx, local: bool) returns (r: Outcome)
      requires Valid() && tx.hash !in all.All() && meaning(tx.hash) == tx && Validates(tx)
      modifies this`pending, this`queue, this`all, this`locals, this`localTxs, this`entered, priced
      ensures Valid() && r == OfferOutcome(old(Acc(tx.from)), tx) && (r.Accepted? || r == Underpriced)
      ensures Acc(tx.from) == Offered(old(Acc(tx.from)), tx) && forall b :: b != tx.from ==> Acc(b) == old(Acc(b))
      ensures all.All() == Exchange(old(all.All()), OfferReplaces(old(Acc(tx.from)), tx), tx, r.Accepted?)
      ensures locals == if local && r.Accepted? && tx.nonce !in old(Acc(tx.from)).pending then old(locals) + {tx.from} else old(locals)
      ensures !local && tx.from !in old(locals) ==> localTxs == old(localTxs)
      ensures entered == old(entered) + One(tx, r.Accepted? && !local && tx.from !in old(locals))
      ensures !local ==> localTxs <= old(localTxs) + (if tx.from in old(locals) then {tx.hash} else {})
      ensures r != Accepted(true) && !local ==> priced.View() == old(priced.View()).With(tx, r.Accepted? && tx.from !in old(locals))
      ensures old(SoundPool()) ==> SoundPool()
    {
      hide Lookup.Ok, Lookup.All, Partition, Covered, Exchange, Offered, OfferReplaces, OfferOutcome, At, Sound, Admissible;
      OutcomeKinds(Acc(tx.from), tx);
      r := Insert(tx, local);
      if old(SoundPool()) {
        SoundAt(old(Acc(tx.from)), FundsOf(tx.from), tx);
        forall a: Address ensures Sound(Acc(a), FundsOf(a)) {
          assert Sound(old(Acc(a)), old(FundsOf(a)));
        }
      }
    }

    /** By how many slots `tx` would overfill the pool. */
    function Surplus(slots: int, tx: Tx): int {
      slots - (globalSlots + globalQueue) + tx.Slots()
    }

    /** Makes room for an unknown transaction if the pool is full, then inserts it. */
    method MakeRoomAndInsert(tx: Tx, local: bool) returns (r: Outcome, ghost evicted: seq<Tx>)
      requires Valid() && evicting == {} && tx.hash !in all.All() && Validates(tx) && meaning(tx.hash) == tx
      modifies this`pending, this`queue, this`all, this`nonces, this`locals, this`localTxs, this`entered, this`evicting, priced
      ensures Valid() && evicting == {}
      ensures old(SoundPool()) ==> SoundPool()
      ensures r.Accepted? || r == Underpriced || r == Overflow
      ensures forall a :: Acc(a) == AfterOffer(old(Acc(a)), a, Offering(tx, r, evicted))
      ensures all.All() == LookupAfter(old(all.All()), old(Acc(tx.from)), Offering(tx, r, evicted))
      ensures Evictions(evicted, old(all).remotes, old(priced.Entries()), if r == Overflow then 0 else Surplus(old(all).slots, tx))
      ensures r == Overflow <==>
              !local && tx.from !in old(locals) && Surplus(old(all).slots, tx) > PricedList.LiveSlots(old(priced.Entries()), old(all.remotes))
      ensures r != Overflow ==> r == OfferOutcome(EvictedFrom(old(Acc(tx.from)), tx.from, evicted), tx)
      ensures r != Overflow && !local && tx.from !in old(locals) ==> PricedList.SlotsOf(evicted) >= Surplus(old(all).slots, tx)
      ensures locals == if local && r.Accepted? && tx.nonce !in EvictedFrom(old(Acc(tx.from)), tx.from, evicted).pending
                        then old(locals) + {tx.from} else old(locals)
      ensures !local && tx.from !in old(locals) ==> localTxs == old(localTxs)
      ensures entered == old(entered) + One(tx, r.Accepted? && !local && tx.from !in old(locals))
      ensures !local ==> localTxs <= old(localTxs) + (if tx.from in old(locals) then {tx.hash} else {})
      ensures r != Accepted(true) && !local && Surplus(old(all).slots, tx) <= 0 ==>
                priced.View() == old(priced.View()).With(tx, r.Accepted? && tx.from !in old(locals))
      ensures r != Accepted(true) && !local ==>
                PricedList.KeepsLive(old(priced.Entries()) + One(tx, r.Accepted? && tx.from !in old(locals)), priced.Entries() + multiset(evicted),
                                     old(all.remotes))
    {
      hide TxPool.Valid, Lookup.Ok, Lookup.All, Partition, Covered, SoundPool, PricedList.SlotsOf, PricedList.LiveSlots, PricedList.KeepsLive,
        PricedList.Tally.With, Offered, OfferReplaces, OfferOutcome, HashesOf, Exchange, EvictedFrom, Evictions, At, Sound, Admissible, Payable, One;
      var isLocal := local || tx.from in locals;
      ghost var all0, entries0, remotes0 := all.All(), priced.Entries(), all.remotes;
      RemoteUnknown(all, tx);
      evicted := [];
      NothingEvicted(all.All(), all.remotes, priced.Entries(), Surplus(all.slots, tx));
      forall a: Address ensures EvictedFrom(Acc(a), a, []) == Acc(a) { NoneEvicted(Acc(a), a, []); }
      if Surplus(all.slots, tx) > 0 {
        var ok, drop := MakeRoom(Surplus(all.slots, tx), isLocal);
        evicted := drop;
        if !isLocal && !ok {
          NothingKept(entries0, priced.Entries(), tx, remotes0);
          return Overflow, [];
        }
      }
      StillUnknown(all0, HashesOf(evicted), tx);
      ghost var kept := priced.View();
      r := Place(tx, local);
      KeptWith(entries0, kept, tx, r.Accepted? && tx.from !in old(locals), multiset(evicted), remotes0);
    }

    /**
     Offers a transaction to the pool. Every outcome occurs exactly for its reason. Only an offer that
     reaches its account's lists has an effect: the evicted transactions leave, and the offered one
     enters in place of the one at its nonce unless that has a higher tier.
     */
    method Add(tx: Tx, local: bool) returns (r: Outcome, ghost evicted: seq<Tx>)
      requires Valid() && evicting == {} && meaning(tx.hash) == tx
      modifies this`pending, this`queue, this`all, this`nonces, this`locals, this`localTxs, this`entered, this`evicting, priced
      ensures Valid() && evicting == {}
      ensures old(SoundPool()) ==> SoundPool()
      ensures r == AlreadyKnown <==> tx.hash in old(all.All())
      ensures r == Invalid <==> tx.hash !in old(all.All()) && !Validates(tx)
      ensures r == Overflow <==>
              && tx.hash !in old(all.All()) && Validates(tx) && !local && tx.from !in old(locals)
              && Surplus(old(all).slots, tx) > PricedList.LiveSlots(old(priced.Entries()), old(all.remotes))
      ensures Offering(tx, r, evicted).Reached() ==> r == OfferOutcome(EvictedFrom(old(Acc(tx.from)), tx.from, evicted), tx)
      ensures forall a :: Acc(a) == AfterOffer(old(Acc(a)), a, Offering(tx, r, evicted))
      ensures all.All() == LookupAfter(old(all.All()), old(Acc(tx.from)), Offering(tx, r, evicted))
      ensures Evictions(evicted, old(all).remotes, old(priced.Entries()),
                        if Offering(tx, r, evicted).Reached() then Surplus(old(all).slots, tx) else 0)
      ensures Offering(tx, r, evicted).Reached() && !local && tx.from !in old(locals) ==> PricedList.SlotsOf(evicted) >= Surplus(old(all).slots, tx)
      ensures locals == if local && r.Accepted? && tx.nonce !in EvictedFrom(old(Acc(tx.from)), tx.from, evicted).pending
                        then old(locals) + {tx.from} else old(locals)
      ensures StockAdded(old(Goods()), Goods(), old(all.remotes), old(Acc(tx.from)), Offering(tx, r, evicted), Capacity(), local, tx.from in old(locals))
    {
      hide TxPool.Valid, Lookup.Ok, Lookup.All, Partition, Covered, SoundPool, HashesOf, Offered, PricedList.SlotsOf, PricedList.LiveSlots,
        PricedList.KeepsLive, EvictedFrom, Evictions, OfferOutcome, At, SlotSum, One, AfterOffer, LookupAfter, StockAdded;
      ghost var l0, goods0, entries0, acc0 := all, Goods(), priced.Entries(), Acc(tx.from);
      evicted := [];
      NothingEvicted(all.All(), all.remotes, priced.Entries(), 0);
      NothingAdded(goods0, all.remotes, acc0, Offering(tx, AlreadyKnown, []), Capacity(), local, tx.from in locals);
      NothingAdded(goods0, all.remotes, acc0, Offering(tx, Invalid, []), Capacity(), local, tx.from in locals);
      if tx.hash in all.All() {
        return AlreadyKnown, [];
      }
      if !Validates(tx) {
        return Invalid, [];
      }
      ValidParts();
      r, evicted := MakeRoomAndInsert(tx, local);
      ValidParts();
      FitsAfter(l0, all, acc0, Offering(tx, r, evicted), entries0, Capacity(), !local && tx.from !in old(locals));
      GoodsAdded(goods0, Goods(), l0.remotes, acc0, Offering(tx, r, evicted), Capacity(), local, tx.from in old(locals));
    }

    method SetIfLower(a: Address, nonce: nat)
      modifies this`nonces
      ensures Next(a) == Min(old(Next(a)), nonce) && forall b :: b != a ==> Next(b) == old(Next(b))
    {
      if nonce < Next(a) {
        nonces := nonces[a := nonce];
      }
    }

    /** Cuts the highest nonce off an account's pending list. */
    method CutOne(a: Address) returns (caps: seq<Tx>)
      requires Valid() && a in pending
      modifies this`pending, this`queue, this`all, priced
      ensures Valid() && SameElsewhere(old(pending), pending, a) && SameElsewhere(old(queue), queue, a)
      ensures At(pending, a, true).txs == Lowest(old(pending)[a].txs, |old(pending)[a].txs| - 1) && At(queue, a, false).txs == At(old(queue), a, false).txs
      ensures caps == Flat(AllButLowest(old(pending)[a].txs, |old(pending)[a].txs| - 1))
    {
      hide Lookup.Ok, Lookup.All, Transactions.Lists, Partition, OwnList, Covered, SameElsewhere, SplitsInto, SplitsInThree, Hashes, Flat, Lowest,
        AllButLowest, List.Cap;
      var list := pending[a];
      QueueList(pending, queue, all.All(), a);
      PendingNotEmpty(pending, queue, all.All(), a);
      var k := |list.txs| - 1;
      CapStage(list, a, true, k);
      caps := Flat(AllButLowest(list.txs, k));
      NothingBack(list.txs, list.Cap(k).txs, AllButLowest(list.txs, k));
      ReplacePending(a, list.Cap(k), caps, AllButLowest(list.txs, k), [], map[]);
      NoMapAdded(At(old(queue), a, false).txs);
    }

    /** Drops the highest pending nonce of an account and lowers its virtual nonce to it. */
    method CapOne(a: Address)
      requires Valid() && a in pending
      modifies this`pending, this`queue, this`all, this`nonces, priced
      ensures Valid()
      ensures Acc(a) == Cut(old(Acc(a)), |old(Acc(a)).pending| - 1) && forall b :: b != a ==> Acc(b) == old(Acc(b))
      ensures |old(Acc(a)).pending| > 1 ==> a in pending && Total(pending) == Total(old(pending)) - 1
    {
      hide *;
      ghost var p0, q0, all0, next := pending, queue, all.All(), Next(a);
      ValidParts();
      AccParts();
      PendingSome(p0, q0, all0, a);
      var caps := CutOne(a);
      ValidParts();
      CapOneTotal(p0, q0, all0, pending, queue, all.All(), a);
      CapOneCuts(p0, q0, all0, pending, queue, a, caps, next);
      SetIfLower(a, caps[0].nonce);
      MarkGone(|caps|);
      AccParts();
    }

    ghost function Snap(): Snapshot
      reads this`pending, this`queue, this`nonces, this`nonceOf
    {
      Snapshot(pending, queue, nonces, nonceOf)
    }

    /** The same on snapshots. */
    method CapOffender(o: Address)
      requires Valid() && o in pending
      modifies this`pending, this`queue, this`all, this`nonces, priced
      ensures Valid()
      ensures Snap().View(o) == Cut(old(Snap()).View(o), |old(Snap()).View(o).pending| - 1) && forall b :: b != o ==> Snap().View(b) == old(Snap()).View(b)
      ensures |old(Snap()).View(o).pending| > 1 ==> o in pending && Total(pending) == Total(old(pending)) - 1
    {
      hide TxPool.Valid, Lookup.All, Total, Cut, At, PricedList.TxPricedList.View;
      ghost var mid := Snap();
      assert mid.View(o) == Acc(o);
      CapOne(o);
      assert Snap().View(o) == Acc(o);
      forall b: Address | b != o ensures Snap().View(b) == mid.View(b) {
        assert Acc(b) == old(Acc(b));
      }
    }

    /** Drops one transaction from each of the given accounts, which all have `level` pending ones. */
    method Round(offenders: seq<Address>, ghost level: nat)
      requires Valid() && level >= 2
      requires NoDuplicates(offenders)
      requires forall i :: 0 <= i < |offenders| ==> offenders[i] in pending && Snap().Len(offenders[i]) == level
      modifies this`pending, this`queue, this`all, this`nonces, priced
      ensures Valid() && Total(pending) == Total(old(pending)) - |offenders|
      ensures forall a :: Snap().View(a) == if a in offenders then Cut(old(Snap()).View(a), level - 1) else old(Snap()).View(a)
    {
      hide TxPool.Valid, Lookup.Ok, Lookup.All, Partition, Covered, Total, Cut, BookOk, NoDuplicates, Members, At, RoundDone;
      ghost var start := Snap();
      ValidParts();
      RoundStart(start, level);
      ghost var done: set<Address> := {};
      PendingOk(pending, queue, all.All());
      MembersPrefix(offenders);
      for i := 0 to |offenders|
        invariant Valid() && Total(pending) == Total(old(pending)) - i
        invariant RoundDone(start, Snap(), done, level)
        invariant done == Members(offenders[..i])
      {
        var o := offenders[i];
        MembersNext(offenders, i);
        ghost var mid := Snap();
        RoundAt(start, mid, done, level, o);
        StillPending(start.pending, pending, o);
        CapOffender(o);
        RoundStep(start, mid, Snap(), done, level, o);
        done := done + {o};
      }
      RoundEnds(start, Snap(), offenders, level);
    }

    /** Cuts the given accounts, all at `level`, round by round until the limit holds or they reach `threshold`. */
    method Equalize(offenders: seq<Address>, threshold: nat, count: int, ghost start: Snapshot, ghost from: nat)
      returns (total: int, ghost level: nat)
      requires Valid() && start.Ok() && count == Total(pending)
      requires 1 <= threshold <= from && Leveled(start, Snap(), locals, from) && Tight(start, locals, from, globalSlots)
      requires |offenders| > 0 && NoDuplicates(offenders)
      requires forall a :: a in Members(offenders) ==> a !in locals && start.Len(a) >= from
      requires forall a :: a !in locals && a !in Members(offenders) ==> start.Len(a) <= threshold
      modifies this`pending, this`queue, this`all, this`nonces, priced
      ensures Valid() && total == Total(pending)
      ensures threshold <= level <= from && Leveled(start, Snap(), locals, level) && Tight(start, locals, level, globalSlots)
      ensures total <= globalSlots || level == threshold
    {
      hide Lookup.Ok, Lookup.All, Partition, Covered, Total, Cut, Leveled, Tight, TotalAt, BookOk, NoDuplicates;
      total, level := count, from;
      var last := offenders[|offenders| - 1];
      assert last in Members(offenders);
      PendingOk(pending, queue, all.All());
      LeveledAt(start, Snap(), locals, level, last);
      while total > globalSlots && |pending[last].txs| > threshold
        invariant Valid() && start.Ok() && Snap().Ok() && total == Total(pending)
        invariant threshold <= level <= from && Leveled(start, Snap(), locals, level) && Tight(start, locals, level, globalSlots)
        invariant last in pending && |pending[last].txs| == level
        decreases level
      {
        LevelDown(offenders, threshold, start, level);
        total := total - |offenders|;
        level := level - 1;
        PendingOk(pending, queue, all.All());
        LeveledAt(start, Snap(), locals, level, last);
      }
    }

    /** One round over everybody at `level` while the limit is exceeded. */
    method LevelDown(offenders: seq<Address>, ghost threshold: nat, ghost start: Snapshot, ghost level: nat)
      requires Valid() && start.Ok() && Total(pending) > globalSlots && NoDuplicates(offenders)
      requires 1 <= threshold < level && Leveled(start, Snap(), locals, level)
      requires forall a :: a in Members(offenders) ==> a !in locals && start.Len(a) >= level
      requires forall a :: a !in locals && a !in Members(offenders) ==> start.Len(a) <= threshold
      modifies this`pending, this`queue, this`all, this`nonces, priced
      ensures Valid() && Total(pending) == Total(old(pending)) - |offenders|
      ensures Leveled(start, Snap(), locals, level - 1) && Tight(start, locals, level - 1, globalSlots)
    {
      hide Lookup.Ok, Lookup.All, Partition, Covered, Total, Cut, Leveled, Tight, TotalAt, BookOk, NoDuplicates;
      ghost var now := Snap();
      PendingOk(pending, queue, all.All());
      forall a | a in offenders ensures a in pending && now.Len(a) == level {
        LeveledAt(start, now, locals, level, a);
      }
      LeveledCount(start, now, locals, level);
      Round(offenders, level);
      LeveledRound(start, now, Snap(), locals, level, Members(offenders));
      TightBelow(start, locals, level, globalSlots);
    }

    method CountPending() returns (total: nat)
      ensures total == Total(pending)
    {
      total := 0;
      var todo := pending.Keys;
      ghost var done: Book := map[];
      assert Lens(done) == map[];
      while todo != {}
        invariant todo <= pending.Keys
        invariant done == map a | a in pending && a !in todo :: pending[a]
        invariant total == Total(done)
        decreases |todo|
      {
        var a :| a in todo;
        todo := todo - {a};
        TotalAdd(done, a, pending[a]);
        done := done[a := pending[a]];
        total := total + |pending[a].txs|;
      }
      assert done == pending;
    }

    /** Equalises one more spammer, the longest left, with the offenders before it. */
    method NextOffender(offenders: seq<Address>, offender: Address, count: int, ghost spammers: set<Address>, ghost start: Snapshot, ghost above: nat)
      returns (total: int, ghost level: nat)
      requires Valid() && start.Ok() && count == Total(pending) > globalSlots && above >= accountSlots
      requires Leveled(start, Snap(), locals, above) && Tight(start, locals, above, globalSlots) && NoDuplicates(offenders)
      requires Offending(start, locals, accountSlots, above, Members(offenders), spammers)
      requires offender in spammers && offender in pending
      requires forall a :: a in spammers ==> a in pending && |pending[a].txs| <= |pending[offender].txs|
      modifies this`pending, this`queue, this`all, this`nonces, priced
      ensures Valid() && total == Total(pending) && level >= accountSlots
      ensures Leveled(start, Snap(), locals, level) && Tight(start, locals, level, globalSlots) && NoDuplicates(offenders + [offender])
      ensures total > globalSlots ==>
                && Offending(start, locals, accountSlots, level, Members(offenders + [offender]), spammers - {offender})
                && forall a :: a in spammers - {offender} ==> a in pending
    {
      hide Lookup.Ok, Lookup.All, Partition, Covered, Total, Cut, Leveled, Tight, TotalAt, BookOk, Offending, NoDuplicates, Members;
      ghost var offs := Members(offenders);
      PendingOk(pending, queue, all.All());
      OffenderPopped(start, Snap(), locals, accountSlots, above, offs, spammers, offender, globalSlots);
      MembersAppend(offenders, offender);
      if |offenders| > 0 {
        total, level := Equalize(offenders, |pending[offender].txs|, count, start, above);
      } else {
        EmptyOffenders();
        total, level := count, start.Len(offender);
      }
      if total > globalSlots {
        PendingOk(pending, queue, all.All());
        OffendersGrow(start, Snap(), locals, accountSlots, above, level, offs, spammers, offender);
      }
    }

    /**
     Brings the number of pending transactions down to the limit by cutting all non-local
     accounts to one common level, never below their guaranteed slots. The level is the
     highest for which the limit holds.
     */
    method TruncatePending() returns (ghost level: nat)
      requires Valid()
      modifies this`pending, this`queue, this`all, this`nonces, priced
      ensures Valid() && level >= accountSlots
      ensures Leveled(old(Snap()), Snap(), locals, level)
      ensures Total(pending) <= globalSlots || level == accountSlots
      ensures Tight(old(Snap()), locals, level, globalSlots)
      ensures Total(old(pending)) <= globalSlots ==> priced.View() == old(priced.View())
    {
      hide TxPool.Valid, Lookup.Ok, Lookup.All, Partition, Covered, Total, Cut, Leveled, Tight, TotalAt, BookOk, Offending, NoDuplicates, Members;
      ghost var start := Snap();
      ValidParts();
      SlotsPositive();
      PendingOk(pending, queue, all.All());
      var total: int := CountPending();
      level := total + accountSlots;
      NobodyCut(start, locals, level, globalSlots);
      if total <= globalSlots {
        return;
      }
      var spammers := set a | a in pending && a !in locals && |pending[a].txs| > accountSlots;
      var offenders: seq<Address> := [];
      EmptyOffenders();
      OffendingStart(start, locals, accountSlots, level, spammers);
      while total > globalSlots && spammers != {}
        invariant Valid() && total == Total(pending) && level >= accountSlots
        invariant Leveled(start, Snap(), locals, level) && Tight(start, locals, level, globalSlots) && NoDuplicates(offenders)
        invariant total > globalSlots ==>
                    && Offending(start, locals, accountSlots, level, Members(offenders), spammers)
                    && forall a :: a in spammers ==> a in pending
        decreases |spammers|
      {
        LongestExists(pending, spammers);
        var offender :| offender in spammers && forall a :: a in spammers ==> |pending[a].txs| <= |pending[offender].txs|;
        total, level := NextOffender(offenders, offender, total, spammers, start, level);
        offenders, spammers := offenders + [offender], spammers - {offender};
      }
      if total > globalSlots {
        NoMoreSpammers(start, locals, accountSlots, level, Members(offenders));
        if |offenders| > 0 {
          total, level := Equalize(offenders, accountSlots, total, start, level);
        } else {
          EmptyOffenders();
          LeveledHigh(start, Snap(), locals, level, accountSlots);
          level := accountSlots;
          NobodyAbove(start, locals, level, globalSlots);
        }
      }
    }

    method CountQueue() returns (total: nat)
      ensures total == Total(queue)
    {
      total := 0;
      var todo := queue.Keys;
      ghost var done: Book := map[];
      assert Lens(done) == map[];
      while todo != {}
        invariant todo <= queue.Keys
        invariant done == map a | a in queue && a !in todo :: queue[a]
        invariant total == Total(done)
        decreases |todo|
      {
        var a :| a in todo;
        todo := todo - {a};
        TotalAdd(done, a, queue[a]);
        done := done[a := queue[a]];
        total := total + |queue[a].txs|;
      }
      assert done == queue;
    }

    /** Removes one queued transaction. */
    method RemoveQueued(tx: Tx)
      requires Valid() && tx.nonce in Acc(tx.from).queue && Acc(tx.from).queue[tx.nonce] == tx
      modifies this`pending, this`queue, this`all, this`nonces, priced
      ensures Valid() && Acc(tx.from) == old(Acc(tx.from)).(queue := old(Acc(tx.from)).queue - {tx.nonce})
      ensures forall b :: b != tx.from ==> Acc(b) == old(Acc(b))
    {
      hide Lookup.Ok, Lookup.All, Partition, Covered, SoundPool;
      QueuedIsKnown(pending, queue, all.All(), tx);
      RemoveTx(tx.hash, true);
    }

    /** Removes the highest of an account's `i + 1` lowest queued transactions. */
    method TopOne(tx: Tx, ghost acc: Account, ghost i: nat)
      requires Valid() && Acc(tx.from) == acc.(queue := Lowest(acc.queue, i + 1)) && OwnQueue(acc.queue, tx.from)
      requires i < |Flat(acc.queue)| && tx == Flat(acc.queue)[i]
      modifies this`pending, this`queue, this`all, this`nonces, priced
      ensures Valid() && Acc(tx.from) == acc.(queue := Lowest(acc.queue, i)) && forall b :: b != tx.from ==> Acc(b) == old(Acc(b))
    {
      TopOfQueue(acc.queue, tx.from, i);
      hide *;
      RemoveQueued(tx);
    }

    /** Removes queued transactions of an account from the top until `keep` are left. */
    method TopOff(a: Address, keep: nat)
      requires Valid() && keep <= |Acc(a).queue|
      modifies this`pending, this`queue, this`all, this`nonces, priced
      ensures Valid() && Acc(a) == old(Acc(a)).(queue := Lowest(old(Acc(a)).queue, keep))
      ensures forall b :: b != a ==> Acc(b) == old(Acc(b))
    {
      hide *;
      ValidParts();
      AccParts();
      QueueList(pending, queue, all.All(), a);
      ghost var acc := Acc(a);
      var txs := Flat(At(queue, a, false).txs);
      QueueListing(At(queue, a, false), a);
      LowestAll(acc.queue, |txs|);
      var i := |txs|;
      while i > keep
        invariant keep <= i <= |txs| && Valid()
        invariant Acc(a) == acc.(queue := Lowest(acc.queue, i))
        invariant forall b :: b != a ==> Acc(b) == old(Acc(b))
      {
        i := i - 1;
        FromOwner(acc.queue, a, i);
        TopOne(txs[i], acc, i);
      }
    }

    /** Removes the `count` highest nonces of an account's queue. */
    method DropQueueTop(a: Address, count: nat)
      requires Valid() && count <= |Acc(a).queue|
      modifies this`pending, this`queue, this`all, this`nonces, priced
      ensures Valid() && Acc(a) == old(Acc(a)).(queue := Lowest(old(Acc(a)).queue, |old(Acc(a)).queue| - count))
      ensures forall b :: b != a ==> Acc(b) == old(Acc(b))
      ensures Total(queue) == Total(old(queue)) - count
    {
      hide Lookup.Ok, Lookup.All, Partition, Covered, Lowest, At, Total;
      var keep := |At(queue, a, false).txs| - count;
      TopOff(a, keep);
      forall b: Address | b != a ensures At(queue, b, false).txs == At(old(queue), b, false).txs {
        assert Acc(b) == old(Acc(b));
      }
      QueueTotal(pending, old(queue), queue, old(pending), old(all.All()), all.All(), a, keep);
    }

    /** Drops queued transactions of one account, at most `excess` of them. */
    method DropSome(a: Address, excess: nat) returns (count: nat)
      requires Valid()
      modifies this`pending, this`queue, this`all, this`nonces, priced
      ensures Valid() && count <= excess && Total(queue) == Total(old(queue)) - count
      ensures Shrunk(old(Acc(a)), Acc(a)) && forall b :: b != a ==> Acc(b) == old(Acc(b))
      ensures count < excess ==> Acc(a).queue == map[]
    {
      hide Lookup.Ok, Lookup.All, Partition, Covered, Lowest, Total, Shrunk;
      ghost var acc := Acc(a);
      var size := |At(queue, a, false).txs|;
      count := if size <= excess then size else excess;
      QueueKeyed(pending, queue, all.All(), a);
      DropQueueTop(a, count);
      ShrunkBy(acc, Acc(a), size - count);
    }

    /** Drops queued transactions of the next account in line. */
    method Trim(addresses: seq<Address>, k: nat, drop: nat, ghost start: Snapshot) returns (left: nat)
      requires Valid() && Total(queue) == globalQueue + drop && k < |addresses|
      requires NoDuplicates(addresses) && Trimmed(start, Snap(), addresses, k + 1, true)
      modifies this`pending, this`queue, this`all, this`nonces, priced
      ensures Valid() && Total(queue) == globalQueue + left && Trimmed(start, Snap(), addresses, k, left > 0)
    {
      hide Lookup.Ok, Lookup.All, Partition, Covered, Lowest, Total, Shrunk, Trimmed, At, NoDuplicates;
      ghost var mid := Snap();
      var count := DropSome(addresses[k], drop);
      left := drop - count;
      forall b: Address | b != addresses[k] ensures Snap().View(b) == mid.View(b) {
        assert Acc(b) == old(Acc(b));
      }
      TrimmedMore(start, mid, Snap(), addresses, k, left > 0);
    }

    /**
     Brings the number of queued transactions down to the limit. Accounts are taken one by one, the
     most recently active first, each losing its highest nonces first, until the excess is gone or
     only local accounts have queued transactions.
     */
    method TruncateQueue(beat: Address -> int)
      requires Valid()
      modifies this`pending, this`queue, this`all, this`nonces, priced
      ensures Valid()
      ensures forall a :: Shrunk(old(Snap()).View(a), Snap().View(a)) && (a in locals ==> Snap().View(a) == old(Snap()).View(a))
      ensures NewestFirst(old(Snap()), Snap(), locals, beat)
      ensures Total(old(queue)) <= globalQueue ==> priced.View() == old(priced.View())
      ensures Total(queue) <= globalQueue || forall a :: a !in locals ==> Snap().View(a).queue == map[]
      ensures Total(queue) >= globalQueue || Total(queue) == Total(old(queue))
    {
      hide Lookup.Ok, Lookup.All, Partition, Covered, Lowest, Total, Shrunk, Trimmed, NewestFirst, At, Sorting.Sorted, NoDuplicates, Members;
      ghost var start := Snap();
      var queued := CountQueue();
      var remote := set a | a in queue && a !in locals;
      var addresses := ByHeartbeat(remote, beat);
      var k: nat := |addresses|;
      TrimmedStart(start, addresses);
      if queued > globalQueue {
        var drop: nat := queued - globalQueue;
        while drop > 0 && k > 0
          invariant Valid() && Total(queue) == globalQueue + drop && k <= |addresses|
          invariant Trimmed(start, Snap(), addresses, k, drop > 0)
          decreases k
        {
          k := k - 1;
          drop := Trim(addresses, k, drop, start);
        }
        TrimmedEnds(start, Snap(), addresses, k, drop > 0, locals, beat);
      } else {
        TrimmedEnds(start, Snap(), addresses, k, false, locals, beat);
      }
    }

    /** The accounts in the order of their last heartbeat. */
    method ByHeartbeat(accounts: set<Address>, beat: Address -> int) returns (s: seq<Address>)
      ensures NoDuplicates(s) && Members(s) == accounts && Sorting.Sorted(s, beat)
    {
      s := [];
      var todo := accounts;
      while todo != {}
        invariant NoDuplicates(s) && todo <= accounts && Members(s) == accounts - todo
        decreases |todo|
      {
        var a: Address :| a in todo;
        todo := todo - {a};
        MembersAppend(s, a);
        s := s + [a];
      }
      Sorting.SortSorts(s, beat);
      SameMembers(s, Sorting.Sort(s, beat));
      s := Sorting.Sort(s, beat);
    }

    method SetHead(h: Head)
      requires Valid()
      modifies this`nonceOf, this`balanceOf, this`maxGas, this`nonces
      ensures Valid() && nonceOf == h.nonceOf && balanceOf == h.balanceOf && maxGas == h.maxGas && nonces == map[]
    {
      hide Lookup.Ok, Lookup.All, Partition, Covered;
      nonceOf, balanceOf, maxGas := h.nonceOf, h.balanceOf, h.maxGas;
      nonces := map[];
    }

    /** What the pool knows and what its eviction list holds. */
    ghost function Goods(): Stock
      reads this`all, this`entered, this`localTxs, priced
    {
      Stock(all.All(), all.slots, priced.View(), entered, localTxs)
    }

    /** The limit on the slots in use. */
    function Capacity(): nat {
      globalSlots + globalQueue
    }

    /** Offers a transaction that the chain dropped. */
    method Reinject(tx: Tx) returns (ghost o: Offering)
      requires Valid() && evicting == {} && meaning(tx.hash) == tx
      modifies this`pending, this`queue, this`all, this`nonces, this`locals, this`localTxs, this`entered, this`evicting, priced
      ensures Valid() && evicting == {} && locals == old(locals) && (locals == {} ==> localTxs == old(localTxs)) && o.tx == tx
      ensures forall a :: Acc(a) == AfterOffer(old(Acc(a)), a, o)
      ensures all.All() == LookupAfter(old(all.All()), old(Acc(tx.from)), o)
      ensures OfferingOk(old(all.All()), old(Acc(tx.from)), o, FundsOf(tx.from), Capacity(), tx.from in locals, locals == {} && old(localTxs) == {})
      ensures StockOffered(old(Goods()), Goods(), o, Capacity(), locals)
    {
      hide TxPool.Valid, Lookup.Ok, Lookup.All, Partition, Covered, SoundPool, HashesOf, At, OfferingOk, AfterOffer, LookupAfter, EvictedFrom,
        OfferOutcome, Evictions, PricedList.SlotsOf, PricedList.LiveSlots, SlotSum, Undoubled, Single, Admissible, StockAdded, StockOffered;
      ghost var l, entries, acc := all, priced.Entries(), Acc(tx.from);
      ValidParts();
      PlainRoom(l, entries, localTxs, entered, meaning);
      SingleUndoubled(l, entries, localTxs, entered, meaning);
      var r;
      ghost var evicted;
      r, evicted := Add(tx, false);
      o := Offering(tx, r, evicted);
      OfferedOk(l, entries, acc, o, FundsOf(tx.from), Capacity(), tx.from in locals, locals == {} && old(localTxs) == {});
      OneMoreKnown(l.All(), acc, o);
      NoneForFree(evicted, l.remotes, entries, if o.Reached() then Surplus(l.slots, tx) else 0);
      GoodsOffered(old(Goods()), Goods(), l.remotes, acc, o, Capacity(), locals);
    }

    /**
     Takes over the state of a new head, forgets the virtual nonces and offers the dropped transactions
     again, one after the other. The log says what became of each offer, and with it what every
     account looks like afterwards.
     */
    method ApplyReset(h: Head) returns (ghost log: seq<Offering>)
      requires Valid() && evicting == {} && Genuine(h.reinject, meaning)
      modifies this`nonceOf, this`balanceOf, this`maxGas, this`nonces, this`pending, this`queue, this`all, this`locals, this`localTxs,
               this`entered, this`evicting, priced
      ensures Valid() && evicting == {} && locals == old(locals) && (locals == {} ==> localTxs == old(localTxs))
      ensures nonceOf == h.nonceOf && balanceOf == h.balanceOf && maxGas == h.maxGas
      ensures forall a :: Acc(a) == Reinjected(old(Acc(a)).(next := h.nonceOf(a)), a, log)
      ensures |log| == |h.reinject|
      ensures LogOk(Snapshot(old(pending), old(queue), map[], h.nonceOf), old(all.All()), h, log, Capacity(), locals,
                    locals == {} && old(localTxs) == {})
      ensures StockLogged(old(Goods()), Goods(), h.reinject, log, Capacity(), locals, true)
    {
      hide TxPool.Valid, Lookup.Ok, Lookup.All, Partition, Covered, At, Reinjected, LogOk, OfferingOk, LookupAt, AfterOffer,
        LookupAfter, StockLogged, StockOffered;
      SetHead(h);
      log := [];
      ghost var start, goods := Snap(), Goods();
      ghost var plain := locals == {} && localTxs == {};
      NothingLogged(start, all.All(), h, Capacity(), locals, plain);
      StockStart(goods, Capacity(), locals, true);
      forall a: Address ensures Reinjected(start.View(a), a, []) == start.View(a) { ReinjectedNone(start.View(a), a); }
      for i := 0 to |h.reinject|
        invariant Valid() && evicting == {} && |log| == i && locals == old(locals) && (locals == {} ==> localTxs == old(localTxs))
        invariant nonceOf == h.nonceOf && balanceOf == h.balanceOf && maxGas == h.maxGas
        invariant all.All() == LookupAt(start, old(all.All()), log)
        invariant forall a :: Acc(a) == Reinjected(start.View(a), a, log)
        invariant LogOk(start, old(all.All()), h, log, Capacity(), locals, plain)
        invariant StockLogged(goods, Goods(), h.reinject[..i], log, Capacity(), locals, true)
      {
        ghost var before := Goods();
        label offering:
        ghost var o := Reinject(h.reinject[i]);
        LogGrows(start, old(all.All()), h, log, Capacity(), locals, plain, o);
        StockNext(goods, before, Goods(), h.reinject[..i], log, o, Capacity(), locals);
        assert h.reinject[..i + 1] == h.reinject[..i] + [o.tx];
        forall a: Address ensures Acc(a) == Reinjected(start.View(a), a, log + [o]) {
          assert old@offering(Acc(a)) == Reinjected(start.View(a), a, log);
          ReinjectedNext(start.View(a), a, log, o);
        }
        log := log + [o];
      }
      assert h.reinject[..|h.reinject|] == h.reinject;
      forall a: Address ensures Acc(a) == Reinjected(old(Acc(a)).(next := h.nonceOf(a)), a, log) {
        assert start.View(a) == old(Acc(a)).(next := h.nonceOf(a));
      }
    }

    /** Sets the virtual nonce of every account with pending transactions behind the highest one. */
    method SettleNonces()
      requires Valid()
      modifies this`nonces
      ensures Valid() && forall a :: Snap().View(a) == Settle(old(Snap()).View(a))
    {
      hide TxPool.Valid, Lookup.Ok, Lookup.All, Partition, Covered, Settle, At;
      var todo := pending.Keys;
      forall a: Address | a !in todo ensures Settle(Acc(a)) == Acc(a) {
        NothingPending(pending, a, Acc(a));
      }
      while todo != {}
        invariant Valid() && todo <= pending.Keys
        invariant forall a :: Acc(a) == if a in todo then old(Acc(a)) else Settle(old(Acc(a)))
        decreases |todo|
      {
        var a: Address :| a in todo;
        assert Acc(a) == old(Acc(a));
        todo := todo - {a};
        SettleOne(a);
      }
      forall a: Address ensures Snap().View(a) == Settle(old(Snap()).View(a)) { assert Acc(a) == Settle(old(Acc(a))); }
    }

    method SettleOne(a: Address)
      requires Valid() && a in pending
      modifies this`nonces
      ensures Valid() && Acc(a) == Settle(old(Acc(a))) && forall b :: b != a ==> Acc(b) == old(Acc(b))
    {
      hide TxPool.Valid, Lookup.Ok, Lookup.All, Partition, Covered, PastOr, Flat, At;
      ValidParts();
      HighestPending(pending, queue, all.All(), a, Acc(a));
      var txs := Flat(pending[a].txs);
      SetNext(a, txs[|txs| - 1].nonce + 1);
    }

    method SetNext(a: Address, nonce: nat)
      modifies this`nonces
      ensures old(Valid()) ==> Valid()
      ensures Acc(a) == old(Acc(a)).(next := nonce) && forall b :: b != a ==> Acc(b) == old(Acc(b))
    {
      hide Lookup.Ok, Lookup.All, Partition, Covered;
      nonces := nonces[a := nonce];
    }

    /** Promotes every account with queued transactions, then demotes what no longer fits the state. */
    method PromoteAndDemote()
      requires Valid()
      modifies this`pending, this`queue, this`all, this`nonces, priced
      ensures Valid()
      ensures forall a :: Acc(a) == Demoted(Promoted(old(Acc(a)), FundsOf(a), QueueLimit(a)), FundsOf(a))
      ensures old(priced.View()).Calm() && (forall a :: Lossless(old(Acc(a)), FundsOf(a), QueueLimit(a))) ==> priced.View() == old(priced.View())
    {
      hide TxPool.Valid, Lookup.Ok, Lookup.All, Partition, Covered, Promoted, Demoted, Lossless, At, PricedList.Tally.Calm;
      forall a: Address | a !in queue.Keys ensures Promoted(Acc(a), FundsOf(a), QueueLimit(a)) == Acc(a) {
        NotQueued(queue, a);
        PromotedNothing(Acc(a), FundsOf(a), QueueLimit(a));
      }
      PromoteExecutables(queue.Keys);
      DemoteUnexecutables();
    }

    /** As `PromoteAndDemote` or, without a reset, the promotion of the given accounts. */
    method Rearrange(req: Request)
      requires Valid()
      modifies this`pending, this`queue, this`all, this`nonces, priced
      ensures Valid() && AllRearranged(old(Snap()), Snap(), req, StateOf(), locals, accountQueue)
      ensures old(priced.View()).Calm() && AllLossless(old(Snap()), StateOf(), locals, accountQueue) ==> priced.View() == old(priced.View())
    {
      hide TxPool.Valid, Lookup.Ok, Lookup.All, Partition, Covered, Promoted, Demoted, Lossless, At, PricedList.Tally.Calm, PricedList.TxPricedList.View;
      match req {
        case Promote(accounts) =>
          PromoteExecutables(accounts);
        case Reset(_, _) =>
          PromoteAndDemote();
      }
      if AllLossless(old(Snap()), StateOf(), locals, accountQueue) {
        forall a: Address ensures Lossless(old(Acc(a)), FundsOf(a), QueueLimit(a)) {
          assert Lossless(old(Snap()).View(a), StateOf().For(a), LimitFor(a, locals, accountQueue));
        }
      }
      forall a: Address ensures Snap().View(a) == Rearranged(old(Snap()).View(a), a, req, StateOf().For(a), LimitFor(a, locals, accountQueue)) {
        assert Acc(a) == Rearranged(old(Acc(a)), a, req, FundsOf(a), QueueLimit(a));
      }
    }

    /** Rearranging adds nothing. */
    method RearrangeStock(req: Request)
      requires Valid()
      modifies this`pending, this`queue, this`all, this`nonces, priced
      ensures Valid() && AllRearranged(old(Snap()), Snap(), req, StateOf(), locals, accountQueue)
      ensures StockShrunk(old(Goods()), Goods(), old(priced.View()).Calm() && AllLossless(old(Snap()), StateOf(), locals, accountQueue))
    {
      hide TxPool.Valid, Lookup.Ok, Lookup.All, Partition, Covered, AllRearranged, AllLossless, OnlyFrom, PricedList.Tally.Calm;
      ghost var start, l := Snap(), all;
      ValidParts();
      Rearrange(req);
      ValidParts();
      RearrangedOnlyAll(start, Snap(), l.All(), req, StateOf(), locals, accountQueue);
      LookupShrinks(start, l.All(), Snap(), all.All());
      SlotsAre(l);
      SlotsAre(all);
    }

    /** Adjusts pending and queue to the request. */
    method Reorganise(req: Request) returns (ghost log: seq<Offering>)
      requires Valid() && evicting == {} && Genuine(Given(req), meaning)
      modifies this`nonceOf, this`balanceOf, this`maxGas, this`nonces, this`pending, this`queue, this`all, this`locals, this`localTxs,
               this`entered, this`evicting, priced
      ensures Valid() && evicting == {} && locals == old(locals) && (locals == {} ==> localTxs == old(localTxs))
      ensures StateOf() == StateAfter(req, old(StateOf()))
      ensures AllReorganised(old(Snap()), Snap(), req, log, StateOf(), locals, accountQueue) && AllSeparate(old(Snap()), req, log, StateOf())
      ensures |log| == |Given(req)|
      ensures req.Reset? && req.taken ==>
                LogOk(Snapshot(old(pending), old(queue), map[], nonceOf), old(all.All()), req.head, log, Capacity(), locals,
                      locals == {} && old(localTxs) == {})
      ensures StockLogged(old(Goods()), Goods(), Given(req), log, Capacity(), locals,
                          old(priced.View()).Calm() && QuietReorg(old(Snap()), req, log, StateOf(), locals, accountQueue))
    {
      hide TxPool.Valid, Lookup.Ok, Lookup.All, Partition, Covered, Rearranged, Separate, Reinjected, LogOk, At, StockLogged, StockShrunk,
        Lossless, PricedList.Tally.Calm, Resumed;
      log := [];
      ghost var start, goods := Snap(), Goods();
      StockStart(goods, Capacity(), locals, true);
      ResetIs(req);
      if req.Reset? && req.taken {
        log := ApplyReset(req.head);
      }
      ghost var mid, halfway := Snap(), Goods();
      forall a: Address ensures mid.View(a) == Resumed(start.View(a), a, req, log, StateOf().For(a)) && Separate(mid.View(a)) {
        ResumedIs(start.View(a), a, req, log, StateOf().For(a));
        ValidParts();
        AccountSeparate(pending, queue, all.All(), a, Next(a));
        assert mid.View(a) == Acc(a);
      }
      RearrangeStock(req);
      CalmStays(goods, halfway, Given(req), log, Capacity(), locals);
      StockThen(goods, halfway, Goods(), Given(req), log, Capacity(), locals, true,
                halfway.tally.Calm() && AllLossless(mid, StateOf(), locals, accountQueue),
                goods.tally.Calm() && QuietReorg(start, req, log, StateOf(), locals, accountQueue));
    }

    /** Truncates pending lists and queues and settles the virtual nonces. */
    method Truncate(beat: Address -> int) returns (ghost level: nat)
      requires Valid()
      modifies this`nonces, this`pending, this`queue, this`all, priced
      ensures Valid() && WithinLimits(old(Snap()), Snap(), locals, level, accountSlots, globalSlots, globalQueue, beat)
      ensures forall a :: OnlyFrom(Snap().View(a), old(Snap()).View(a))
      ensures Total(old(pending)) <= globalSlots && Total(old(queue)) <= globalQueue ==> priced.View() == old(priced.View())
    {
      hide TxPool.Valid, NewestFirst, Lookup.Ok, Lookup.All, Partition, Covered, Leveled, Shrunk, Total, Tight, At, OnlyFrom, WithinLimits, Separate,
        Settle, PricedList.TxPricedList.View;
      ghost var start, known := Snap(), all.All();
      ValidParts();
      SlotsPositive();
      forall a: Address ensures Separate(start.View(a)) { AccountSeparate(pending, queue, all.All(), a, Next(a)); }
      level := TruncatePending();
      ghost var cut := Snap();
      ValidParts();
      CutQueueTotal(start, cut, locals, level, start.pending, known, all.All());
      PendingOk(pending, queue, all.All());
      TruncateQueue(beat);
      ghost var shrunk := Snap();
      SettleNonces();
      ValidParts();
      LimitsApplied(start, cut, shrunk, Snap(), known, all.All(), locals, level, accountSlots, globalSlots, globalQueue, beat);
    }

    /** Applies the size limits, which adds nothing. */
    method EnforceLimits(beat: Address -> int) returns (ghost level: nat)
      requires Valid()
      modifies this`nonces, this`pending, this`queue, this`all, priced
      ensures Valid() && WithinLimits(old(Snap()), Snap(), locals, level, accountSlots, globalSlots, globalQueue, beat)
      ensures StockShrunk(old(Goods()), Goods(), Total(old(pending)) <= globalSlots && Total(old(queue)) <= globalQueue)
    {
      hide TxPool.Valid, Lookup.Ok, Lookup.All, Partition, Covered, Total, OnlyFrom, WithinLimits;
      ghost var start, l := Snap(), all;
      ValidParts();
      level := Truncate(beat);
      ValidParts();
      LookupShrinks(start, l.All(), Snap(), all.All());
      SlotsAre(l);
      SlotsAre(all);
    }

    /**
     Reorganises the pool: takes over a new head if there is one and offers the dropped transactions
     again, promotes, demotes after a reset, enforces the limits and settles the virtual nonces. `mid` is
     the pool before the limits: every account in it is a function of the log of the offers, and the
     limits cut no more than they have to. A sound pool stays sound if and only if every account keeps
     its run.
     */
    method RunReorg(req: Request, beat: Address -> int) returns (ghost log: seq<Offering>, ghost level: nat, ghost mid: Snapshot)
      requires Valid() && evicting == {} && Genuine(Given(req), meaning)
      modifies this`nonceOf, this`balanceOf, this`maxGas, this`nonces, this`pending, this`queue, this`all, this`locals, this`localTxs,
               this`entered, this`evicting, priced
      ensures Valid() && evicting == {} && locals == old(locals) && (locals == {} ==> localTxs == old(localTxs))
      ensures StateOf() == StateAfter(req, old(StateOf()))
      ensures AllReorganised(old(Snap()), mid, req, log, StateOf(), locals, accountQueue)
      ensures WithinLimits(mid, Snap(), locals, level, accountSlots, globalSlots, globalQueue, beat)
      ensures |log| == |Given(req)|
      ensures req.Reset? && req.taken ==>
                LogOk(Snapshot(old(pending), old(queue), map[], nonceOf), old(all.All()), req.head, log, Capacity(), locals,
                      locals == {} && old(localTxs) == {})
      ensures StockLogged(old(Goods()), Goods(), Given(req), log, Capacity(), locals,
                          && old(priced.View()).Calm() && |old(all.All())| + |Given(req)| <= Min(globalSlots, globalQueue)
                          && QuietReorg(old(Snap()), req, log, StateOf(), locals, accountQueue))
      ensures old(SoundPool()) ==> (SoundPool() <==> AllKeepRuns(old(Snap()), old(StateOf()), req, log, StateOf(), locals, level))
      ensures old(SoundPool()) && Forward(req, old(nonceOf)) ==> SoundPool()
    {
      hide TxPool.Valid, Lookup.Ok, Lookup.All, Partition, Covered, SoundPool, Total, AllReorganised, AllSeparate, AllKeepRuns, AllSound, LogOk, Forward,
        WithinLimits, StockLogged, StockShrunk, QuietReorg, PricedList.Tally.Calm;
      ghost var start, goods, prior := Snap(), Goods(), StateOf();
      ValidParts();
      SlotsPositive();
      SoundIs();
      log := Reorganise(req);
      mid := Snap();
      ghost var halfway := Goods();
      ValidParts();
      FewEnough(goods, halfway, Given(req), log, Capacity(), locals, mid,
                goods.tally.Calm() && QuietReorg(start, req, log, StateOf(), locals, accountQueue));
      level := EnforceLimits(beat);
      StockThen(goods, halfway, Goods(), Given(req), log, Capacity(), locals,
                goods.tally.Calm() && QuietReorg(start, req, log, StateOf(), locals, accountQueue),
                Total(mid.pending) <= globalSlots && Total(mid.queue) <= globalQueue,
                && goods.tally.Calm() && |goods.all| + |Given(req)| <= Min(globalSlots, globalQueue)
                && QuietReorg(start, req, log, StateOf(), locals, accountQueue));
      SoundIs();
      if AllSound(start, prior) {
        ReorgSoundAll(start, goods.all, prior, mid, Snap(), StateOf(), req, log, level, locals, accountSlots, globalSlots, globalQueue, accountQueue,
                      beat, Capacity(), locals == {} && goods.localTxs == {});
      }
    }

    /** Drops the whole queue of a non-local account that has been idle too long. */
    method Evict(a: Address)
      requires Valid()
      modifies this`pending, this`queue, this`all, this`nonces, priced
      ensures Valid()
      ensures Acc(a) == (if a in locals then old(Acc(a)) else old(Acc(a)).(queue := map[])) && forall b :: b != a ==> Acc(b) == old(Acc(b))
      ensures old(SoundPool()) ==> SoundPool()
    {
      hide Lookup.Ok, Lookup.All, Partition, Covered, Lowest;
      if a in locals {
        return;
      }
      QueueKeyed(pending, queue, all.All(), a);
      ghost var acc := Acc(a);
      DropQueueTop(a, |At(queue, a, false).txs|);
      ShrunkBy(acc, Acc(a), 0);
    }

    /** Whether an account's last heartbeat is longer ago than the lifetime. */
    predicate Idle(a: Address, beat: Address -> int, now: int, lifetime: int)
      reads this`locals
    {
      a !in locals && now - beat(a) > lifetime
    }

    /** Drops the queues of exactly the non-local accounts that have been idle too long. */
    method EvictIdleAccounts(beat: Address -> int, now: int, lifetime: int)
      requires Valid()
      modifies this`pending, this`queue, this`all, this`nonces, priced
      ensures Valid()
      ensures forall a :: Acc(a) == if Idle(a, beat, now, lifetime) then old(Acc(a)).(queue := map[]) else old(Acc(a))
      ensures old(SoundPool()) ==> SoundPool()
    {
      hide TxPool.Valid, Lookup.Ok, Lookup.All, Partition, Covered, SoundPool, At;
      var todo := queue.Keys;
      forall a: Address | a !in todo ensures Acc(a) == Acc(a).(queue := map[]) { NotQueued(queue, a); }
      while todo != {}
        invariant Valid() && (old(SoundPool()) ==> SoundPool())
        invariant forall a :: Acc(a) == if a !in todo && Idle(a, beat, now, lifetime) then old(Acc(a)).(queue := map[]) else old(Acc(a))
        decreases |todo|
      {
        var a: Address :| a in todo;
        todo := todo - {a};
        if Idle(a, beat, now, lifetime) {
          Evict(a);
        }
      }
    }

    /** Idle eviction adds nothing. */
    method EvictIdleStock(beat: Address -> int, now: int, lifetime: int)
      requires Valid()
      modifies this`pending, this`queue, this`all, this`nonces, priced
      ensures Valid() && (old(SoundPool()) ==> SoundPool()) && StockShrunk(old(Goods()), Goods(), false)
    {
      hide TxPool.Valid, Lookup.Ok, Lookup.All, Partition, Covered, SoundPool, At, OnlyFrom;
      ghost var start, l := Snap(), all;
      ValidParts();
      EvictIdleAccounts(beat, now, lifetime);
      ValidParts();
      forall a: Address ensures OnlyFrom(Snap().View(a), start.View(a)) {
        assert Acc(a) == old(Acc(a)) || Acc(a) == old(Acc(a)).(queue := map[]);
        QueueDropped(start.View(a));
      }
      LookupShrinks(start, l.All(), Snap(), all.All());
      SlotsAre(l);
      SlotsAre(all);
    }

    /** An offer as a step of a run. */
    method TakeOffer(tx: Tx, local: bool)
      requires Valid() && evicting == {} && meaning(tx.hash) == tx
      modifies this`nonces, this`pending, this`queue, this`all, this`locals, this`localTxs, this`entered, this`evicting, priced
      ensures Valid() && evicting == {} && (old(SoundPool()) ==> SoundPool())
      ensures old(locals) == {} && !local ==> locals == {}
      ensures StockTaken(old(Goods()), Goods(), [tx], old(locals) == {} && !local, Capacity())
    {
      hide TxPool.Valid, Lookup.Ok, Lookup.All, Partition, Covered, SoundPool, StockAdded, StockTaken, AfterOffer, LookupAfter, Evictions,
        EvictedFrom, OfferOutcome, PricedList.SlotsOf, PricedList.LiveSlots;
      ghost var goods, l, entries, acc := Goods(), all, priced.Entries(), Acc(tx.from);
      ValidParts();
      SingleUndoubled(l, entries, localTxs, entered, meaning);
      var r;
      ghost var evicted;
      r, evicted := Add(tx, local);
      TakenOffer(goods, Goods(), l.remotes, acc, Offering(tx, r, evicted), Capacity(), local, tx.from in old(locals));
      TakenWeaker(goods, Goods(), [tx], !local && tx.from !in old(locals), old(locals) == {} && !local, Capacity());
    }

    /** A reorganisation as a step of a run. */
    method TakeReorg(req: Request, beat: Address -> int, ghost chain: Address -> nat)
      requires Valid() && evicting == {} && Genuine(Given(req), meaning)
      modifies this`nonceOf, this`balanceOf, this`maxGas, this`nonces, this`pending, this`queue, this`all, this`locals, this`localTxs,
               this`entered, this`evicting, priced
      ensures Valid() && evicting == {} && locals == old(locals)
      ensures old(SoundPool()) && NotAhead(old(nonceOf), chain) && (req.Reset? ==> ForwardHead(req.head, chain)) ==> SoundPool()
      ensures nonceOf == if req.Reset? && req.taken then req.head.nonceOf else old(nonceOf)
      ensures StockTaken(old(Goods()), Goods(), Given(req), old(locals) == {}, Capacity())
    {
      hide TxPool.Valid, Lookup.Ok, Lookup.All, Partition, Covered, SoundPool, Forward, NotAhead, ForwardHead, LogOk, StockLogged, StockTaken,
        AllReorganised, WithinLimits, AllKeepRuns, QuietReorg, PricedList.Tally.Calm, Genuine;
      ghost var goods := Goods();
      if NotAhead(nonceOf, chain) && (req.Reset? ==> ForwardHead(req.head, chain)) {
        ForwardForPool(req, chain, nonceOf);
      }
      ghost var log, level, mid;
      log, level, mid := RunReorg(req, beat);
      TakenLog(goods, Goods(), Given(req), log, Capacity(), locals,
               && goods.tally.Calm() && |goods.all| + |Given(req)| <= Min(globalSlots, globalQueue)
               && QuietReorg(old(Snap()), req, log, StateOf(), locals, accountQueue));
    }

    /** One step of a run. */
    method Take(step: Step, ghost chain: Address -> nat)
      requires Valid() && evicting == {} && GenuineStep(step, meaning)
      modifies this`nonceOf, this`balanceOf, this`maxGas, this`nonces, this`pending, this`queue, this`all, this`locals, this`localTxs,
               this`entered, this`evicting, priced
      ensures Valid() && evicting == {}
      ensures old(SoundPool()) && NotAhead(old(nonceOf), chain) && ForwardStep(step, chain) ==>
                SoundPool() && NotAhead(nonceOf, ChainAfter(step, chain))
      ensures old(locals) == {} && !LocalOffer(step) ==> locals == {}
      ensures StockTaken(old(Goods()), Goods(), StepOffers(step), old(locals) == {} && !LocalOffer(step), Capacity())
    {
      hide TxPool.Valid, Lookup.All, SoundPool, NotAhead, ForwardHead, StockTaken, PricedList.TxPricedList.View, TxPool.Goods;
      ghost var goods, prior := Goods(), nonceOf;
      match step {
        case Offer(tx, local) =>
          TakeOffer(tx, local);
        case Reorg(req, beat) =>
          TakeReorg(req, beat, chain);
          StillNotAhead(step, req, prior, nonceOf, chain);
        case EvictIdle(beat, now, lifetime) =>
          EvictIdleStock(beat, now, lifetime);
          TakenNothing(goods, Goods(), old(locals) == {}, Capacity());
      }
    }

    /**
     Any sequence of steps keeps the pool's structures in agreement. If the chain goes forward along it,
     every account's pending transactions stay the run from its state nonce to its virtual nonce. What
     is entered is among what is offered; if no transaction is offered twice, no entry of the eviction list
     is ever doubled, and without local transactions the pool stays within its limit.
     */
    method Run(steps: seq<Step>, ghost chain: Address -> nat)
      requires Valid() && evicting == {} && forall i :: 0 <= i < |steps| ==> GenuineStep(steps[i], meaning)
      modifies this`nonceOf, this`balanceOf, this`maxGas, this`nonces, this`pending, this`queue, this`all, this`locals, this`localTxs,
               this`entered, this`evicting, priced
      ensures Valid() && evicting == {}
      ensures old(SoundPool()) && NotAhead(old(nonceOf), chain) && ForwardRun(steps, chain) ==> SoundPool()
      ensures Single(old(entered) + multiset(Offers(steps))) ==> Undoubled(priced.Entries(), all.remotes)
      ensures StockTaken(old(Goods()), Goods(), Offers(steps), old(locals) == {} && NoLocalOffers(steps), Capacity())
    {
      hide TxPool.Valid, Lookup.Ok, Lookup.All, Partition, Covered, SoundPool, NotAhead, ForwardStep, StockTaken, Undoubled;
      ghost var at := chain;
      ghost var good := SoundPool() && NotAhead(nonceOf, chain) && ForwardRun(steps, chain);
      ghost var goods := Goods();
      TakenNothingYet(goods, old(locals) == {}, Capacity());
      for i := 0 to |steps|
        invariant Valid() && evicting == {}
        invariant good ==> SoundPool() && NotAhead(nonceOf, at) && ForwardRun(steps[i..], at)
        invariant old(locals) == {} && NoLocalOffers(steps[..i]) ==> locals == {}
        invariant StockTaken(goods, Goods(), Offers(steps[..i]), old(locals) == {} && NoLocalOffers(steps[..i]), Capacity())
      {
        assert steps[i..][0] == steps[i] && steps[i..][1..] == steps[i + 1..];
        assert steps[..i + 1][..i] == steps[..i] && steps[..i + 1][i] == steps[i];
        ghost var before, calm := Goods(), locals == {} && !LocalOffer(steps[i]);
        Take(steps[i], at);
        at := ChainAfter(steps[i], at);
        NoLocalMore(steps, i);
        TakenThen(goods, before, Goods(), Offers(steps[..i]), StepOffers(steps[i]), old(locals) == {} && NoLocalOffers(steps[..i]), calm,
                  old(locals) == {} && NoLocalOffers(steps[..i + 1]), Capacity());
      }
      assert steps[..|steps|] == steps;
      ValidParts();
      TakenSingle(goods, Goods(), all, Offers(steps), old(locals) == {} && NoLocalOffers(steps), Capacity(), meaning);
    }
  }

  lemma NothingPooled(pool: TxPool)
    requires pool.pending == map[] && pool.queue == map[] && pool.nonces == map[] && pool.all == Lookup(map[], map[], 0)
    requires pool.accountSlots >= 1 && pool.priced.Valid() && pool.priced.Entries() == multiset{}
    ensures pool.Valid() && pool.SoundPool() && pool.all.All() == map[]
  {
    assert Weights(map[]) == map[];
  }

  lemma AccountSeparate(p: Book, q: Book, all: map<Hash, Tx>, a: Address, next: nat)
    requires Partition(p, q, all)
    ensures Separate(Account(At(p, a, true).txs, At(q, a, false).txs, next))
  {
    QueueList(p, q, all, a);
  }

  lemma ShrunkKeeps(before: Account, now: Account)
    requires Shrunk(before, now)
    ensures now.pending == before.pending && now.next == before.next
    ensures forall n :: n in now.queue ==> n in before.queue && now.queue[n] == before.queue[n]
  {
  }

  lemma SamePendingTotal(p: Book, p': Book, q': Book, all: map<Hash, Tx>)
    requires BookOk(p, true) && Partition(p', q', all) && forall a :: At(p', a, true).txs == At(p, a, true).txs
    ensures Total(p') == Total(p)
  {
    TotalShift(p, p', 0, true);
  }

  /** An account through truncation of pending and queue and the settling of its virtual nonce. */
  lemma LimitedStages(start: Snapshot, cut: Snapshot, locals: set<Address>, level: nat, a: Address, shrunk: Account)
    requires Leveled(start, cut, locals, level) && Shrunk(cut.View(a), shrunk) && (a in locals ==> shrunk == cut.View(a))
    ensures shrunk.(next := PastOr(shrunk.pending, shrunk.next)) == Limited(start.View(a), a in locals, level, |shrunk.queue|)
    ensures cut.View(a).queue == start.View(a).queue
    ensures shrunk.pending == At(cut.pending, a, true).txs && (a in locals ==> shrunk.queue == start.View(a).queue)
  {
    hide CutNext, PastOr, Lowest, At;
    assert cut.View(a) == if a in locals then start.View(a) else Cut(start.View(a), level);
    ShrunkKeeps(cut.View(a), shrunk);
  }

  /** Cutting pending lists leaves the queues alone. */
  lemma CutQueueTotal(start: Snapshot, cut: Snapshot, locals: set<Address>, level: nat, p: Book, all: map<Hash, Tx>, all': map<Hash, Tx>)
    requires Leveled(start, cut, locals, level) && Partition(start.pending, start.queue, all) && Partition(cut.pending, cut.queue, all')
    requires p == start.pending
    ensures Total(cut.queue) == Total(start.queue)
  {
    hide Total, Matches, DisjointNonces, Lowest;
    forall a: Address ensures At(cut.queue, a, false).txs == At(start.queue, a, false).txs {
      assert cut.View(a) == if a in locals then start.View(a) else Cut(start.View(a), level);
    }
    TotalShift(start.queue, cut.queue, 0, false);
  }

  /** The offered transactions are what their hashes mean. */
  ghost predicate Genuine(txs: seq<Tx>, meaning: Hash -> Tx) {
    forall i :: 0 <= i < |txs| ==> meaning(txs[i].hash) == txs[i]
  }

  ghost predicate GenuineStep(step: Step, meaning: Hash -> Tx) {
    match step
    case Offer(tx, _) => meaning(tx.hash) == tx
    case Reorg(req, _) => Genuine(Given(req), meaning)
    case EvictIdle(_, _, _) => true
  }

  lemma NothingLogged(start: Snapshot, all: map<Hash, Tx>, h: Head, limit: nat, locals: set<Address>, plain: bool)
    ensures LookupAt(start, all, []) == all && LogOk(start, all, h, [], limit, locals, plain)
  {
  }

  lemma ReinjectedNone(acc: Account, a: Address)
    ensures Reinjected(acc, a, []) == acc
  {
  }

  /** Without local transactions the live entries are worth at least all slots in use. */
  lemma PlainRoom(l: Lookup, entries: multiset<Tx>, localTxs: set<Hash>, entered: multiset<Tx>, meaning: Hash -> Tx)
    requires l.Ok() && Covered(l, entries, {}, localTxs, entered, meaning)
    ensures localTxs == {} ==> PricedList.LiveSlots(entries, l.remotes) >= l.slots
  {
    if localTxs == {} {
      assert l.locals == map[];
      assert l.All() == l.remotes;
      RemotesWorth(l.remotes, entries, l.remotes);
    }
  }

  /** What was entered once has one entry. */
  lemma SingleUndoubled(l: Lookup, entries: multiset<Tx>, localTxs: set<Hash>, entered: multiset<Tx>, meaning: Hash -> Tx)
    requires Covered(l, entries, {}, localTxs, entered, meaning)
    ensures Single(entered) ==> Undoubled(entries, l.remotes)
  {
    if Single(entered) {
      forall tx | tx in entries ensures entries[tx] == 1 { assert entered[tx] <= 1; }
    }
  }

  lemma GoodsOffered(before: Stock, after: Stock, remotes: map<Hash, Tx>, acc: Account, o: Offering, limit: nat, locals: set<Address>)
    requires StockAdded(before, after, remotes, acc, o, limit, false, o.tx.from in locals) && |after.all| <= |before.all| + 1
    requires Single(before.entered) ==> Undoubled(before.tally.entries, remotes)
    requires before.slots + o.tx.Slots() <= limit ==> o.evicted == []
    ensures StockOffered(before, after, o, limit, locals) && (o.tx.from !in locals ==> after.localTxs == before.localTxs)
  {
    hide PricedList.KeepsLive, SlotsAt, Leaving, Undoubled, PricedList.Tally.With;
    var enters := o.outcome.Accepted? && o.tx.from !in locals;
    if Single(before.entered + One(o.tx, enters)) {
      forall x: Tx ensures before.entered[x] <= 1 { assert (before.entered + One(o.tx, enters))[x] <= 1; }
    }
  }

  lemma OneMoreKnown(all: map<Hash, Tx>, acc: Account, o: Offering)
    ensures |LookupAfter(all, acc, o)| <= |all| + 1
  {
    var after := LookupAfter(all, acc, o);
    assert after.Keys <= all.Keys + {o.tx.hash};
    SubsetSize(after.Keys, all.Keys + {o.tx.hash});
  }

  ghost predicate AllRearranged(before: Snapshot, now: Snapshot, req: Request, state: State, locals: set<Address>, accountQueue: nat) {
    forall a :: now.View(a) == Rearranged(before.View(a), a, req, state.For(a), LimitFor(a, locals, accountQueue))
  }

  lemma RearrangedOnlyAll(before: Snapshot, now: Snapshot, all: map<Hash, Tx>, req: Request, state: State, locals: set<Address>, accountQueue: nat)
    requires Partition(before.pending, before.queue, all) && AllRearranged(before, now, req, state, locals, accountQueue)
    ensures forall a :: OnlyFrom(now.View(a), before.View(a))
  {
    hide Partition, Rearranged, OnlyFrom, At;
    forall a: Address ensures OnlyFrom(now.View(a), before.View(a)) {
      AccountSeparate(before.pending, before.queue, all, a, before.View(a).next);
      RearrangedOnly(before.View(a), a, req, state.For(a), LimitFor(a, locals, accountQueue));
    }
  }

  /** Promotion would drop nothing of any account. */
  ghost predicate AllLossless(s: Snapshot, state: State, locals: set<Address>, accountQueue: nat) {
    forall a :: Lossless(s.View(a), state.For(a), LimitFor(a, locals, accountQueue))
  }

  lemma ResetIs(req: Request)
    ensures Given(req) == if req.Reset? && req.taken then req.head.reinject else []
  {
  }

  lemma ResumedIs(acc: Account, a: Address, req: Request, log: seq<Offering>, f: Funds)
    ensures Resumed(acc, a, req, log, f) == if req.Reset? && req.taken then Reinjected(acc.(next := f.nonce), a, log) else acc
  {
  }

  lemma SlotsAre(l: Lookup)
    requires l.Ok()
    ensures l.slots == SlotSum(l.All())
  {
  }

  lemma NoneForFree(drop: seq<Tx>, remotes: map<Hash, Tx>, entries: multiset<Tx>, need: int)
    requires Evictions(drop, remotes, entries, need)
    ensures need <= 0 ==> drop == []
  {
  }

  lemma {:induction false} RemotesWorth(part: map<Hash, Tx>, entries: multiset<Tx>, remotes: map<Hash, Tx>)
    requires forall h :: h in part ==> part[h].hash == h && h in remotes && part[h] in entries
    ensures Sums.Sum(Weights(part)) <= PricedList.LiveSlots(entries, remotes)
    decreases |part|
  {
    hide PricedList.LiveSlots;
    if part == map[] {
      assert Weights(part) == map[];
    } else {
      var h :| h in part;
      var rest := part - {h};
      assert Weights(part) - {h} == Weights(rest);
      Sums.SumWithout(Weights(part), h);
      PricedList.LiveSlotsWithout(entries, part[h], remotes);
      RemotesWorth(rest, entries - multiset{part[h]}, remotes);
    }
  }

  /** What the contract of an offer says in terms of values. */
  lemma OfferedOk(l: Lookup, entries: multiset<Tx>, acc: Account, o: Offering, f: Funds, limit: nat, local: bool, plain: bool)
    requires l.Ok() && (plain ==> PricedList.LiveSlots(entries, l.remotes) >= l.slots)
    requires o.outcome == AlreadyKnown <==> o.tx.hash in l.All()
    requires o.outcome == Invalid <==> o.tx.hash !in l.All() && !Admissible(o.tx, f)
    requires o.outcome == Overflow ==> !local && l.slots - limit + o.tx.Slots() > PricedList.LiveSlots(entries, l.remotes)
    requires o.Reached() ==> o.outcome == OfferOutcome(EvictedFrom(acc, o.tx.from, o.evicted), o.tx)
    requires Evictions(o.evicted, l.remotes, entries, if o.Reached() then l.slots - limit + o.tx.Slots() else 0)
    requires o.Reached() && !local ==> PricedList.SlotsOf(o.evicted) >= l.slots - limit + o.tx.Slots()
    ensures OfferingOk(l.All(), acc, o, f, limit, local, plain)
  {
    hide PricedList.SlotsOf, PricedList.LiveSlots, OfferOutcome, EvictedFrom, Admissible;
    RemotesKeyed(l);
  }

  /** A pool of so few transactions is within all limits. */
  lemma FewEnough(start: Stock, now: Stock, txs: seq<Tx>, log: seq<Offering>, limit: nat, locals: set<Address>, s: Snapshot, quiet: bool)
    requires StockLogged(start, now, txs, log, limit, locals, quiet)
    requires Partition(s.pending, s.queue, now.all)
    ensures Total(s.pending) <= |start.all| + |txs| && Total(s.queue) <= |start.all| + |txs|
  {
    TotalAtMost(s.pending, true, now.all);
    TotalAtMost(s.queue, false, now.all);
  }

  lemma ReorgSoundAll(before: Snapshot, all: map<Hash, Tx>, prior: State, mid: Snapshot, now: Snapshot, state: State, req: Request,
                      log: seq<Offering>, level: nat, locals: set<Address>, accountSlots: nat, globalSlots: nat, globalQueue: nat, accountQueue: nat,
                      beat: Address -> int, capacity: nat, plain: bool)
    requires Partition(before.pending, before.queue, all) && accountSlots >= 1 && state == StateAfter(req, prior)
    requires AllSound(before, prior) && AllReorganised(before, mid, req, log, state, locals, accountQueue) && AllSeparate(before, req, log, state)
    requires WithinLimits(mid, now, locals, level, accountSlots, globalSlots, globalQueue, beat)
    requires req.Reset? && req.taken ==>
               LogOk(Snapshot(before.pending, before.queue, map[], state.nonceOf), all, req.head, log, capacity, locals, plain)
    ensures AllSound(now, state) <==> AllKeepRuns(before, prior, req, log, state, locals, level)
    ensures Forward(req, prior.nonceOf) ==> AllSound(now, state)
  {
    hide Sound, Rearranged, Limited, KeepsRun, LogOk, Separate, Reinjected, Forward, At, Tight, NewestFirst, Total, Partition, BookOk;
    forall a: Address ensures Sound(now.View(a), state.For(a)) <==>
                              KeepsRun(before.View(a), prior.nonceOf(a), a, req, log, state.For(a), a in locals, level) {
      assert Sound(before.View(a), prior.For(a));
      assert mid.View(a) == Reorganised(before.View(a), a, req, log, state.For(a), LimitFor(a, locals, accountQueue));
      assert now.View(a) == Limited(mid.View(a), a in locals, level, |now.View(a).queue|);
      assert Separate(Resumed(before.View(a), a, req, log, state.For(a)));
      AccountSeparate(before.pending, before.queue, all, a, before.View(a).next);
      ReorgSoundIff(before.View(a), prior.For(a), a, req, log, state.For(a), LimitFor(a, locals, accountQueue), a in locals, level,
                    |now.View(a).queue|);
    }
    if Forward(req, prior.nonceOf) {
      forall a: Address ensures KeepsRun(before.View(a), prior.nonceOf(a), a, req, log, state.For(a), a in locals, level) {
        RunKept(before.View(a), prior.nonceOf, a, req, log, state.For(a), a in locals, level,
                Snapshot(before.pending, before.queue, map[], state.nonceOf), all, capacity, locals, plain);
      }
    }
  }

  lemma RunKept(acc: Account, nonceOf: Address -> nat, a: Address, req: Request, log: seq<Offering>, f: Funds, local: bool, level: nat,
                start: Snapshot, all: map<Hash, Tx>, limit: nat, locals: set<Address>, plain: bool)
    requires Forward(req, nonceOf)
    requires req.Reset? && req.taken ==> f.nonce == req.head.nonceOf(a) && LogOk(start, all, req.head, log, limit, locals, plain)
    ensures KeepsRun(acc, nonceOf(a), a, req, log, f, local, level)
  {
    if req.Reset? && req.taken {
      ForwardKeepsRun(start, all, req.head, log, limit, locals, plain, nonceOf, acc, a, f, local, level);
    }
  }

  /** The account with its virtual nonce behind the highest pending one. */
  ghost function Settle(acc: Account): Account {
    acc.(next := PastOr(acc.pending, acc.next))
  }

  lemma NothingPending(p: Book, a: Address, acc: Account)
    requires a !in p && acc.pending == At(p, a, true).txs
    ensures Settle(acc) == acc
  {
  }

  lemma HighestPending(p: Book, q: Book, all: map<Hash, Tx>, a: Address, acc: Account)
    requires Partition(p, q, all) && a in p && acc.pending == At(p, a, true).txs
    ensures var txs := Flat(p[a].txs); txs != [] && Settle(acc) == acc.(next := txs[|txs| - 1].nonce + 1)
  {
    var m := p[a].txs;
    QueueList(p, q, all, a);
    FlatListing(m);
    ListingLength(Flat(m), m);
    EmptySize(m);
    LastIsPast(Flat(m), m, acc.next);
  }

  /** `now` is `before` with only the lowest queued nonces kept. */
  ghost predicate Shrunk(before: Account, now: Account) {
    now == before.(queue := Lowest(before.queue, |now.queue|))
  }

  /** An account loses queued transactions only after all more recently active ones have lost theirs. */
  ghost predicate NewestFirst(start: Snapshot, now: Snapshot, locals: set<Address>, beat: Address -> int) {
    forall a, b :: a !in locals && b !in locals && beat(a) < beat(b) && now.View(a).queue != start.View(a).queue ==> now.View(b).queue == map[]
  }

  /**
   What the size limits leave of the pool `mid`: pending lists cut to one common level that is as high as
   the limit allows, queues cut from the top only as far as the total queue limit demands, the most
   recently active accounts first, local accounts left alone, and virtual nonces behind the runs.
   */
  ghost predicate WithinLimits(mid: Snapshot, now: Snapshot, locals: set<Address>, level: nat, accountSlots: nat, globalSlots: nat,
                               globalQueue: nat, beat: Address -> int) {
    && level >= accountSlots && BookOk(mid.pending, true) && BookOk(mid.queue, false)
    && (forall a :: now.View(a) == Limited(mid.View(a), a in locals, level, |now.View(a).queue|))
    && (forall a :: a in locals ==> now.View(a).queue == mid.View(a).queue)
    && Tight(mid, locals, level, globalSlots) && (Total(now.pending) <= globalSlots || level == accountSlots)
    && (Total(now.queue) <= globalQueue || forall a :: a !in locals ==> now.View(a).queue == map[])
    && (Total(now.queue) >= globalQueue || Total(now.queue) == Total(mid.queue))
    && NewestFirst(mid, now, locals, beat)
  }

  lemma LimitsApplied(start: Snapshot, cut: Snapshot, shrunk: Snapshot, now: Snapshot, all: map<Hash, Tx>, all': map<Hash, Tx>, locals: set<Address>,
                      level: nat, accountSlots: nat, globalSlots: nat, globalQueue: nat, beat: Address -> int)
    requires Partition(start.pending, start.queue, all) && Partition(now.pending, now.queue, all') && 1 <= accountSlots <= level
    requires Leveled(start, cut, locals, level) && Tight(start, locals, level, globalSlots) && BookOk(cut.pending, true)
    requires Total(cut.pending) <= globalSlots || level == accountSlots
    requires forall a :: Shrunk(cut.View(a), shrunk.View(a)) && (a in locals ==> shrunk.View(a) == cut.View(a))
    requires forall a :: now.View(a) == Settle(shrunk.View(a)) && Separate(start.View(a))
    requires NewestFirst(cut, shrunk, locals, beat) && shrunk.queue == now.queue && Total(cut.queue) == Total(start.queue)
    requires Total(now.queue) <= globalQueue || forall a :: a !in locals ==> shrunk.View(a).queue == map[]
    requires Total(now.queue) >= globalQueue || Total(now.queue) == Total(cut.queue)
    ensures WithinLimits(start, now, locals, level, accountSlots, globalSlots, globalQueue, beat)
    ensures forall a :: OnlyFrom(now.View(a), start.View(a))
  {
    hide Leveled, Tight, Total, NewestFirst, Shrunk, Limited, OnlyFrom, Separate, Matches, DisjointNonces, BookOk, At;
    forall a: Address ensures now.View(a) == Limited(start.View(a), a in locals, level, |now.View(a).queue|)
                              && now.View(a).pending == cut.View(a).pending && (a in locals ==> now.View(a).queue == start.View(a).queue)
                              && cut.View(a).queue == start.View(a).queue && now.View(a).queue == shrunk.View(a).queue
                              && At(now.pending, a, true).txs == At(cut.pending, a, true).txs {
      LimitedStages(start, cut, locals, level, a, shrunk.View(a));
      ShrunkKeeps(cut.View(a), shrunk.View(a));
    }
    forall a: Address ensures OnlyFrom(now.View(a), start.View(a)) { LimitedOnly(start.View(a), a in locals, level, |now.View(a).queue|); }
    SameQueues(start, cut, shrunk, now, locals, beat);
    SamePendingTotal(cut.pending, now.pending, now.queue, all');
  }

  lemma SameQueues(start: Snapshot, cut: Snapshot, shrunk: Snapshot, now: Snapshot, locals: set<Address>, beat: Address -> int)
    requires NewestFirst(cut, shrunk, locals, beat)
    requires forall a :: cut.View(a).queue == start.View(a).queue && now.View(a).queue == shrunk.View(a).queue
    ensures NewestFirst(start, now, locals, beat)
  {
    hide Snapshot.View;
  }

  /** The accounts from position `k` on were trimmed, all but perhaps the first of them completely. */
  ghost predicate Trimmed(start: Snapshot, now: Snapshot, s: seq<Address>, k: nat, more: bool) {
    && k <= |s|
    && (forall a :: a !in s[k..] ==> now.View(a) == start.View(a))
    && (forall i :: k <= i < |s| ==> Shrunk(start.View(s[i]), now.View(s[i])))
    && (forall i :: k <= i < |s| && (k < i || more) ==> now.View(s[i]).queue == map[])
  }

  lemma TrimmedStart(start: Snapshot, s: seq<Address>)
    ensures Trimmed(start, start, s, |s|, true) && Trimmed(start, start, s, |s|, false)
  {
  }

  lemma TrimmedMore(start: Snapshot, mid: Snapshot, now: Snapshot, s: seq<Address>, k: nat, more: bool)
    requires NoDuplicates(s) && k < |s| && Trimmed(start, mid, s, k + 1, true)
    requires forall b :: b != s[k] ==> now.View(b) == mid.View(b)
    requires Shrunk(mid.View(s[k]), now.View(s[k])) && (more ==> now.View(s[k]).queue == map[])
    ensures Trimmed(start, now, s, k, more)
  {
    hide Shrunk, Snapshot.View;
    assert s[k..] == [s[k]] + s[k + 1..];
    assert s[k] !in s[k + 1..];
    forall i | k < i < |s| ensures now.View(s[i]) == mid.View(s[i]) { assert s[i] != s[k]; }
  }

  lemma TrimmedEnds(start: Snapshot, now: Snapshot, s: seq<Address>, k: nat, more: bool, locals: set<Address>, beat: Address -> int)
    requires Trimmed(start, now, s, k, more) && Sorting.Sorted(s, beat)
    requires forall a :: a in Members(s) <==> a in start.queue && a !in locals
    ensures NewestFirst(start, now, locals, beat)
    ensures forall a :: Shrunk(start.View(a), now.View(a))
    ensures forall a :: a in locals ==> now.View(a) == start.View(a)
    ensures k == 0 && more ==> forall a :: a !in locals ==> now.View(a).queue == map[]
  {
    hide Shrunk;
    forall a: Address ensures Shrunk(start.View(a), now.View(a)) && (a in locals ==> now.View(a) == start.View(a)) {
      TrimmedAt(start, now, s, k, more, a);
      if a in locals { assert a !in Members(s); }
    }
    forall a: Address, b: Address | a !in locals && b !in locals && beat(a) < beat(b) && now.View(a).queue != start.View(a).queue
      ensures now.View(b).queue == map[]
    {
      TrimmedAt(start, now, s, k, more, a);
      TrimmedAt(start, now, s, k, more, b);
      if b in s {
        var i :| k <= i < |s| && s[i] == a;
        var j :| 0 <= j < |s| && s[j] == b;
        assert i < j;
      } else {
        assert b !in Members(s);
      }
    }
    if k == 0 && more {
      forall a: Address | a !in locals ensures now.View(a).queue == map[] {
        TrimmedAt(start, now, s, k, more, a);
        if a !in s { assert a !in Members(s); }
      }
    }
  }

  lemma TrimmedAt(start: Snapshot, now: Snapshot, s: seq<Address>, k: nat, more: bool, a: Address)
    requires Trimmed(start, now, s, k, more)
    ensures Shrunk(start.View(a), now.View(a))
    ensures now.View(a) == start.View(a) || exists i :: k <= i < |s| && s[i] == a
    ensures a in s <==> a in Members(s)
    ensures a !in start.queue && now.View(a) == start.View(a) ==> now.View(a).queue == map[]
  {
    hide Shrunk;
    if a in s[k..] {
      var i :| 0 <= i < |s| - k && s[k..][i] == a;
      assert s[k + i] == a;
    } else {
      ShrunkSelf(start.View(a));
    }
  }

  lemma SameMembers(s: seq<Address>, t: seq<Address>)
    requires NoDuplicates(s) && multiset(t) == multiset(s)
    ensures NoDuplicates(t) && Members(t) == Members(s)
  {
    forall a: Address ensures a in t <==> a in s {
      assert a in multiset(t) <==> a in multiset(s);
    }
    forall i, j | 0 <= i < j < |t| ensures t[i] != t[j] {
      Once(s, t[i]);
      if t[i] == t[j] { TwiceInMultiset(t, i, j); }
    }
  }

  lemma {:induction false} Once(s: seq<Address>, a: Address)
    requires NoDuplicates(s)
    ensures multiset(s)[a] <= 1
  {
    if s != [] {
      var front := s[..|s| - 1];
      Once(front, a);
      assert s == front + [s[|s| - 1]];
      if a == s[|s| - 1] { assert a !in front; }
    }
  }

  lemma ShrunkBy(before: Account, now: Account, k: nat)
    requires Keyed(before.queue) && k <= |before.queue| && now == before.(queue := Lowest(before.queue, k))
    ensures Shrunk(before, now) && (k == 0 ==> now.queue == map[])
  {
    LowestSize(before.queue, k);
    EmptySize(now.queue);
  }

  lemma LosslessStages(acc: Account, f: Funds, limit: Option<nat>)
    ensures Lossless(acc, f, limit) ==>
              var e := Eligible(acc.queue, f);
              e == acc.queue && Promoted(acc, f, limit).queue == NotReady(e, acc.next)
  {
    hide Eligible, NotReady, Ready, Lowest, PastOr;
  }

  lemma NothingPruned(q: Txs, f: Funds)
    ensures Eligible(q, f) == q ==>
              Flat(Below(q, f.nonce)) == [] && Flat(Unpayable(From(q, f.nonce), f.balance, f.maxGas)) == []
  {
    if Eligible(q, f) == q {
      forall n ensures n !in Below(q, f.nonce) && n !in Unpayable(From(q, f.nonce), f.balance, f.maxGas) {
        if n in q { EligibleIs(q, f, n); }
      }
      assert Below(q, f.nonce) == map[] && Unpayable(From(q, f.nonce), f.balance, f.maxGas) == map[];
    }
  }

  lemma NothingCapped(m: Txs, k: nat)
    ensures Lowest(m, k) == m ==> Flat(AllButLowest(m, k)) == []
  {
    if Lowest(m, k) == m {
      forall n ensures n !in AllButLowest(m, k) { assert n in m ==> n in Lowest(m, k); }
      assert AllButLowest(m, k) == map[];
    }
  }

  lemma NotQueued(q: Book, a: Address)
    requires a !in q
    ensures At(q, a, false).txs == map[]
  {
  }

  lemma ShrunkSelf(acc: Account)
    ensures Shrunk(acc, acc)
  {
    LowestAll(acc.queue, |acc.queue|);
  }

  lemma QueueTotal(p': Book, q: Book, q': Book, p: Book, all: map<Hash, Tx>, all': map<Hash, Tx>, a: Address, k: nat)
    requires Partition(p, q, all) && Partition(p', q', all') && k <= |At(q, a, false).txs|
    requires forall b :: b != a ==> At(q', b, false).txs == At(q, b, false).txs
    requires At(q', a, false).txs == Lowest(At(q, a, false).txs, k)
    ensures Total(q') == Total(q) - |At(q, a, false).txs| + k
  {
    QueueList(p, q, all, a);
    LowestSize(At(q, a, false).txs, k);
    TotalShift(q, q', a, false);
  }

  lemma QueueKeyed(p: Book, q: Book, all: map<Hash, Tx>, a: Address)
    requires Partition(p, q, all)
    ensures Keyed(At(q, a, false).txs)
  {
    QueueList(p, q, all, a);
  }

  lemma QueuedIsKnown(p: Book, q: Book, all: map<Hash, Tx>, tx: Tx)
    requires Partition(p, q, all) && tx.nonce in At(q, tx.from, false).txs && At(q, tx.from, false).txs[tx.nonce] == tx
    ensures tx.hash in all && all[tx.hash] == tx && tx.nonce !in At(p, tx.from, true).txs
  {
    QueueList(p, q, all, tx.from);
    assert Holds(q, tx);
  }

  ghost predicate OwnQueue(m: Txs, a: Address) {
    Keyed(m) && forall n :: n in m ==> m[n].from == a
  }

  lemma QueueListing(l: List, a: Address)
    requires OwnList(l, a, false)
    ensures |Flat(l.txs)| == |l.txs| && OwnQueue(l.txs, a)
  {
    FlatListing(l.txs);
    ListingLength(Flat(l.txs), l.txs);
  }

  lemma FromOwner(m: Txs, a: Address, i: nat)
    requires OwnQueue(m, a) && i < |Flat(m)|
    ensures Flat(m)[i].from == a
  {
    FlatListing(m);
  }

  lemma TopOfQueue(m: Txs, a: Address, i: nat)
    requires OwnQueue(m, a) && i < |Flat(m)|
    ensures var tx := Flat(m)[i];
            && tx.from == a && tx.nonce in Lowest(m, i + 1) && Lowest(m, i + 1)[tx.nonce] == tx
            && Lowest(m, i + 1) - {tx.nonce} == Lowest(m, i)
  {
    FlatListing(m);
    LowestStep(Flat(m), m, i + 1);
  }

  ghost function Members(s: seq<Address>): set<Address> {
    set a | a in s
  }

  lemma TotalAdd(p: Book, a: Address, l: List)
    requires a !in p
    ensures Total(p[a := l]) == Total(p) + |l.txs|
  {
    assert Lens(p[a := l]) == Lens(p)[a := |l.txs|];
    Sums.SumUpdate(Lens(p), a, |l.txs|);
  }

  lemma NobodyCut(start: Snapshot, locals: set<Address>, level: nat, limit: nat)
    requires start.Ok() && level >= 1 && level >= Total(start.pending)
    ensures Leveled(start, start, locals, level) && Tight(start, locals, level, limit)
  {
    forall a ensures start.Len(a) <= level {
      LenBelowTotal(start.pending, a);
    }
    LeveledHigh(start, start, locals, level, level);
  }

  lemma NobodyAbove(start: Snapshot, locals: set<Address>, level: nat, limit: nat)
    requires forall a :: a !in locals ==> start.Len(a) <= level
    ensures Tight(start, locals, level, limit)
  {
  }

  lemma OffendingStart(start: Snapshot, locals: set<Address>, slots: nat, level: nat, spammers: set<Address>)
    requires start.Ok() && level >= Total(start.pending)
    requires spammers == set a | a in start.pending && a !in locals && |start.pending[a].txs| > slots
    ensures Offending(start, locals, slots, level, {}, spammers) && Members([]) == {}
  {
    forall a ensures start.Len(a) <= level {
      LenBelowTotal(start.pending, a);
    }
  }

  lemma {:induction false} LongestExists(p: Book, s: set<Address>)
    requires s != {} && forall a :: a in s ==> a in p
    ensures exists o :: o in s && forall a :: a in s ==> |p[a].txs| <= |p[o].txs|
    decreases |s|
  {
    var o := LongestOf(p, s);
  }

  lemma {:induction false} LongestOf(p: Book, s: set<Address>) returns (o: Address)
    requires s != {} && forall a :: a in s ==> a in p
    ensures o in s && forall a :: a in s ==> |p[a].txs| <= |p[o].txs|
    decreases |s|
  {
    o :| o in s;
    var t := s - {o};
    if t != {} {
      var h := LongestOf(p, t);
      forall a | a in s ensures a == o || |p[a].txs| <= |p[h].txs| {
        assert a == o || a in t;
      }
      o := if |p[o].txs| < |p[h].txs| then h else o;
    } else {
      assert s == {o};
    }
  }

  /** What holds of the longest remaining spammer when it is popped. */
  lemma OffenderPopped(start: Snapshot, now: Snapshot, locals: set<Address>, slots: nat, level: nat, offs: set<Address>, spammers: set<Address>,
                       o: Address, limit: nat)
    requires start.Ok() && now.Ok() && Leveled(start, now, locals, level) && Offending(start, locals, slots, level, offs, spammers)
    requires o in spammers && forall a :: a in spammers ==> a in now.pending
    requires forall a :: a in spammers ==> |now.pending[a].txs| <= |now.pending[o].txs|
    ensures |now.pending[o].txs| == start.Len(o) && slots < start.Len(o) <= level && o !in offs
    ensures forall a :: a !in locals && a !in offs ==> start.Len(a) <= start.Len(o)
    ensures forall a :: a in offs ==> a !in locals && start.Len(a) >= level
    ensures offs == {} ==> Leveled(start, now, locals, start.Len(o)) && Tight(start, locals, start.Len(o), limit)
  {
    hide Leveled, Cut;
    forall a | a in spammers ensures now.Len(a) == start.Len(a) {
      LeveledAt(start, now, locals, level, a);
    }
    if offs == {} {
      LeveledHigh(start, now, locals, level, start.Len(o));
    }
  }

  lemma OffendingNext(start: Snapshot, locals: set<Address>, slots: nat, above: nat, level: nat, offs: set<Address>, spammers: set<Address>, o: Address)
    requires Offending(start, locals, slots, above, offs, spammers) && o in spammers && level == start.Len(o) <= above
    requires forall a :: a !in locals && a !in offs ==> start.Len(a) <= level
    ensures Offending(start, locals, slots, level, offs + {o}, spammers - {o})
  {
  }

  ghost predicate NoDuplicates(s: seq<Address>) {
    forall i, j :: 0 <= i < j < |s| ==> s[i] != s[j]
  }

  lemma EmptyOffenders()
    ensures NoDuplicates([]) && Members([]) == {}
  {
  }

  lemma MembersAppend(s: seq<Address>, o: Address)
    requires NoDuplicates(s) && o !in Members(s)
    ensures NoDuplicates(s + [o]) && Members(s + [o]) == Members(s) + {o}
  {
  }

  lemma OffendersGrow(start: Snapshot, now: Snapshot, locals: set<Address>, slots: nat, above: nat, level: nat, offs: set<Address>,
                      spammers: set<Address>, o: Address)
    requires Offending(start, locals, slots, above, offs, spammers) && o in spammers && level == start.Len(o) <= above
    requires forall a :: a !in locals && a !in offs ==> start.Len(a) <= level
    requires start.Ok() && now.Ok() && Leveled(start, now, locals, level)
    ensures Offending(start, locals, slots, level, offs + {o}, spammers - {o})
    ensures forall a :: a in spammers - {o} ==> a in now.pending
  {
    OffendingNext(start, locals, slots, above, level, offs, spammers, o);
    SpammersStay(start, now, locals, slots, level, offs + {o}, spammers - {o});
  }

  lemma SpammersStay(start: Snapshot, now: Snapshot, locals: set<Address>, slots: nat, level: nat, offs: set<Address>, spammers: set<Address>)
    requires start.Ok() && now.Ok() && Leveled(start, now, locals, level) && Offending(start, locals, slots, level, offs, spammers)
    ensures forall a :: a in spammers ==> a in now.pending
  {
    hide Leveled, Cut;
    forall a | a in spammers ensures a in now.pending {
      LeveledAt(start, now, locals, level, a);
    }
  }

  lemma NoMoreSpammers(start: Snapshot, locals: set<Address>, slots: nat, level: nat, offs: set<Address>)
    requires Offending(start, locals, slots, level, offs, {})
    ensures forall a :: a !in locals && a !in offs ==> start.Len(a) <= slots && start.Len(a) <= level
    ensures forall a :: a in offs ==> a !in locals && start.Len(a) >= level
  {
  }

  lemma MembersPrefix(s: seq<Address>)
    ensures Members(s[..0]) == {} && forall a :: a in Members(s[..|s|]) <==> a in s
  {
    assert s[..|s|] == s;
  }

  lemma MembersNext(s: seq<Address>, i: nat)
    requires NoDuplicates(s) && i < |s|
    ensures s[i] !in Members(s[..i]) && Members(s[..i + 1]) == Members(s[..i]) + {s[i]}
  {
    assert s[..i + 1] == s[..i] + [s[i]];
  }

  /** Part of a round of cuts: the accounts in `done` have lost one transaction. */
  ghost predicate RoundDone(start: Snapshot, now: Snapshot, done: set<Address>, level: nat) {
    level >= 1 && forall a :: now.View(a) == if a in done then Cut(start.View(a), level - 1) else start.View(a)
  }

  lemma RoundStart(start: Snapshot, level: nat)
    requires level >= 1
    ensures RoundDone(start, start, {}, level)
  {
  }

  lemma RoundAt(start: Snapshot, now: Snapshot, done: set<Address>, level: nat, o: Address)
    requires RoundDone(start, now, done, level) && o !in done
    ensures now.View(o) == start.View(o) && At(now.pending, o, true).txs == At(start.pending, o, true).txs
  {
    assert now.View(o) == start.View(o);
  }

  lemma RoundStep(start: Snapshot, mid: Snapshot, now: Snapshot, done: set<Address>, level: nat, o: Address)
    requires RoundDone(start, mid, done, level) && o !in done && start.Len(o) == level
    requires now.View(o) == Cut(mid.View(o), |mid.View(o).pending| - 1) && forall b :: b != o ==> now.View(b) == mid.View(b)
    ensures RoundDone(start, now, done + {o}, level)
  {
    hide Cut;
    RoundAt(start, mid, done, level, o);
    forall a: Address ensures now.View(a) == if a in done + {o} then Cut(start.View(a), level - 1) else start.View(a) {
      if a != o { assert now.View(a) == mid.View(a); }
    }
  }

  lemma RoundEnds(start: Snapshot, now: Snapshot, offenders: seq<Address>, level: nat)
    requires RoundDone(start, now, Members(offenders[..|offenders|]), level)
    ensures forall a :: now.View(a) == if a in offenders then Cut(start.View(a), level - 1) else start.View(a)
  {
    hide Cut;
    assert offenders[..|offenders|] == offenders;
  }

  lemma StillPending(p: Book, p': Book, a: Address)
    requires a in p && BookOk(p, true) && At(p', a, true).txs == At(p, a, true).txs
    ensures a in p'
  {
  }

  lemma PendingOk(p: Book, q: Book, all: map<Hash, Tx>)
    requires Partition(p, q, all)
    ensures BookOk(p, true)
  {
  }

  lemma TightBelow(start: Snapshot, locals: set<Address>, level: nat, limit: nat)
    requires level >= 1 && TotalAt(start.pending, locals, level) > limit
    ensures Tight(start, locals, level - 1, limit)
  {
  }

  lemma PendingNotEmpty(p: Book, q: Book, all: map<Hash, Tx>, a: Address)
    requires Partition(p, q, all) && a in p
    ensures |p[a].txs| > 0 && Keyed(p[a].txs)
  {
    EmptySize(p[a].txs);
  }

  lemma OneCapped(m: Txs, caps: seq<Tx>)
    requires Keyed(m) && |m| > 0 && caps == Flat(AllButLowest(m, |m| - 1))
    ensures |Flat(m)| == |m| && |caps| == 1 && caps[0] == Flat(m)[|m| - 1]
  {
    hide SortedListing, AllButLowest, Rank, Transactions.Lists;
    var k := |m| - 1;
    TopListing(m, k);
    FlatListing(AllButLowest(m, k));
    ListingUnique(caps, Flat(m)[k..], AllButLowest(m, k));
  }

  lemma TopListing(m: Txs, k: nat)
    requires Keyed(m) && k <= |m|
    ensures |Flat(m)| == |m| && Keyed(AllButLowest(m, k)) && SortedListing(Flat(m)[k..], AllButLowest(m, k))
  {
    hide Rank, Flat;
    var l := Flat(m);
    FlatListing(m);
    ListingLength(l, m);
    forall i | 0 <= i < |l| ensures Rank(m, l[i].nonce) == i {
      ListingRank(l, m, i);
    }
    BackLists(l, m, AllButLowest(m, k), k);
  }

  lemma PendingSome(p: Book, q: Book, all: map<Hash, Tx>, a: Address)
    requires Partition(p, q, all) && a in p
    ensures |At(p, a, true).txs| > 0
  {
    PendingNotEmpty(p, q, all, a);
  }

  lemma CapOneTotal(p: Book, q: Book, all: map<Hash, Tx>, p': Book, q': Book, all': map<Hash, Tx>, a: Address)
    requires Partition(p, q, all) && a in p && SameElsewhere(p, p', a) && Partition(p', q', all')
    requires At(p', a, true).txs == Lowest(p[a].txs, |p[a].txs| - 1)
    ensures |At(p, a, true).txs| > 1 ==> a in p' && Total(p') == Total(p) - 1
  {
    hide Partition, Lowest, Total;
    QueueAndPending(p, q, all);
    QueueAndPending(p', q', all');
    LowestSize(p[a].txs, |p[a].txs| - 1);
    EmptySize(At(p', a, true).txs);
    if |p[a].txs| > 1 {
      TotalChange(p, p', a);
    }
  }

  /** One pending transaction less, the highest; the others are as before. */
  lemma CapOneCuts(p: Book, q: Book, all: map<Hash, Tx>, p': Book, q': Book, a: Address, caps: seq<Tx>, next: nat)
    requires Partition(p, q, all) && a in p && SameElsewhere(p, p', a) && SameElsewhere(q, q', a)
    requires At(p', a, true).txs == Lowest(p[a].txs, |p[a].txs| - 1) && At(q', a, false).txs == At(q, a, false).txs
    requires caps == Flat(AllButLowest(p[a].txs, |p[a].txs| - 1))
    ensures |caps| == 1
    ensures var m := At(p, a, true).txs;
            |m| > 0 && Cut(Account(m, At(q, a, false).txs, next), |m| - 1) == Account(At(p', a, true).txs, At(q', a, false).txs, Min(next, caps[0].nonce))
    ensures forall b :: b != a ==> At(p', b, true) == At(p, b, true) && At(q', b, false) == At(q, b, false)
  {
    hide Partition, Flat, Lowest, AllButLowest;
    PendingNotEmpty(p, q, all, a);
    OneCapped(p[a].txs, caps);
    OthersUnchanged(p, p', a, true);
    OthersUnchanged(q, q', a, false);
  }

  lemma DroppedBefore(all0: map<Hash, Tx>, all: map<Hash, Tx>, drop: seq<Tx>, i: nat)
    requires i < |drop| && all == all0 - HashesOf(drop[..i])
    requires forall j :: 0 <= j < |drop| ==> drop[j].hash in all0 && all0[drop[j].hash] == drop[j]
    ensures if drop[i].hash in all then all[drop[i].hash] == drop[i] else exists j :: 0 <= j < i && drop[j] == drop[i]
  {
    if drop[i].hash !in all {
      assert drop[i].hash in HashesOf(drop[..i]);
      var j :| 0 <= j < i && drop[..i][j].hash == drop[i].hash;
      assert drop[j] == drop[i];
    }
  }

  /** One more eviction, of a transaction that is still pooled or was evicted before. */
  lemma EvictedOne(acc: Account, a: Address, drop: seq<Tx>, i: nat, before: Account, now: Account)
    requires i < |drop| && Separate(acc) && before == EvictedFrom(acc, a, drop[..i])
    requires a == drop[i].from ==>
               now == WithoutTx(before, drop[i].nonce) || (now == before && exists j :: 0 <= j < i && drop[j] == drop[i])
    requires a != drop[i].from ==> now == before
    ensures now == EvictedFrom(acc, a, drop[..i + 1])
  {
    hide EvictedFrom, WithoutTx;
    EvictedStep(acc, a, drop, i);
    if a == drop[i].from && now != WithoutTx(before, drop[i].nonce) {
      EvictedGone(acc, a, drop[..i]);
      var j :| 0 <= j < i && drop[j] == drop[i];
      assert drop[..i][j] == drop[i];
      EvictedTwice(before, drop[i].nonce);
    }
  }

  /** The evicted transactions are known remote ones with entries, no more than needed, and none exactly if none is needed or there is none. */
  ghost predicate Evictions(drop: seq<Tx>, remotes: map<Hash, Tx>, entries: multiset<Tx>, need: int) {
    && (forall i :: 0 <= i < |drop| ==> drop[i].hash in remotes && remotes[drop[i].hash] == drop[i] && multiset(drop)[drop[i]] <= entries[drop[i]])
    && (drop != [] ==> PricedList.SlotsOf(drop[..|drop| - 1]) < need)
    && (drop == [] <==> need <= 0 || forall tx :: tx in entries ==> !PricedList.Live(tx, remotes))
  }

  lemma EvictionsAre(remotes: map<Hash, Tx>, before: multiset<Tx>, after: multiset<Tx>, drop: seq<Tx>, need: int, ok: bool)
    requires forall i :: 0 <= i < |drop| ==> drop[i].hash in remotes && remotes[drop[i].hash] == drop[i]
    requires PricedList.KeepsLive(before, after + multiset(drop), remotes)
    requires drop != [] ==> PricedList.SlotsOf(drop[..|drop| - 1]) < need
    requires ok && PricedList.SlotsOf(drop) < need ==> after == multiset{}
    ensures ok ==> Evictions(drop, remotes, before, need)
  {
    assert PricedList.SlotsOf([]) == 0;
    var now := after + multiset(drop);
    forall i | 0 <= i < |drop| ensures multiset(drop)[drop[i]] <= before[drop[i]] && drop[i] in before {
      assert drop[i] in multiset(drop);
      assert drop[i] in now;
    }
    if ok && drop == [] && need > 0 {
      forall tx | tx in before ensures !PricedList.Live(tx, remotes) { assert now[tx] == 0; }
    }
    if drop != [] {
      assert drop[0] in before && PricedList.Live(drop[0], remotes);
    }
  }

  lemma UpdatedAt(m: Book, a: Address, l: List, strict: bool)
    ensures At(m[a := l], a, strict) == l && forall b :: b != a ==> At(m[a := l], b, strict) == At(m, b, strict)
  {
  }

  lemma OutcomeKinds(acc: Account, tx: Tx)
    ensures OfferOutcome(acc, tx).Accepted? || OfferOutcome(acc, tx) == Underpriced
  {
  }

  lemma NothingEvicted(all: map<Hash, Tx>, remotes: map<Hash, Tx>, entries: multiset<Tx>, need: int)
    ensures all - HashesOf([]) == all && Evictions([], remotes, entries, 0) && (need <= 0 ==> Evictions([], remotes, entries, need))
    ensures PricedList.KeepsLive(entries, entries + multiset([]), remotes)
  {
  }

  lemma RemoteUnknown(l: Lookup, tx: Tx)
    ensures tx.hash !in l.All() ==> tx.hash !in l.remotes
  {
  }

  lemma NothingKept(before: multiset<Tx>, now: multiset<Tx>, tx: Tx, remotes: map<Hash, Tx>)
    requires PricedList.KeepsLive(before, now + multiset([]), remotes)
    ensures PricedList.KeepsLive(before + One(tx, false), now + multiset([]), remotes) && One(tx, false) == multiset{}
  {
    assert before + One(tx, false) == before;
  }

  lemma KeptWith(before: multiset<Tx>, kept: PricedList.Tally, tx: Tx, yes: bool, drop: multiset<Tx>, remotes: map<Hash, Tx>)
    requires PricedList.KeepsLive(before, kept.entries + drop, remotes) && tx.hash !in remotes
    ensures PricedList.KeepsLive(before + One(tx, yes), kept.With(tx, yes).entries + drop, remotes)
  {
    var now := kept.With(tx, yes).entries + drop;
    forall x | x in now ensures now[x] <= (before + One(tx, yes))[x] {
      assert now[x] == (kept.entries + drop)[x] + One(tx, yes)[x];
    }
    forall x | x in before + One(tx, yes) && PricedList.Live(x, remotes) ensures now[x] == (before + One(tx, yes))[x] {
      assert x != tx;
    }
  }

  lemma StillUnknown(before: map<Hash, Tx>, gone: set<Hash>, tx: Tx)
    requires tx.hash !in before
    ensures tx.hash !in before - gone
  {
  }

  lemma SoundAt(acc: Account, f: Funds, tx: Tx)
    requires Sound(acc, f) && Admissible(tx, f)
    ensures Sound(Offered(acc, tx), f)
  {
    OfferSound(acc, f, tx);
  }

  lemma MoreLocal(l: Lookup, entries: multiset<Tx>, evicting: set<Hash>, localTxs: set<Hash>, more: set<Hash>, entered: multiset<Tx>, meaning: Hash -> Tx)
    requires Covered(l, entries, evicting, localTxs, entered, meaning)
    ensures Covered(l, entries, evicting, localTxs + more, entered, meaning)
  {
  }

  lemma AddedTxs(l: List, tx: Tx)
    ensures l.Add(tx).txs == if Outbids(l.txs, tx) then l.txs[tx.nonce := tx] else l.txs
    ensures l.Accepts(tx) <==> Outbids(l.txs, tx)
  {
  }

  lemma QueueAndPending(p: Book, q: Book, all: map<Hash, Tx>)
    requires Partition(p, q, all)
    ensures BookOk(p, true) && BookOk(q, false)
  {
  }

  lemma CoveredWithout(l: Lookup, hash: Hash, entries: multiset<Tx>, evicting: set<Hash>, localTxs: set<Hash>, entered: multiset<Tx>, meaning: Hash -> Tx)
    requires Covered(l, entries, evicting, localTxs, entered, meaning)
    ensures Covered(l.Remove(hash), entries, evicting, localTxs, entered, meaning)
  {
  }

  lemma CoveredWith(l: Lookup, tx: Tx, local: bool, entries: multiset<Tx>, evicting: set<Hash>, localTxs: set<Hash>, entered: multiset<Tx>, meaning: Hash -> Tx)
    requires Covered(l, entries, evicting, localTxs, entered, meaning) && meaning(tx.hash) == tx && (local ==> tx.hash in localTxs)
    ensures Covered(l.Add(tx, local), if local then entries else entries + multiset{tx}, evicting, localTxs, entered + One(tx, !local), meaning)
  {
    hide Lookup.All;
    AddedAll(l, tx, local);
  }

  lemma AddedAll(l: Lookup, tx: Tx, local: bool)
    ensures var more := l.Add(tx, local).All();
            forall h :: h in more ==> (h in l.All() && more[h] == l.All()[h]) || (h == tx.hash && more[h] == tx)
  {
  }

  lemma CoveredRebuilt(l: Lookup, entries: multiset<Tx>, evicting: set<Hash>, localTxs: set<Hash>, entered: multiset<Tx>, meaning: Hash -> Tx)
    requires Covered(l, entries, evicting, localTxs, entered, meaning) && l.Ok()
    ensures Covered(l, multiset(l.remotes.Values), evicting, localTxs, entered, meaning)
  {
    forall h | h in l.remotes ensures l.remotes[h] in l.remotes.Values && h in l.All() && l.All()[h] == l.remotes[h] { }
  }

  lemma MigrateCovered(l: Lookup, locals: set<Address>, entries: multiset<Tx>, evicting: set<Hash>, localTxs: set<Hash>, entered: multiset<Tx>, meaning: Hash -> Tx)
    requires Covered(l, entries, evicting, localTxs, entered, meaning) && l.RemoteToLocals(locals).All() == l.All()
    ensures Covered(l.RemoteToLocals(locals), entries, evicting, localTxs + l.Migrating(locals).Keys, entered, meaning)
  {
  }

  lemma PendingReplace(p: Book, q: Book, all: map<Hash, Tx>, tx: Tx)
    requires Partition(p, q, all) && tx.hash !in all
    requires var l := At(p, tx.from, true); tx.nonce in l.txs && l.Accepts(tx)
    ensures var l := At(p, tx.from, true);
            Partition(p[tx.from := l.Add(tx)], q, Exchange(all, {l.txs[tx.nonce].hash}, tx, true))
  {
    AddToBook(p, tx, true);
    var l := At(p, tx.from, true);
    var p' := p[tx.from := l.Add(tx)];
    forall x: Tx ensures Holds(p', x) || Holds(q, x) <==> x == tx || ((Holds(p, x) || Holds(q, x)) && x.hash !in {l.txs[tx.nonce].hash}) {
      BookInsertHolds(p, tx, x, true);
      if Holds(p, x) || Holds(q, x) { SamePlace(p, q, all, tx, x); }
    }
    InsertMatches(p, q, all, p', q, tx, {l.txs[tx.nonce].hash});
    assert DisjointNonces(p', q);
  }

  lemma QueueInsert(p: Book, q: Book, all: map<Hash, Tx>, tx: Tx)
    requires Partition(p, q, all) && tx.hash !in all
    requires tx.nonce !in At(p, tx.from, true).txs && At(q, tx.from, false).Accepts(tx)
    ensures var l := At(q, tx.from, false);
            Partition(p, q[tx.from := l.Add(tx)], Exchange(all, if tx.nonce in l.txs then {l.txs[tx.nonce].hash} else {}, tx, true))
  {
    AddToBook(q, tx, false);
    var l := At(q, tx.from, false);
    var gone := if tx.nonce in l.txs then {l.txs[tx.nonce].hash} else {};
    var q' := q[tx.from := l.Add(tx)];
    forall x: Tx ensures Holds(p, x) || Holds(q', x) <==> x == tx || ((Holds(p, x) || Holds(q, x)) && x.hash !in gone) {
      QueueInsertHolds(p, q, all, tx, x);
    }
    QueueInsertMatches(p, q, all, q', tx, gone);
    assert DisjointNonces(p, q');
  }

  lemma QueueInsertMatches(p: Book, q: Book, all: map<Hash, Tx>, q': Book, tx: Tx, gone: set<Hash>)
    requires Partition(p, q, all) && tx.hash !in all
    requires forall x: Tx :: Holds(p, x) || Holds(q', x) <==> x == tx || ((Holds(p, x) || Holds(q, x)) && x.hash !in gone)
    ensures Matches(p, q', Exchange(all, gone, tx, true))
  {
    hide Holds, BookOk, DisjointNonces;
    InsertMatches(p, q, all, p, q', tx, gone);
  }

  lemma QueueInsertHolds(p: Book, q: Book, all: map<Hash, Tx>, tx: Tx, x: Tx)
    requires Partition(p, q, all) && tx.hash !in all
    requires tx.nonce !in At(p, tx.from, true).txs && At(q, tx.from, false).Accepts(tx)
    ensures var l := At(q, tx.from, false);
            var gone := if tx.nonce in l.txs then {l.txs[tx.nonce].hash} else {};
            Holds(p, x) || Holds(q[tx.from := l.Add(tx)], x) <==> x == tx || ((Holds(p, x) || Holds(q, x)) && x.hash !in gone)
  {
    hide Holds, Matches, BookOk, DisjointNonces, List.Add, List.Accepts;
    BookInsertHolds(q, tx, x, false);
    if Holds(p, x) || Holds(q, x) { SamePlace(p, q, all, tx, x); }
    NotPendingThere(p, q, all, tx, x);
  }

  lemma NotPendingThere(p: Book, q: Book, all: map<Hash, Tx>, tx: Tx, x: Tx)
    requires Partition(p, q, all) && tx.nonce !in At(p, tx.from, true).txs
    ensures Holds(p, x) ==> !(x.from == tx.from && x.nonce == tx.nonce)
  {
    hide Matches, DisjointNonces;
  }

  lemma BookInsertHolds(m: Book, tx: Tx, x: Tx, strict: bool)
    requires BookOk(m, strict) && At(m, tx.from, strict).Accepts(tx)
    ensures Holds(m[tx.from := At(m, tx.from, strict).Add(tx)], x) <==>
            x == tx || (Holds(m, x) && !(x.from == tx.from && x.nonce == tx.nonce))
  {
  }

  /** Of the held transactions only the one at `tx`'s place has that one's hash. */
  lemma SamePlace(p: Book, q: Book, all: map<Hash, Tx>, tx: Tx, x: Tx)
    requires Partition(p, q, all) && tx.hash !in all && (Holds(p, x) || Holds(q, x))
    ensures x != tx
    ensures var pl, ql := At(p, tx.from, true).txs, At(q, tx.from, false).txs;
            && (tx.nonce in pl ==> (x.hash == pl[tx.nonce].hash <==> x.from == tx.from && x.nonce == tx.nonce))
            && (tx.nonce in ql ==> (x.hash == ql[tx.nonce].hash <==> x.from == tx.from && x.nonce == tx.nonce))
            && (tx.nonce !in pl && tx.nonce !in ql ==> !(x.from == tx.from && x.nonce == tx.nonce))
  {
    hide BookOk, DisjointNonces;
    QueueList(p, q, all, tx.from);
    var pl, ql := At(p, tx.from, true).txs, At(q, tx.from, false).txs;
    assert all[x.hash] == x;
    if tx.nonce in pl { assert Holds(p, pl[tx.nonce]); }
    if tx.nonce in ql { assert Holds(q, ql[tx.nonce]); }
  }

  /** Exchanging one held transaction for a new one at the same place keeps the lookup exact. */
  lemma InsertMatches(p: Book, q: Book, all: map<Hash, Tx>, p': Book, q': Book, tx: Tx, gone: set<Hash>)
    requires Matches(p, q, all) && tx.hash !in all
    requires forall x: Tx :: Holds(p', x) || Holds(q', x) <==> x == tx || ((Holds(p, x) || Holds(q, x)) && x.hash !in gone)
    ensures Matches(p', q', Exchange(all, gone, tx, true))
  {
  }

  lemma EvictionDone(l: Lookup, entries: multiset<Tx>, gone: set<Hash>, localTxs: set<Hash>, entered: multiset<Tx>, meaning: Hash -> Tx)
    requires l.Ok() && Covered(l, entries, gone, localTxs, entered, meaning) && l.All().Keys !! gone
    ensures Covered(l, entries, {}, localTxs, entered, meaning)
  {
  }

  lemma RemotesKeyed(l: Lookup)
    requires l.Ok()
    ensures forall h :: h in l.remotes ==> h in l.All() && l.All()[h] == l.remotes[h] && l.remotes[h].hash == h
  {
  }

  /** After a discard, what has no entry any more is among the dropped transactions, which are known ones. */
  lemma EvictedAside(l: Lookup, before: multiset<Tx>, after: multiset<Tx>, drop: seq<Tx>, localTxs: set<Hash>, entered: multiset<Tx>, meaning: Hash -> Tx)
    requires l.Ok() && Covered(l, before, {}, localTxs, entered, meaning) && PricedList.KeepsLive(before, after + multiset(drop), l.remotes)
    requires forall i :: 0 <= i < |drop| ==> PricedList.Live(drop[i], l.remotes)
    ensures Covered(l, after, HashesOf(drop), localTxs, entered, meaning)
    ensures forall i :: 0 <= i < |drop| ==> drop[i].hash in l.remotes && l.remotes[drop[i].hash] == drop[i]
    ensures forall i :: 0 <= i < |drop| ==> drop[i].hash in l.All() && l.All()[drop[i].hash] == drop[i]
  {
    RemotesKeyed(l);
    hide Lookup.All, Lookup.Ok;
    var now := after + multiset(drop);
    forall h | h in l.remotes && h !in HashesOf(drop) ensures l.remotes[h] in after {
      var tx := l.remotes[h];
      assert PricedList.Live(tx, l.remotes);
      assert tx !in drop;
      assert tx !in multiset(drop);
      assert now[tx] == before[tx];
    }
    forall tx | tx in after ensures meaning(tx.hash) == tx { assert tx in now; }
    forall i | 0 <= i < |drop| ensures l.remotes[drop[i].hash] == drop[i] {
      assert drop[i] in multiset(drop);
      assert drop[i] in now;
    }
  }

  lemma HeldSomewhere(p: Book, q: Book, all: map<Hash, Tx>, hash: Hash)
    requires Partition(p, q, all) && hash in all
    ensures var tx := all[hash];
            && tx.hash == hash
            && (if tx.nonce in At(p, tx.from, true).txs then At(p, tx.from, true).txs[tx.nonce] == tx
                else tx.nonce in At(q, tx.from, false).txs && At(q, tx.from, false).txs[tx.nonce] == tx)
  {
    QueueList(p, q, all, all[hash].from);
  }

  lemma CutStage(l: List, a: Address, tx: Tx)
    requires OwnList(l, a, true) && tx.nonce in l.txs && l.txs[tx.nonce] == tx
    ensures OwnList(l.Remove(tx.nonce), a, true) && l.Remove(tx.nonce).txs == Below(l.txs, tx.nonce)
    ensures SplitsInThree(l.txs, l.Remove(tx.nonce).txs, map[tx.nonce := tx], From(l.txs, tx.nonce + 1))
    ensures Transactions.Lists([tx], map[tx.nonce := tx])
    ensures Transactions.Lists(Flat(From(l.txs, tx.nonce + 1)), From(l.txs, tx.nonce + 1))
  {
    hide SortedListing;
    ListedAsFlat(From(l.txs, tx.nonce + 1));
  }

  lemma QueueCutStage(l: List, a: Address, tx: Tx)
    requires OwnList(l, a, false) && tx.nonce in l.txs && l.txs[tx.nonce] == tx
    ensures OwnList(l.Remove(tx.nonce), a, false) && l.Remove(tx.nonce).txs == l.txs - {tx.nonce}
    ensures SplitsInto(l.txs, l.Remove(tx.nonce).txs, map[tx.nonce := tx])
    ensures Transactions.Lists([tx], map[tx.nonce := tx])
  {
  }

  lemma OneHash(tx: Tx)
    ensures Hashes((map[tx.nonce := tx]).Values) == {tx.hash}
  {
    var m: Txs := map[tx.nonce := tx];
    assert tx.nonce in m && m[tx.nonce] == tx;
    assert m.Values == {tx};
  }

  lemma NothingBack(whole: Txs, kept: Txs, gone: Txs)
    requires SplitsInto(whole, kept, gone)
    ensures SplitsInThree(whole, kept, gone, map[]) && Transactions.Lists([], map[])
  {
  }

  lemma NoMapAdded(m: Txs)
    ensures m + map[] == m
  {
  }

  lemma StrictFilterStage(l: List, a: Address, cost: nat, gas: nat)
    requires OwnList(l, a, true)
    ensures OwnList(l.Filter(cost, gas), a, true)
    ensures l.Filter(cost, gas).txs == l.txs - (Unpayable(l.txs, cost, gas).Keys + Stranded(l.txs, cost, gas).Keys)
    ensures SplitsInThree(l.txs, l.Filter(cost, gas).txs, Unpayable(l.txs, cost, gas), Stranded(l.txs, cost, gas))
    ensures Transactions.Lists(Flat(Unpayable(l.txs, cost, gas)), Unpayable(l.txs, cost, gas))
    ensures Transactions.Lists(Flat(Stranded(l.txs, cost, gas)), Stranded(l.txs, cost, gas))
  {
    hide SortedListing, List.WithinCaps, Flat;
    FilterKeepsCaps(l, cost, gas);
    ListedAsFlat(Unpayable(l.txs, cost, gas));
    ListedAsFlat(Stranded(l.txs, cost, gas));
    if l.costcap <= cost && l.gascap <= gas {
      ShortcutIsFullScan(l, cost, gas);
    }
  }

  lemma ListedAsFlat(m: Txs)
    requires Keyed(m)
    ensures Transactions.Lists(Flat(m), m)
  {
    FlatListing(m);
  }

  lemma EmptyStage(l: List, a: Address)
    requires OwnList(l, a, true)
    ensures l.Cap(0).txs == map[] && OwnList(l.Cap(0), a, true)
    ensures SplitsInThree(l.txs, l.Cap(0).txs, map[], l.txs)
    ensures Transactions.Lists([], map[]) && Transactions.Lists(Flat(l.txs), l.txs)
  {
    FlatListing(l.txs);
  }

  lemma DemotedStages(acc: Account, f: Funds)
    ensures var recent := From(acc.pending, f.nonce);
            var stranded := Stranded(recent, f.balance, f.maxGas);
            var kept := recent - (Unpayable(recent, f.balance, f.maxGas).Keys + stranded.Keys);
            Demoted(acc, f) == if kept != map[] && f.nonce !in kept then Account(map[], acc.queue + stranded + kept, acc.next)
                               else Account(kept, acc.queue + stranded, acc.next)
  {
  }

  lemma DemotedNothing(acc: Account, f: Funds)
    requires acc.pending == map[]
    ensures Demoted(acc, f) == acc
  {
    assert From(acc.pending, f.nonce) == map[];
    assert Stranded(map[], f.balance, f.maxGas) == map[];
    assert acc.queue + map[] + map[] == acc.queue;
  }

  ghost predicate SplitsInThree(whole: Txs, kept: Txs, gone: Txs, back: Txs) {
    && Part(kept, whole) && Part(gone, whole) && Part(back, whole)
    && kept.Keys !! gone.Keys !! back.Keys && whole.Keys == kept.Keys + gone.Keys + back.Keys
  }

  lemma BackMoves(p: Book, q: Book, all: map<Hash, Tx>, a: Address, list: List, gone: Txs, back: Txs)
    requires Partition(p, q, all) && OwnList(list, a, true) && SplitsInThree(At(p, a, true).txs, list.txs, gone, back)
    ensures BookOk(q, false) && Keyed(back) && back.Keys !! At(q, a, false).txs.Keys
    ensures forall n :: n in back ==> back[n].from == a
  {
    hide Matches;
    QueueList(p, q, all, a);
  }

  lemma BackMoved(p: Book, q: Book, all: map<Hash, Tx>, a: Address, list: List, q': Book, gone: Txs, back: Txs)
    requires Partition(p, q, all) && OwnList(list, a, true) && SplitsInThree(At(p, a, true).txs, list.txs, gone, back)
    requires SameElsewhere(q, q', a) && BookOk(q', false) && At(q', a, false).txs == At(q, a, false).txs + back
    ensures Partition(Store(p, a, list), q', all - Hashes(gone.Values))
    ensures SameElsewhere(p, Store(p, a, list), a) && At(Store(p, a, list), a, true).txs == list.txs
  {
    hide Partition, BookOk, Store, Hashes, At, OwnList, SameElsewhere;
    QueueList(p, q, all, a);
    assert OwnList(At(q', a, false), a, false) by { AtOk(q', a, false); }
    AccountSplit(p, q, all, a, list, At(q', a, false), gone);
    StoredAt(q, q', a, false);
    StoredPending(p, q, all, a, list);
  }

  lemma StoredPending(p: Book, q: Book, all: map<Hash, Tx>, a: Address, list: List)
    requires Partition(p, q, all) && OwnList(list, a, true)
    ensures SameElsewhere(p, Store(p, a, list), a) && At(Store(p, a, list), a, true).txs == list.txs
  {
    StoreOk(p, a, list, true);
  }

  lemma PromotedNothing(acc: Account, f: Funds, limit: Option<nat>)
    requires acc.queue == map[]
    ensures Promoted(acc, f, limit) == acc
  {
    assert Eligible(acc.queue, f) == map[];
    assert acc.pending + map[] == acc.pending;
  }

  lemma EligibleStages(queue: Txs, f: Funds)
    ensures Eligible(queue, f) == From(queue, f.nonce) - Unpayable(From(queue, f.nonce), f.balance, f.maxGas).Keys
  {
  }

  lemma PromotedStages(acc: Account, f: Funds, limit: Option<nat>)
    ensures var ready := Ready(Eligible(acc.queue, f), acc.next);
            var rest := NotReady(Eligible(acc.queue, f), acc.next);
            var after := Promoted(acc, f, limit);
            && after.pending == acc.pending + ready && after.next == PastOr(ready, acc.next)
            && after.queue == if limit.Some? then Lowest(rest, limit.value) else rest
  {
  }

  ghost predicate SplitsInto(whole: Txs, kept: Txs, gone: Txs) {
    Part(kept, whole) && Part(gone, whole) && kept.Keys !! gone.Keys && whole.Keys == kept.Keys + gone.Keys
  }

  lemma QueueSplit(p: Book, q: Book, all: map<Hash, Tx>, a: Address, list: List, gone: Txs)
    requires Partition(p, q, all) && OwnList(list, a, false) && SplitsInto(At(q, a, false).txs, list.txs, gone)
    ensures Partition(p, Store(q, a, list), all - Hashes(gone.Values))
    ensures SameElsewhere(q, Store(q, a, list), a) && At(Store(q, a, list), a, false).txs == list.txs
  {
    hide Partition, OwnList, Store, Hashes, At;
    QueueList(p, q, all, a);
    assert At(p, a, true).txs + At(q, a, false).txs == At(p, a, true).txs + At(q, a, false).txs;
    AccountSplit(p, q, all, a, At(p, a, true), list, gone);
    StoredQueue(p, q, all, a, list);
  }

  lemma StoredQueue(p: Book, q: Book, all: map<Hash, Tx>, a: Address, list: List)
    requires Partition(p, q, all) && OwnList(list, a, false)
    ensures Store(p, a, At(p, a, true)) == p
    ensures SameElsewhere(q, Store(q, a, list), a) && At(Store(q, a, list), a, false).txs == list.txs
  {
    StoreSame(p, a, true);
    StoreOk(q, a, list, false);
  }

  lemma ReadySplit(p: Book, q: Book, all: map<Hash, Tx>, a: Address, list: List, next: nat)
    requires Partition(p, q, all) && OwnList(list, a, false) && At(q, a, false).txs == list.txs
    ensures BookOk(p, true) && OwnList(list.Take(next), a, false) && list.Take(next).txs == NotReady(list.txs, next)
    ensures SortedListing(Flat(Ready(list.txs, next)), Ready(list.txs, next)) && Keyed(Ready(list.txs, next))
    ensures forall n :: n in Ready(list.txs, next) ==> Ready(list.txs, next)[n].from == a
    ensures Ready(list.txs, next).Keys !! At(p, a, true).txs.Keys
  {
    hide Gapless, ReachesDownTo, SortedListing, Matches;
    assert Keyed(Ready(list.txs, next));
    FlatListing(Ready(list.txs, next));
    QueueList(p, q, all, a);
    assert Ready(list.txs, next).Keys <= list.txs.Keys;
  }

  lemma ReadyMoved(p: Book, q: Book, all: map<Hash, Tx>, a: Address, p': Book, rest: List, list: List, next: nat)
    requires Partition(p, q, all) && SameElsewhere(p, p', a) && BookOk(p', true) && OwnList(rest, a, false)
    requires At(q, a, false).txs == list.txs && rest.txs == NotReady(list.txs, next)
    requires At(p', a, true).txs == At(p, a, true).txs + Ready(list.txs, next)
    ensures Partition(p', Store(q, a, rest), all)
    ensures SameElsewhere(q, Store(q, a, rest), a) && At(Store(q, a, rest), a, false).txs == rest.txs
  {
    hide Gapless, ReachesDownTo, Partition, BookOk, Store, Hashes, At, OwnList, SameElsewhere;
    QueueList(p, q, all, a);
    assert OwnList(At(p', a, true), a, true) by { AtOk(p', a, true); }
    var none: Txs := map[];
    AccountSplit(p, q, all, a, At(p', a, true), rest, none);
    StoredAt(p, p', a, true);
    StoredQueue(p, q, all, a, rest);
    assert all - Hashes(none.Values) == all by { NoHashes(all, none); }
  }

  lemma NoHashes(all: map<Hash, Tx>, none: Txs)
    requires none == map[]
    ensures all - Hashes(none.Values) == all
  {
  }

  lemma QueueList(p: Book, q: Book, all: map<Hash, Tx>, a: Address)
    requires Partition(p, q, all)
    ensures OwnList(At(q, a, false), a, false) && OwnList(At(p, a, true), a, true)
    ensures At(p, a, true).txs.Keys !! At(q, a, false).txs.Keys
  {
    AtOk(q, a, false);
    AtOk(p, a, true);
  }

  lemma ForwardStage(l: List, a: Address, strict: bool, t: nat)
    requires OwnList(l, a, strict)
    ensures OwnList(l.Forward(t), a, strict) && l.Forward(t).txs == From(l.txs, t)
    ensures SplitsInto(l.txs, l.Forward(t).txs, Below(l.txs, t)) && Transactions.Lists(Flat(Below(l.txs, t)), Below(l.txs, t))
  {
    FlatListing(Below(l.txs, t));
  }

  lemma FilterStage(l: List, a: Address, cost: nat, gas: nat)
    requires OwnList(l, a, false)
    ensures OwnList(l.Filter(cost, gas), a, false) && l.Filter(cost, gas).txs == l.txs - Unpayable(l.txs, cost, gas).Keys
    ensures SplitsInto(l.txs, l.Filter(cost, gas).txs, Unpayable(l.txs, cost, gas))
    ensures Transactions.Lists(Flat(Unpayable(l.txs, cost, gas)), Unpayable(l.txs, cost, gas))
  {
    FilterKeepsCaps(l, cost, gas);
    FlatListing(Unpayable(l.txs, cost, gas));
    if l.costcap <= cost && l.gascap <= gas {
      ShortcutIsFullScan(l, cost, gas);
    } else {
      assert Unpayable(l.txs, cost, gas).Keys + {} == Unpayable(l.txs, cost, gas).Keys;
    }
  }

  lemma CapStage(l: List, a: Address, strict: bool, k: nat)
    requires OwnList(l, a, strict)
    ensures OwnList(l.Cap(k), a, strict) && l.Cap(k).txs == Lowest(l.txs, k)
    ensures SplitsInto(l.txs, l.Cap(k).txs, AllButLowest(l.txs, k))
    ensures Transactions.Lists(Flat(AllButLowest(l.txs, k)), AllButLowest(l.txs, k))
  {
    FlatListing(AllButLowest(l.txs, k));
  }

  lemma OthersUnchanged(m: Book, m': Book, a: Address, strict: bool)
    requires SameElsewhere(m, m', a)
    ensures forall b :: b != a ==> At(m', b, strict) == At(m, b, strict)
  {
  }

  lemma LastIsPast(s: seq<Tx>, m: Txs, otherwise: nat)
    requires SortedListing(s, m) && Keyed(m)
    ensures PastOr(m, otherwise) == if s == [] then otherwise else s[|s| - 1].nonce + 1
  {
    ListingLength(s, m);
    if s != [] {
      var hi := PastOr(m, otherwise);
      var i :| 0 <= i < |s| && s[i] == m[hi - 1];
      assert s[|s| - 1].nonce in m;
    } else {
      assert m.Keys == {};
    }
  }

  /** Nonces of a listing are new one by one. */
  lemma MapOfPrefix(s: seq<Tx>, i: nat)
    requires i < |s| && forall j, k :: 0 <= j < k < |s| ==> s[j].nonce != s[k].nonce
    ensures MapOf(s[..i + 1]) == MapOf(s[..i])[s[i].nonce := s[i]] && s[i].nonce !in MapOf(s[..i])
  {
    assert s[..i + 1][..i] == s[..i];
    MapOfListing(s[..i]);
  }

  /** An accepted remote offer leaves the pool within its limits when no live entry of the eviction list is doubled. */
  lemma OfferFits(all: map<Hash, Tx>, acc: Account, o: Offering, remotes: map<Hash, Tx>, entries: multiset<Tx>, limit: nat)
    requires o.outcome.Accepted? && o.tx.hash !in all && Undoubled(entries, remotes)
    requires forall h :: h in remotes ==> h in all && all[h] == remotes[h]
    requires var need := SlotSum(all) - limit + o.tx.Slots();
             Evictions(o.evicted, remotes, entries, need) && PricedList.SlotsOf(o.evicted) >= need
    ensures SlotSum(LookupAfter(all, acc, o)) <= limit
  {
    hide SlotSum, Exchange;
    assert DistinctHashes(o.evicted) by { NoneTwice(o.evicted, remotes, entries); }
    SlotsWithout(all, o.evicted);
    SlotsExchange(all - HashesOf(o.evicted), OfferReplaces(EvictedFrom(acc, o.tx.from, o.evicted), o.tx), o.tx);
  }

  /**
   What an offer does to the slots in use: exactly when an accepted one fits, and that without doubled
   entries a remote one never overfills the pool.
   */
  lemma FitsAfter(before: Lookup, after: Lookup, acc: Account, o: Offering, entries: multiset<Tx>, limit: nat, remote: bool)
    requires before.Ok() && after.Ok() && o.tx.hash !in before.All() && after.All() == LookupAfter(before.All(), acc, o)
    requires Evictions(o.evicted, before.remotes, entries, if o.outcome == Overflow then 0 else before.slots - limit + o.tx.Slots())
    requires o.outcome != Overflow && remote ==> PricedList.SlotsOf(o.evicted) >= before.slots - limit + o.tx.Slots()
    ensures o.outcome.Accepted? ==> (after.slots <= limit <==> before.slots - limit + o.tx.Slots() <= SlotsAt(before.All(), Leaving(acc, o)))
    ensures after.slots <= before.slots + o.tx.Slots()
    ensures remote && Undoubled(entries, before.remotes) && (o.outcome.Accepted? || before.slots <= limit) ==> after.slots <= limit
  {
    hide Evictions, LookupAfter, Undoubled, PricedList.SlotsOf, SlotsAt, Leaving;
    RemotesKeyed(before);
    SlotsAfter(before.All(), acc, o);
    if o.outcome.Accepted? && remote && Undoubled(entries, before.remotes) {
      OfferFits(before.All(), acc, o, before.remotes, entries, limit);
    }
  }

  lemma GoodsAdded(before: Stock, after: Stock, remotes: map<Hash, Tx>, acc: Account, o: Offering, limit: nat, local: bool, known: bool)
    requires var enters := o.outcome.Accepted? && !local && !known;
             && after.entered == before.entered + One(o.tx, enters)
             && (!local ==> after.localTxs <= before.localTxs + (if known then {o.tx.hash} else {}))
             && (!local && !known ==> after.localTxs == before.localTxs)
    requires o.outcome != Accepted(true) && !local && before.slots - limit + o.tx.Slots() <= 0 ==>
               after.tally == before.tally.With(o.tx, o.outcome.Accepted? && !known)
    requires o.outcome != Accepted(true) && !local ==>
               PricedList.KeepsLive(before.tally.entries + One(o.tx, o.outcome.Accepted? && !known), after.tally.entries + multiset(o.evicted), remotes)
    requires o.outcome.Accepted? ==> (after.slots <= limit <==> before.slots - limit + o.tx.Slots() <= SlotsAt(before.all, Leaving(acc, o)))
    requires after.slots <= before.slots + o.tx.Slots()
    requires !local && !known && Undoubled(before.tally.entries, remotes) && (o.outcome.Accepted? || before.slots <= limit) ==> after.slots <= limit
    ensures StockAdded(before, after, remotes, acc, o, limit, local, known)
  {
    hide PricedList.KeepsLive, SlotsAt, Leaving, Undoubled, One, PricedList.Tally.With;
  }

  lemma NoneTwice(drop: seq<Tx>, remotes: map<Hash, Tx>, entries: multiset<Tx>)
    requires Undoubled(entries, remotes)
    requires forall i :: 0 <= i < |drop| ==> drop[i].hash in remotes && remotes[drop[i].hash] == drop[i] && multiset(drop)[drop[i]] <= entries[drop[i]]
    ensures DistinctHashes(drop)
  {
    forall i, j | 0 <= i < j < |drop| ensures drop[i].hash != drop[j].hash {
      assert drop[i] in multiset(drop) && drop[i] in entries && PricedList.Live(drop[i], remotes);
      if drop[i] == drop[j] {
        TwiceInMultiset(drop, i, j);
      }
    }
  }
}
