/**
 The explorer cache (cachemanager/cachemanager.go): blocks are followed one by one, each account's
 transactions are kept in pages of twenty, newest first, and running supply totals are stored with
 them in one atomic batch per block.
 */
module Explorer {
  import opened Common

  type Address = nat

  const PAGE_SIZE: nat := 20

  datatype Tx = Tx(hash: nat, from: Address, to: Option<Address>, value: nat, gasPrice: nat)
  datatype Receipt = Receipt(gasUsed: nat, status: nat)

  /** One transaction as listed for an account. */
  datatype Entry = Entry(hash: nat, block: nat, from: Address, to: Option<Address>, value: nat, fee: nat, succeeded: bool)

  /** Amounts the node may leave out. */
  datatype Rewards = Rewards(base: Option<nat>, proposer: Option<nat>, fees: Option<nat>, burntFees: Option<nat>, slashed: Option<nat>)

  /** A block with its receipts, its rewards and the balance of the zero address after it. */
  datatype Block = Block(txs: seq<Tx>, receipts: seq<Receipt>, rewards: Rewards, zeroBalance: nat) {
    ghost predicate Ok() { |receipts| == |txs| }
  }

  function EntryOf(t: Tx, r: Receipt, n: nat): Entry {
    Entry(t.hash, n, t.from, t.to, t.value, r.gasUsed * t.gasPrice, r.status == 1)
  }

  /** Sent or received by the account; a transfer to itself is one transaction. */
  predicate Involves(t: Tx, a: Address) {
    t.from == a || t.to == Some(a)
  }

  /** The first `k` transactions of block `n` that the account takes part in. */
  ghost function EntriesOf(b: Block, n: nat, a: Address, k: nat): seq<Entry>
    requires b.Ok() && k <= |b.txs|
  {
    if k == 0 then []
    else EntriesOf(b, n, a, k - 1) + if Involves(b.txs[k - 1], a) then [EntryOf(b.txs[k - 1], b.receipts[k - 1], n)] else []
  }

  type Chain = f: nat -> Block | forall n :: f(n).Ok() witness (_ => Block([], [], Rewards(None, None, None, None, None), 0))

  /** All transactions of an account in blocks 1 to `n`, oldest first. */
  ghost function Flat(chain: Chain, n: nat, a: Address): seq<Entry> {
    if n == 0 then [] else Flat(chain, n - 1, a) + EntriesOf(chain(n), n, a, |chain(n).txs|)
  }

  function Reverse(s: seq<Entry>): seq<Entry> {
    if s == [] then [] else [s[|s| - 1]] + Reverse(s[..|s| - 1])
  }

  lemma {:induction false} ReverseLength(s: seq<Entry>)
    ensures |Reverse(s)| == |s|
    ensures forall i :: 0 <= i < |s| ==> Reverse(s)[i] == s[|s| - 1 - i]
  {
    if s != [] {
      ReverseLength(s[..|s| - 1]);
    }
  }

  function PageCount(n: nat): nat {
    if n % PAGE_SIZE == 0 then n / PAGE_SIZE else n / PAGE_SIZE + 1
  }

  /** Page `p` of a flat list: its positions 20(p-1) up to 20p, newest first. */
  ghost function Page(flat: seq<Entry>, p: nat): seq<Entry>
    requires 1 <= p <= PageCount(|flat|)
  {
    Reverse(flat[PAGE_SIZE * (p - 1)..if PAGE_SIZE * p <= |flat| then PAGE_SIZE * p else |flat|])
  }

  datatype PageRecord = PageRecord(address: Address, txs: seq<Entry>)

  /** Full pages do not change when the list grows. */
  lemma PageStays(flat: seq<Entry>, more: seq<Entry>, p: nat)
    requires 1 <= p && PAGE_SIZE * p <= |flat|
    ensures Page(flat + more, p) == Page(flat, p)
  {
    assert (flat + more)[PAGE_SIZE * (p - 1)..PAGE_SIZE * p] == flat[PAGE_SIZE * (p - 1)..PAGE_SIZE * p];
  }

  /** The entries of the page being filled, newest first; nothing after a full page. */
  ghost function OpenPage(flat: seq<Entry>): seq<Entry> {
    Reverse(flat[PAGE_SIZE * (|flat| / PAGE_SIZE)..])
  }

  lemma OpenPageGrows(flat: seq<Entry>, e: Entry)
    ensures |OpenPage(flat)| == |flat| % PAGE_SIZE
    ensures var longer := flat + [e];
            var page := [e] + OpenPage(flat);
            && page == Page(longer, PageCount(|longer|))
            && (|page| == PAGE_SIZE <==> |longer| % PAGE_SIZE == 0)
            && OpenPage(longer) == if |page| == PAGE_SIZE then [] else page
  {
    var longer := flat + [e];
    var k := |flat| / PAGE_SIZE;
    NextInPage(|flat|);
    ReverseLength(flat[PAGE_SIZE * k..]);
    ReverseMore(flat, e, PAGE_SIZE * k);
    if |longer| % PAGE_SIZE == 0 {
      assert longer[PAGE_SIZE * (k + 1)..] == [];
    }
  }

  lemma NextInPage(n: nat)
    ensures PageCount(n + 1) == n / PAGE_SIZE + 1
    ensures if (n + 1) % PAGE_SIZE == 0 then (n + 1) / PAGE_SIZE == n / PAGE_SIZE + 1 && n + 1 == PAGE_SIZE * (n / PAGE_SIZE + 1)
            else (n + 1) / PAGE_SIZE == n / PAGE_SIZE && n + 1 < PAGE_SIZE * (n / PAGE_SIZE + 1)
    ensures n == PAGE_SIZE * (n / PAGE_SIZE) + n % PAGE_SIZE
  {
  }

  lemma ReverseMore(flat: seq<Entry>, e: Entry, from: nat)
    requires from <= |flat|
    ensures var longer := flat + [e];
            longer[from..|longer|] == longer[from..] && Reverse(longer[from..]) == [e] + Reverse(flat[from..])
  {
    var longer := flat + [e];
    assert longer[from..] == flat[from..] + [e];
    assert longer[from..][..|longer[from..]| - 1] == flat[from..];
  }

  lemma LoadedPage(flat: seq<Entry>)
    requires |flat| % PAGE_SIZE != 0
    ensures OpenPage(flat) == Page(flat, PageCount(|flat| + 1)) && PageCount(|flat| + 1) == PageCount(|flat|)
  {
    assert flat[PAGE_SIZE * (|flat| / PAGE_SIZE)..|flat|] == flat[PAGE_SIZE * (|flat| / PAGE_SIZE)..];
  }

  /** What is stored for one account: its pages by number and its number of transactions. */
  datatype Ledger = Ledger(pages: map<nat, PageRecord>, count: nat)

  /** The stored pages of an account are exactly the pages of its flat list. */
  ghost predicate PagesOf(l: Ledger, a: Address, flat: seq<Entry>) {
    && l.count == |flat|
    && (forall p: nat :: 1 <= p <= PageCount(|flat|) ==> p in l.pages && l.pages[p] == PageRecord(a, Page(flat, p)))
  }

  /** An account with nothing stored has no transactions. */
  function LedgerOf(accounts: map<Address, Ledger>, a: Address): Ledger {
    if a in accounts then accounts[a] else Ledger(map[], 0)
  }

  /** The pages a batch rewrites: the one that was open and everything after it. */
  ghost predicate Rewritten(puts: map<nat, PageRecord>, a: Address, before: nat, flat: seq<Entry>) {
    && (forall p: nat :: p in puts <==> before / PAGE_SIZE < p <= PageCount(|flat|))
    && (forall p: nat :: p in puts && 1 <= p <= PageCount(|flat|) ==> puts[p] == PageRecord(a, Page(flat, p)))
  }

  /** The completed pages after part of a block's transactions were taken over. */
  ghost predicate Completed(puts: map<nat, PageRecord>, a: Address, before: nat, flat: seq<Entry>) {
    && (forall p: nat :: p in puts <==> before / PAGE_SIZE < p <= |flat| / PAGE_SIZE)
    && (forall p: nat :: p in puts && 1 <= p <= PageCount(|flat|) ==> puts[p] == PageRecord(a, Page(flat, p)))
  }

  lemma PageFilled(puts: map<nat, PageRecord>, a: Address, before: nat, flat: seq<Entry>, e: Entry)
    requires Completed(puts, a, before, flat) && before <= |flat|
    ensures var longer := flat + [e];
            var p := PageCount(|longer|);
            && Rewritten(puts[p := PageRecord(a, [e] + OpenPage(flat))], a, before, longer)
            && (|longer| % PAGE_SIZE == 0 ==> Completed(puts[p := PageRecord(a, [e] + OpenPage(flat))], a, before, longer))
            && (|longer| % PAGE_SIZE != 0 ==> Completed(puts, a, before, longer))
  {
    hide Page, OpenPage;
    var longer := flat + [e];
    OpenPageGrows(flat, e);
    forall p: nat | p in puts ensures 1 <= p && PAGE_SIZE * p <= |flat| && puts[p] == PageRecord(a, Page(longer, p)) {
      PageStays(flat, [e], p);
    }
  }

  /**
   Adds an account's transactions of one block to its pages. The page that is open is loaded and
   its length checked against the count; the check never fails.
   */
  method AccountPages(a: Address, list: seq<Entry>, stored: Ledger, readFails: bool, putFails: bool, ghost flat: seq<Entry>)
    returns (ok: bool, puts: map<nat, PageRecord>, count: nat)
    requires PagesOf(stored, a, flat) && list != []
    ensures ok <==> !readFails && !putFails
    ensures ok ==> count == |flat + list| && Rewritten(puts, a, |flat|, flat + list)
  {
    hide Page, OpenPage, Rewritten, Completed;
    count, puts := stored.count, map[];
    if readFails {
      return false, puts, count;
    }
    var open: seq<Entry> := [];
    OpenPageGrows(flat, list[0]);
    if (count + 1) % PAGE_SIZE != 1 {
      LoadedPage(flat);
      var record := stored.pages[PageCount(count + 1)];
      if putFails || record.address != a || |record.txs| != count % PAGE_SIZE {
        return false, puts, count;
      }
      open := record.txs;
    }
    NothingCompleted(a, flat);
    assert flat + list[..0] == flat;
    for i := 0 to |list|
      invariant i < |list| ==> open == OpenPage(flat + list[..i])
      invariant i < |list| ==> Completed(puts, a, |flat|, flat + list[..i])
      invariant i == |list| ==> Rewritten(puts, a, |flat|, flat + list)
      invariant putFails ==> i < |list|
    {
      PageFilled(puts, a, |flat|, flat + list[..i], list[i]);
      OpenPageGrows(flat + list[..i], list[i]);
      assert flat + list[..i + 1] == flat + list[..i] + [list[i]];
      open := [list[i]] + open;
      if |open| == PAGE_SIZE || i == |list| - 1 {
        if putFails {
          return false, puts, count;
        }
        puts := puts[PageCount(count + i + 1) := PageRecord(a, open)];
        open := [];
        assert i == |list| - 1 ==> list[..i + 1] == list;
      }
    }
    count := count + |list|;
    ok := true;
  }

  lemma NothingCompleted(a: Address, flat: seq<Entry>)
    ensures Completed(map[], a, |flat|, flat)
    ensures |flat| % PAGE_SIZE == 0 ==> OpenPage(flat) == []
  {
  }

  /** The lists of one block: what each account takes part in, accounts without transactions absent. */
  ghost predicate ListsOf(live: map<Address, seq<Entry>>, b: Block, n: nat, k: nat)
    requires b.Ok() && k <= |b.txs|
  {
    && (forall a: Address :: a in live ==> live[a] == EntriesOf(b, n, a, k) && live[a] != [])
    && (forall a: Address :: a !in live ==> EntriesOf(b, n, a, k) == [])
  }

  function ListAt(live: map<Address, seq<Entry>>, a: Address): seq<Entry> {
    if a in live then live[a] else []
  }

  lemma NoLists(b: Block, n: nat)
    requires b.Ok()
    ensures ListsOf(map[], b, n, 0)
  {
  }

  lemma ListsGrow(live: map<Address, seq<Entry>>, more: map<Address, seq<Entry>>, b: Block, n: nat, k: nat)
    requires b.Ok() && k < |b.txs| && ListsOf(live, b, n, k)
    requires forall a: Address :: a in more <==> a in live || Involves(b.txs[k], a)
    requires forall a: Address :: a in more ==>
               more[a] == if Involves(b.txs[k], a) then ListAt(live, a) + [EntryOf(b.txs[k], b.receipts[k], n)] else ListAt(live, a)
    ensures ListsOf(more, b, n, k + 1)
  {
    forall a: Address ensures ListAt(live, a) == EntriesOf(b, n, a, k) { }
    forall a: Address | a !in more ensures EntriesOf(b, n, a, k + 1) == [] { assert a !in live; }
    forall a: Address | a in more ensures more[a] == EntriesOf(b, n, a, k + 1) && more[a] != [] { assert !Involves(b.txs[k], a) ==> a in live; }
  }

  /** Sorts the transactions of a block by account; receipt `fault`, if there is one, cannot be had. */
  method LiveAccounts(b: Block, n: nat, fault: Option<nat>) returns (ok: bool, live: map<Address, seq<Entry>>)
    requires b.Ok()
    ensures ok <==> !(fault.Some? && fault.value < |b.txs|)
    ensures ok ==> ListsOf(live, b, n, |b.txs|)
  {
    hide ListsOf, EntriesOf;
    live := map[];
    NoLists(b, n);
    for i := 0 to |b.txs|
      invariant ListsOf(live, b, n, i)
      invariant fault.Some? ==> i <= fault.value
    {
      if fault == Some(i) {
        return false, live;
      }
      var t := b.txs[i];
      var e := EntryOf(t, b.receipts[i], n);
      ghost var before := live;
      live := live[t.from := ListAt(live, t.from) + [e]];
      if t.to.Some? && t.from != t.to.value {
        live := live[t.to.value := ListAt(live, t.to.value) + [e]];
      }
      ListsGrow(before, live, b, n, i);
    }
    ok := true;
  }

  /** The accounts describe the first `n` blocks. */
  ghost predicate PagesUpTo(accounts: map<Address, Ledger>, chain: Chain, n: nat) {
    forall a: Address :: PagesOf(LedgerOf(accounts, a), a, Flat(chain, n, a))
  }

  /** Writing a batch: its pages are added, its counts replace the stored ones. */
  function Merged(stored: Ledger, puts: Ledger): Ledger {
    Ledger(stored.pages + puts.pages, puts.count)
  }

  function Merge(accounts: map<Address, Ledger>, batch: map<Address, Ledger>): map<Address, Ledger> {
    map a | a in accounts.Keys + batch.Keys :: if a in batch then Merged(LedgerOf(accounts, a), batch[a]) else accounts[a]
  }

  lemma {:induction false} OwnPages(stored: Ledger, a: Address, before: seq<Entry>, more: seq<Entry>, puts: map<nat, PageRecord>)
    requires PagesOf(stored, a, before) && Rewritten(puts, a, |before|, before + more)
    ensures PagesOf(Merged(stored, Ledger(puts, |before + more|)), a, before + more)
  {
    hide Page;
    var flat := before + more;
    var now := stored.pages + puts;
    forall p: nat | 1 <= p <= PageCount(|flat|) ensures p in now && now[p] == PageRecord(a, Page(flat, p)) {
      if p !in puts {
        PageStays(before, more, p);
      }
    }
  }

  /** Collects the new pages of every account of a block, in any order. */
  method AllPages(live: map<Address, seq<Entry>>, accounts: map<Address, Ledger>, readFails: bool, putFails: bool,
                  ghost chain: Chain, ghost n: nat)
    returns (ok: bool, batch: map<Address, Ledger>)
    requires PagesUpTo(accounts, chain, n) && ListsOf(live, chain(n + 1), n + 1, |chain(n + 1).txs|)
    ensures ok <==> live == map[] || (!readFails && !putFails)
    ensures ok ==> PagesUpTo(Merge(accounts, batch), chain, n + 1)
  {
    hide *;
    batch := map[];
    var todo := live.Keys;
    while todo != {}
      invariant batch.Keys !! todo && batch.Keys + todo == live.Keys
      invariant batch.Keys != {} ==> !readFails && !putFails
      invariant forall a :: a in batch ==> PagesOf(Merged(LedgerOf(accounts, a), batch[a]), a, Flat(chain, n + 1, a))
      decreases todo
    {
      var a :| a in todo;
      ListedAt(live, accounts, chain, n, a);
      var puts, count;
      ok, puts, count := AccountPages(a, live[a], LedgerOf(accounts, a), readFails, putFails, Flat(chain, n, a));
      if !ok {
        assert a in live;
        return;
      }
      OwnPages(LedgerOf(accounts, a), a, Flat(chain, n, a), live[a], puts);
      batch := batch[a := Ledger(puts, count)];
      todo := todo - {a};
    }
    ok := true;
    AllUpdated(live, accounts, batch, chain, n);
  }

  lemma ListedAt(live: map<Address, seq<Entry>>, accounts: map<Address, Ledger>, chain: Chain, n: nat, a: Address)
    requires PagesUpTo(accounts, chain, n) && ListsOf(live, chain(n + 1), n + 1, |chain(n + 1).txs|) && a in live
    ensures PagesOf(LedgerOf(accounts, a), a, Flat(chain, n, a))
    ensures live[a] != [] && Flat(chain, n + 1, a) == Flat(chain, n, a) + live[a]
  {
  }

  lemma AllUpdated(live: map<Address, seq<Entry>>, accounts: map<Address, Ledger>, batch: map<Address, Ledger>, chain: Chain, n: nat)
    requires PagesUpTo(accounts, chain, n) && ListsOf(live, chain(n + 1), n + 1, |chain(n + 1).txs|) && batch.Keys == live.Keys
    requires forall a :: a in batch ==> PagesOf(Merged(LedgerOf(accounts, a), batch[a]), a, Flat(chain, n + 1, a))
    ensures PagesUpTo(Merge(accounts, batch), chain, n + 1)
  {
    hide PagesOf, EntriesOf, Merged;
    forall a: Address ensures PagesOf(LedgerOf(Merge(accounts, batch), a), a, Flat(chain, n + 1, a)) {
      if a !in live {
        assert Flat(chain, n + 1, a) == Flat(chain, n, a) + [] == Flat(chain, n, a);
        assert LedgerOf(Merge(accounts, batch), a) == LedgerOf(accounts, a);
      } else {
        assert a in batch;
      }
    }
  }

  datatype Summary = Summary(block: nat, maxSupply: int, totalSupply: int, circulating: int, burnt: int, blockRewards: int,
                             baseRewards: int, feeRewards: int, feeBurnt: int, slashed: int)

  function Amount(o: Option<nat>): nat {
    if o.Some? then o.value else 0
  }

  /** The sum of one kind of reward over blocks 1 to `n`. */
  ghost function SumOf(chain: Chain, n: nat, kind: Rewards -> Option<nat>): nat {
    if n == 0 then 0 else SumOf(chain, n - 1, kind) + Amount(kind(chain(n).rewards))
  }

  ghost function BurntAt(chain: Chain, n: nat): nat {
    if n == 0 then 0 else chain(n).zeroBalance
  }

  /** The totals after `n` blocks: plain sums over exactly those blocks, each counted once. */
  ghost function Totals(chain: Chain, n: nat, maxSupply: int, genesisSupply: int): Summary {
    var rewards := SumOf(chain, n, (r: Rewards) => r.proposer);
    var circulating := genesisSupply + rewards - BurntAt(chain, n);
    Summary(n, maxSupply, circulating, circulating, BurntAt(chain, n), rewards, SumOf(chain, n, (r: Rewards) => r.base),
            SumOf(chain, n, (r: Rewards) => r.fees), SumOf(chain, n, (r: Rewards) => r.burntFees), SumOf(chain, n, (r: Rewards) => r.slashed))
  }

  /** Where processing a block can fail. */
  datatype Fault =
    | NoFault | NoBlock | PutLast | NoReceipt(i: nat) | AccountRead | AccountPut | NoConsensus
    | BadBase | BadProposer | BadFees | BadBurntFees | BadSlashed | NoBalance | PutSummary | WriteFails

  /** Faults that strike before the running summary is touched. */
  predicate Early(f: Fault, b: Block, extended: bool) {
    || f.NoBlock? || f.PutLast? || (f.NoReceipt? && f.i < |b.txs|) || ((f.AccountRead? || f.AccountPut?) && b.txs != [])
    || (extended && f.NoConsensus?)
  }

  /** A reward amount that is there but cannot be decoded. */
  predicate Undecoded(f: Fault, r: Rewards) {
    || (f.BadBase? && r.base.Some?) || (f.BadProposer? && r.proposer.Some?) || (f.BadFees? && r.fees.Some?)
    || (f.BadBurntFees? && r.burntFees.Some?) || (f.BadSlashed? && r.slashed.Some?)
  }

  predicate SummaryFault(f: Fault, r: Rewards) {
    Undecoded(f, r) || f.NoBalance? || f.PutSummary?
  }

  /** Faults that strike after it was changed in memory. */
  predicate Late(f: Fault, r: Rewards, extended: bool) {
    f.WriteFails? || (extended && SummaryFault(f, r))
  }

  lemma EarlyKinds(f: Fault, b: Block)
    ensures Early(f, b, false) <==>
            f.NoBlock? || f.PutLast? || (f.NoReceipt? && f.i < |b.txs|) || ((f.AccountRead? || f.AccountPut?) && b.txs != [])
  {
  }

  lemma FaultKinds(f: Fault, b: Block, extended: bool)
    ensures Early(f, b, extended) <==> Early(f, b, false) || (extended && f.NoConsensus?)
    ensures Late(f, b.rewards, extended) <==> f.WriteFails? || (extended && SummaryFault(f, b.rewards))
    ensures Early(f, b, extended) ==> !Late(f, b.rewards, extended)
    ensures SummaryFault(f, b.rewards) ==> !f.WriteFails?
  {
  }

  function WithRewards(s: Summary, r: Rewards): Summary {
    s.(baseRewards := s.baseRewards + Amount(r.base), blockRewards := s.blockRewards + Amount(r.proposer),
       feeRewards := s.feeRewards + Amount(r.fees), feeBurnt := s.feeBurnt + Amount(r.burntFees), slashed := s.slashed + Amount(r.slashed))
  }

  /** The summary once block `n` has been taken in. */
  function Including(s: Summary, b: Block, n: nat, genesisSupply: int): Summary {
    var t := WithRewards(s, b.rewards);
    var circulating := genesisSupply + t.blockRewards - b.zeroBalance;
    t.(block := n, burnt := b.zeroBalance, circulating := circulating, totalSupply := circulating)
  }

  class CacheManager {
    const chain: Chain
    const extended: bool
    const maxSupply: int
    const genesisSupply: int
    /** The database. */
    var lastBlock: Option<nat>
    var accounts: map<Address, Ledger>
    var summary: Option<Summary>
    /** In memory. */
    var blockNumber: nat
    var running: Summary

    /** Last block, pages and totals in the database describe the same `n` blocks. */
    ghost predicate Describes(n: nat)
      reads this`lastBlock, this`accounts, this`summary
    {
      && lastBlock == (if n == 0 then None else Some(n))
      && PagesUpTo(accounts, chain, n)
      && (extended ==> summary == if n == 0 then None else Some(Totals(chain, n, maxSupply, genesisSupply)))
    }

    /** The in-memory summary was changed for a block that never got written. */
    predicate Stuck()
      reads this`blockNumber, this`running
    {
      extended && running.block == blockNumber + 1
    }

    ghost predicate Valid()
      reads this
    {
      && Describes(blockNumber)
      && (extended ==> Stuck() || running == Totals(chain, blockNumber, maxSupply, genesisSupply))
    }

    constructor (chain: Chain, extended: bool, maxSupply: int, genesisSupply: int)
      ensures Valid() && blockNumber == 0 && !Stuck() && lastBlock == None
      ensures this.chain == chain && this.extended == extended && this.maxSupply == maxSupply && this.genesisSupply == genesisSupply
    {
      this.chain, this.extended, this.maxSupply, this.genesisSupply := chain, extended, maxSupply, genesisSupply;
      lastBlock, accounts, summary := None, map[], None;
      blockNumber, running := 0, Summary(0, maxSupply, genesisSupply, genesisSupply, 0, 0, 0, 0, 0, 0);
    }

    /** A restart forgets the in-memory state and reads the database. */
    method Restart()
      requires Valid()
      modifies this`blockNumber, this`running
      ensures Valid() && !Stuck() && blockNumber == old(blockNumber)
    {
      hide PagesUpTo;
      if lastBlock.None? {
        blockNumber := 0;
        if extended {
          running := Summary(0, maxSupply, genesisSupply, genesisSupply, 0, 0, 0, 0, 0, 0);
        }
      } else {
        blockNumber := lastBlock.value;
        if extended {
          running := summary.value;
        }
      }
    }

    /** Adds rewards to the running summary, field by field; an amount that cannot be decoded leaves it half done. */
    method AddRewards(r: Rewards, fault: Fault) returns (ok: bool)
      modifies this`running
      ensures ok <==> !Undecoded(fault, r)
      ensures running.block == old(running).block
      ensures ok ==> running == WithRewards(old(running), r)
    {
      if r.base.Some? && fault.BadBase? {
        return false;
      }
      running := running.(baseRewards := running.baseRewards + Amount(r.base));
      if r.proposer.Some? && fault.BadProposer? {
        return false;
      }
      running := running.(blockRewards := running.blockRewards + Amount(r.proposer));
      if r.fees.Some? && fault.BadFees? {
        return false;
      }
      running := running.(feeRewards := running.feeRewards + Amount(r.fees));
      if r.burntFees.Some? && fault.BadBurntFees? {
        return false;
      }
      running := running.(feeBurnt := running.feeBurnt + Amount(r.burntFees));
      if r.slashed.Some? && fault.BadSlashed? {
        return false;
      }
      running := running.(slashed := running.slashed + Amount(r.slashed));
      ok := true;
    }

    /** Takes block `n` into the running summary. */
    method UpdateSummary(n: nat, fault: Fault) returns (ok: bool)
      requires extended && n > 0
      modifies this`running
      ensures ok <==> old(running).block + 1 == n && !fault.NoConsensus? && !SummaryFault(fault, chain(n).rewards)
      ensures ok ==> running == Including(old(running), chain(n), n, genesisSupply)
      ensures old(running).block + 1 != n || fault.NoConsensus? ==> running == old(running)
      ensures old(running).block + 1 == n && !fault.NoConsensus? ==> running.block == n
    {
      if n != running.block + 1 || fault.NoConsensus? {
        return false;
      }
      running := running.(block := n);
      ok := AddRewards(chain(n).rewards, fault);
      if !ok || fault.NoBalance? {
        return false;
      }
      running := running.(burnt := chain(n).zeroBalance);
      running := running.(circulating := genesisSupply + running.blockRewards - chain(n).zeroBalance);
      running := running.(totalSupply := running.circulating);
      ok := !fault.PutSummary?;
    }

    /** Fetches the next block and collects the page changes for the batch. */
    method Gather(fault: Fault) returns (ok: bool, batch: map<Address, Ledger>)
      requires PagesUpTo(accounts, chain, blockNumber)
      ensures ok <==> !Early(fault, chain(blockNumber + 1), false)
      ensures ok ==> PagesUpTo(Merge(accounts, batch), chain, blockNumber + 1)
    {
      hide *;
      var n := blockNumber + 1;
      var b := chain(n);
      EarlyKinds(fault, b);
      if fault.NoBlock? || fault.PutLast? {
        return false, map[];
      }
      var live;
      ok, live := LiveAccounts(b, n, if fault.NoReceipt? then Some(fault.i) else None);
      if !ok {
        return false, map[];
      }
      NoAccounts(live, b, n);
      ok, batch := AllPages(live, accounts, fault.AccountRead?, fault.AccountPut?, chain, blockNumber);
    }

    /**
     Processes the next block. Everything is written in one batch or nothing is. A fault that
     strikes after the running summary was changed leaves the manager stuck.
     */
    method ProcessNext(fault: Fault) returns (ok: bool)
      requires Valid()
      modifies this
      ensures Valid()
      ensures var b := chain(old(blockNumber) + 1);
              && (ok <==> !old(Stuck()) && !Early(fault, b, extended) && !Late(fault, b.rewards, extended))
              && (Stuck() <==> old(Stuck()) || (extended && !Early(fault, b, extended) && Late(fault, b.rewards, extended)))
      ensures blockNumber == old(blockNumber) + if ok then 1 else 0
      ensures !ok ==> lastBlock == old(lastBlock) && accounts == old(accounts) && summary == old(summary)
    {
      hide PagesUpTo, Totals, Merge, Including, Early, Late, SummaryFault;
      var n := blockNumber + 1;
      FaultKinds(fault, chain(n), extended);
      var batch;
      ok, batch := Gather(fault);
      if !ok {
        return;
      }
      TotalsBlock(chain, blockNumber, maxSupply, genesisSupply);
      TotalsStep(chain, n, maxSupply, genesisSupply);
      if extended {
        ok := UpdateSummary(n, fault);
        if !ok {
          return;
        }
      }
      if fault.WriteFails? {
        return false;
      }
      lastBlock, accounts := Some(n), Merge(accounts, batch);
      if extended {
        summary := Some(running);
      }
      blockNumber := n;
    }

    /**
     One page of an account's history. Page numbers below 1 mean the last page, numbers above the
     page count give no items; otherwise the page holds exactly its twenty positions of the flat
     list, newest first.
     */
    method ListTransactions(a: Address, page: int) returns (pageCount: nat, items: seq<Entry>)
      requires Valid()
      ensures var flat := Flat(chain, blockNumber, a);
              var p := if page < 1 then pageCount else page;
              && pageCount == PageCount(|flat|)
              && (if 1 <= p <= pageCount then items == Page(flat, p) else items == [])
    {
      hide Page, Flat, Totals;
      var ledger := LedgerOf(accounts, a);
      assert PagesOf(ledger, a, Flat(chain, blockNumber, a));
      pageCount := PageCount(ledger.count);
      if pageCount == 0 {
        return 0, [];
      }
      var number := if page < 1 then pageCount else page;
      if number > pageCount {
        return pageCount, [];
      }
      return pageCount, ledger.pages[number].txs;
    }

    /** One attempt or restart. */
    method Take(e: Event)
      requires Valid()
      modifies this
      ensures Valid() && Progress(blockNumber, Stuck()) == Advanced(chain, extended, old(Progress(blockNumber, Stuck())), e)
    {
      hide PagesUpTo, Totals, Late, Early;
      match e {
        case Attempt(fault) =>
          var ok := ProcessNext(fault);
        case Restarts =>
          Restart();
      }
    }

    /**
     Along every run of block attempts, failing anywhere, and restarts the database describes one
     block prefix. How far it reaches is determined by where the faults strike.
     */
    method Run(events: seq<Event>)
      requires Valid()
      modifies this
      ensures Valid() && Progress(blockNumber, Stuck()) == ProgressAfter(chain, extended, old(Progress(blockNumber, Stuck())), events)
    {
      hide Valid, Stuck, Advanced;
      for i := 0 to |events|
        invariant Valid() && Progress(blockNumber, Stuck()) == ProgressAfter(chain, extended, old(Progress(blockNumber, Stuck())), events[..i])
      {
        assert events[..i + 1][..i] == events[..i];
        Take(events[i]);
      }
      assert events[..|events|] == events;
    }

    /** Once stuck, no further attempt gets anywhere, and nothing is written, until a restart. */
    method RetriesFail(faults: seq<Fault>)
      requires Valid() && Stuck()
      modifies this
      ensures Valid() && Stuck() && blockNumber == old(blockNumber)
      ensures lastBlock == old(lastBlock) && accounts == old(accounts) && summary == old(summary)
    {
      hide PagesUpTo, Totals, Late, Early;
      for i := 0 to |faults|
        invariant Valid() && Stuck() && blockNumber == old(blockNumber)
        invariant lastBlock == old(lastBlock) && accounts == old(accounts) && summary == old(summary)
      {
        var ok := ProcessNext(faults[i]);
      }
    }
  }

  /** With extended statistics a new manager whose first write fails is stuck before it stored anything, on every chain. */
  method FailedWriteSticks(chain: Chain, maxSupply: int, genesisSupply: int) returns (cm: CacheManager)
    ensures cm.Valid() && fresh(cm) && cm.chain == chain && cm.extended
    ensures cm.Stuck() && cm.blockNumber == 0 && cm.lastBlock == None
  {
    hide CacheManager.Valid, Early, Late, SummaryFault;
    FaultKinds(WriteFails, chain(1), true);
    EarlyKinds(WriteFails, chain(1));
    cm := new CacheManager(chain, true, maxSupply, genesisSupply);
    var ok := cm.ProcessNext(WriteFails);
  }

  /** Whatever retries follow, with or without faults, it stays at block 0; a restart takes the block in. */
  method OnlyRestartHelps(chain: Chain, maxSupply: int, genesisSupply: int, retries: seq<Fault>) returns (cm: CacheManager, before: nat)
    ensures cm.Valid() && cm.chain == chain && before == 0 && cm.blockNumber == 1 && !cm.Stuck()
  {
    hide CacheManager.Valid, CacheManager.Stuck, Early, Late, SummaryFault;
    FaultKinds(NoFault, chain(1), true);
    EarlyKinds(NoFault, chain(1));
    NoSummaryFault(chain(1).rewards);
    cm := FailedWriteSticks(chain, maxSupply, genesisSupply);
    cm.RetriesFail(retries);
    before := cm.blockNumber;
    cm.Restart();
    var ok := cm.ProcessNext(NoFault);
  }

  lemma NoSummaryFault(r: Rewards)
    ensures !SummaryFault(NoFault, r)
  {
  }

  datatype Event = Attempt(fault: Fault) | Restarts

  /** How many blocks the database describes and whether the manager is stuck. */
  datatype Progress = Progress(n: nat, stuck: bool)

  /**
   An attempt succeeds unless the manager is stuck or a fault strikes; a late fault leaves it stuck.
   A restart gets it going again.
   */
  ghost function Advanced(chain: Chain, extended: bool, p: Progress, e: Event): Progress {
    match e
    case Restarts => Progress(p.n, false)
    case Attempt(fault) =>
      var b := chain(p.n + 1);
      if p.stuck || Early(fault, b, extended) then p
      else if Late(fault, b.rewards, extended) then Progress(p.n, extended)
      else Progress(p.n + 1, false)
  }

  ghost function ProgressAfter(chain: Chain, extended: bool, p: Progress, events: seq<Event>): Progress {
    if events == [] then p
    else Advanced(chain, extended, ProgressAfter(chain, extended, p, events[..|events| - 1]), events[|events| - 1])
  }

  /** The described prefix never shrinks, and after a restart it grows by one block with every attempt while no fault strikes. */
  lemma {:induction false} ProgressMade(chain: Chain, extended: bool, p: Progress, events: seq<Event>)
    ensures p.n <= ProgressAfter(chain, extended, p, events).n <= p.n + |events|
    ensures !p.stuck && (forall i :: 0 <= i < |events| ==> events[i] == Attempt(NoFault)) ==>
              ProgressAfter(chain, extended, p, events) == Progress(p.n + |events|, false)
  {
    hide Advanced;
    if events != [] {
      var front, e := events[..|events| - 1], events[|events| - 1];
      ProgressMade(chain, extended, p, front);
      AdvancedByOne(chain, extended, ProgressAfter(chain, extended, p, front), e);
    }
  }

  lemma AdvancedByOne(chain: Chain, extended: bool, p: Progress, e: Event)
    ensures p.n <= Advanced(chain, extended, p, e).n <= p.n + 1
    ensures !p.stuck && e == Attempt(NoFault) ==> Advanced(chain, extended, p, e) == Progress(p.n + 1, false)
  {
  }

  /** Taking in the next block turns the sums over `n - 1` blocks into the sums over `n`. */
  lemma TotalsStep(chain: Chain, n: nat, maxSupply: int, genesisSupply: int)
    requires n > 0
    ensures Including(Totals(chain, n - 1, maxSupply, genesisSupply), chain(n), n, genesisSupply) == Totals(chain, n, maxSupply, genesisSupply)
  {
  }

  lemma TotalsBlock(chain: Chain, n: nat, maxSupply: int, genesisSupply: int)
    ensures Totals(chain, n, maxSupply, genesisSupply).block == n
  {
  }

  lemma NoAccounts(live: map<Address, seq<Entry>>, b: Block, n: nat)
    requires b.Ok() && ListsOf(live, b, n, |b.txs|)
    ensures live == map[] <==> b.txs == []
  {
    if b.txs != [] {
      var last := b.txs[|b.txs| - 1];
      assert EntriesOf(b, n, last.from, |b.txs|) != [];
    } else {
      assert forall a: Address :: EntriesOf(b, n, a, 0) == [];
    }
  }
}
