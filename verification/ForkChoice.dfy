/**
 Which stored block becomes the head (core/blockchain.go, writeBlockWithState): blocks arrive in
 any order, total difficulties are recorded, and a heavier block moves the head.
 */
module ForkChoice {
  import opened Common
  import opened ChainTree
  import opened BlockIndex

  datatype WriteStatus = NonStat | Canon | Side

  /** Blocks that can ever arrive: hashes determine blocks, and no chain repeats a transaction. */
  ghost predicate Universe(u: Store, g: Hash) {
    && Keyed(u)
    && (forall h :: h in u && Rooted(u, g, h) ==> OncePerChain(u, Chain(u, g, h)))
  }

  lemma {:induction false} StoredChain(s: Store, g: Hash, u: Store, h: Hash)
    requires Universe(u, g) && Extends(s, u) && Rooted(s, g, h)
    ensures OncePerChain(s, Chain(s, g, h))
  {
    ChainGrows(s, u, g, h);
    var c := Chain(s, g, h);
    forall t, n: nat, m: nat | HasTx(s, c, t, n) && HasTx(s, c, t, m) ensures n == m {
      assert HasTx(u, c, t, n) && HasTx(u, c, t, m);
    }
  }

  /** Storing another block does not disturb the indexes. */
  lemma IndexesSurvive(s: Store, s': Store, g: Hash, h: Hash, lookup: map<TxHash, nat>)
    requires Extends(s, s') && Rooted(s, g, h) && LookupOf(lookup, s, Chain(s, g, h))
    ensures Rooted(s', g, h) && Chain(s', g, h) == Chain(s, g, h) && LookupOf(lookup, s', Chain(s', g, h))
  {
    ChainGrows(s, s', g, h);
    var c := Chain(s, g, h);
    forall i | 0 <= i < |c| ensures c[i] in s { ChainAt(s, g, h, i); }
    forall t | t in lookup ensures HasTx(s', c, t, lookup[t]) { assert HasTx(s, c, t, lookup[t]); }
    forall t, n: nat | HasTx(s', c, t, n) ensures t in lookup && lookup[t] == n { assert HasTx(s, c, t, n); }
  }

  /** The fork choice: more total difficulty wins; on a tie the lower block, then the caller's preference or a coin. */
  predicate Prefers(externTd: nat, localTd: nat, b: Block, current: Block, keepCurrent: bool, keepBlock: bool, coin: bool) {
    || externTd > localTd
    || (externTd == localTd &&
        (b.number < current.number || (b.number == current.number && !keepCurrent && (keepBlock || coin))))
  }

  /** What stays true of the stored chain while blocks arrive. */
  ghost predicate Stored(bc: BlockChain, u: Store)
    reads bc`blocks, bc`td
  {
    Weighed(bc.blocks, bc.genesis, bc.td) && Extends(bc.blocks, u)
  }

  /** The total difficulty a block should have: that of its stored parent and its own. */
  ghost predicate DueTd(s: Store, td: map<Hash, nat>, b: Block, externTd: nat) {
    GetBlock(s, b.parent, b.number - 1).Some? && b.parent in td && externTd == td[b.parent] + b.difficulty
  }

  /**
   Stores a block and the given total difficulty only. The stored chain stays complete and weighed
   exactly when the parent is stored and the difficulty is the sum along the chain.
   */
  method WriteBlockWithoutState(bc: BlockChain, b: Block, externTd: nat, ghost u: Store)
    requires Universe(u, bc.genesis) && b.hash in u && u[b.hash] == b && Stored(bc, u) && bc.Indexed()
    modifies bc`blocks, bc`td
    ensures bc.blocks == old(bc.blocks)[b.hash := b] && bc.td == old(bc.td)[b.hash := externTd]
    ensures bc.Indexed()
    ensures DueTd(old(bc.blocks), old(bc.td), b, externTd) ==> Stored(bc, u)
    ensures b.number > 0 && Stored(bc, u) ==> DueTd(old(bc.blocks), old(bc.td), b, externTd)
  {
    hide Rooted, Chain, PathSum, LookupOf, IndexOf, OncePerChain, Keyed, Weighed;
    ghost var s, t := bc.blocks, bc.td;
    if DueTd(s, t, b, externTd) {
      BlockWeighed(s, bc.genesis, t, b);
    }
    bc.td := bc.td[b.hash := externTd];
    bc.blocks := bc.blocks[b.hash := b];
    if b.number > 0 && Stored(bc, u) {
      OnlyDue(s, t, bc.genesis, b, externTd);
    }
    KeyedStill(s, b);
    IndexesSurvive(s, bc.blocks, bc.genesis, bc.current.hash, bc.lookup);
    RootedStored(s, bc.genesis, bc.current.hash);
  }

  lemma KeyedStill(s: Store, b: Block)
    requires Keyed(s)
    ensures Keyed(s[b.hash := b])
  {
  }

  lemma OnlyDue(s: Store, td: map<Hash, nat>, g: Hash, b: Block, externTd: nat)
    requires Weighed(s, g, td) && Weighed(s[b.hash := b], g, td[b.hash := externTd]) && Addressed(s, b) && b.number > 0
    ensures DueTd(s, td, b, externTd)
  {
    var s' := s[b.hash := b];
    assert Rooted(s', g, b.hash);
    PathSumGrows(s, s', g, b.parent);
  }

  /** The store with a series of blocks added. */
  ghost function WithBlocks(s: Store, bs: seq<Block>): Store {
    if bs == [] then s else WithBlocks(s, bs[..|bs| - 1])[bs[|bs| - 1].hash := bs[|bs| - 1]]
  }

  /**
   Stores a side chain whose state is not available, adding up its total difficulty block by block;
   blocks of it that are canonical already are only passed. The sum is the recorded total difficulty of its last block.
   */
  method InsertSideChain(bc: BlockChain, chain: seq<Block>, ghost u: Store) returns (externTd: Option<nat>)
    requires Universe(u, bc.genesis) && Stored(bc, u) && bc.Indexed() && Linked(chain)
    requires forall i :: 0 <= i < |chain| ==> chain[i].hash in u && u[chain[i].hash] == chain[i]
    requires chain != [] ==> GetBlock(bc.blocks, chain[0].parent, chain[0].number - 1).Some?
    modifies bc`blocks, bc`td
    ensures Stored(bc, u) && bc.Indexed() && bc.blocks == WithBlocks(old(bc.blocks), chain)
    ensures if chain == [] then externTd == None else chain[|chain| - 1].hash in bc.td && externTd == Some(bc.td[chain[|chain| - 1].hash])
  {
    hide Rooted, Chain, PathSum, LookupOf, IndexOf, OncePerChain, Keyed, Weighed, Universe, Extends, BlockChain.Indexed;
    externTd := None;
    for i := 0 to |chain|
      invariant Stored(bc, u) && bc.Indexed() && bc.blocks == WithBlocks(old(bc.blocks), chain[..i])
      invariant if i == 0 then externTd == None && bc.blocks == old(bc.blocks)
                else var last := chain[i - 1];
                     last.hash in bc.td && externTd == Some(bc.td[last.hash]) && GetBlock(bc.blocks, last.hash, last.number) == Some(last)
    {
      var b := chain[i];
      assert chain[..i + 1][..i] == chain[..i];
      ghost var s, t := bc.blocks, bc.td;
      ParentTd(s, bc.genesis, t, b);
      assert GetBlock(bc.blocks, b.parent, b.number - 1).Some?;
      CanonicalStored(bc, u, b);
      if b.number <= bc.current.number && b.number in bc.canon && bc.canon[b.number] == b.hash {
        externTd := Some(bc.td[b.hash]);
      } else {
        externTd := Some((if externTd.None? then bc.td[b.parent] else externTd.value) + b.difficulty);
        if b.hash !in bc.blocks {
          WriteBlockWithoutState(bc, b, externTd.value, u);
        }
      }
    }
    assert chain[..|chain|] == chain;
  }

  lemma ParentTd(s: Store, g: Hash, td: map<Hash, nat>, b: Block)
    requires Weighed(s, g, td)
    ensures td.Keys == s.Keys
    ensures Addressed(s, b) && b.hash in s && GetBlock(s, b.parent, b.number - 1).Some? ==> td[b.hash] == td[b.parent] + b.difficulty
  {
    if b.hash in s && b.parent in s { assert Rooted(s, g, b.hash); }
  }

  /** What the number index names is stored. */
  lemma CanonicalStored(bc: BlockChain, u: Store, b: Block)
    requires Stored(bc, u) && bc.Indexed() && b.hash in u && u[b.hash] == b
    ensures b.hash in bc.blocks ==> bc.blocks[b.hash] == b
    ensures b.number in bc.canon && bc.canon[b.number] == b.hash ==> b.hash in bc.blocks
  {
    if b.number in bc.canon && bc.canon[b.number] == b.hash {
      ChainAt(bc.blocks, bc.genesis, bc.current.hash, b.number);
    }
  }

  /**
   Stores a block with its state and decides whether it becomes the head. The head never gets
   lighter, and the indexes describe its ancestry unless a branch of one block is adopted that
   ends below the old head.
   */
  method WriteBlockWithState(bc: BlockChain, b: Block, keepCurrent: bool, keepBlock: bool, coin: bool, ghost u: Store)
    returns (status: WriteStatus)
    requires Universe(u, bc.genesis) && b.hash in u && u[b.hash] == b && Stored(bc, u) && bc.Indexed()
    modifies bc
    ensures Stored(bc, u) && old(bc.current).hash in bc.td && bc.current.hash in bc.td
    ensures status.NonStat? <==> GetBlock(old(bc.blocks), b.parent, b.number - 1).None?
    ensures status.NonStat? ==> bc.blocks == old(bc.blocks) && bc.td == old(bc.td) && bc.current == old(bc.current) && bc.Indexed()
    ensures !status.NonStat? ==>
              && bc.blocks == old(bc.blocks)[b.hash := b] && DueTd(old(bc.blocks), old(bc.td), b, bc.td[b.hash])
              && bc.td == old(bc.td)[b.hash := bc.td[b.hash]]
              && bc.td[b.hash] <= bc.td[bc.current.hash] && bc.td[old(bc.current).hash] <= bc.td[bc.current.hash]
              && (status.Canon? <==> Prefers(bc.td[b.hash], bc.td[old(bc.current).hash], b, old(bc.current), keepCurrent, keepBlock, coin))
    ensures status.Side? ==> bc.current == old(bc.current) && bc.Indexed()
    ensures status.Canon? ==>
              && bc.current == b && Rooted(bc.blocks, bc.genesis, b.hash) && Rooted(bc.blocks, bc.genesis, old(bc.current).hash)
              && (var o, n := Chain(bc.blocks, bc.genesis, old(bc.current).hash), Chain(bc.blocks, bc.genesis, b.hash);
                  && LookupOf(bc.lookup, bc.blocks, n) && Adopted(o, n, bc.canon)
                  && (bc.Indexed() <==> |n| - Fork(o, n) >= 2 || |n| >= |o|))
  {
    hide Rooted, Chain, PathSum, LookupOf, IndexOf, OncePerChain, Keyed, Fork, Universe;
    var oldHead := bc.current;
    RootedStored(bc.blocks, bc.genesis, oldHead.hash);
    if GetBlock(bc.blocks, b.parent, b.number - 1).None? {
      return NonStat;
    }
    var externTd, localTd := bc.td[b.parent] + b.difficulty, bc.td[oldHead.hash];
    ParentTd(bc.blocks, bc.genesis, bc.td, b);
    WriteBlockWithoutState(bc, b, externTd, u);
    if Prefers(externTd, localTd, b, oldHead, keepCurrent, keepBlock, coin) {
      status := Canon;
      StoredChain(bc.blocks, bc.genesis, u, oldHead.hash);
      StoredChain(bc.blocks, bc.genesis, u, b.hash);
      ChildNumber(bc.blocks, bc.genesis, b);
      var ok := bc.WriteKnownBlock(b);
    } else {
      status := Side;
    }
  }

  lemma ChildNumber(s: Store, g: Hash, b: Block)
    requires b.hash in s && s[b.hash] == b && Rooted(s, g, b.hash) && b.number > 0
    ensures b.parent in s && s[b.parent].number + 1 == b.number
  {
  }

  datatype Arrival =
    | WithState(block: Block, keepCurrent: bool, keepBlock: bool, coin: bool)
    | SideChain(chain: seq<Block>)
  {
    function Blocks(): seq<Block> {
      if WithState? then [block] else chain
    }
  }

  /** An arrival is accepted when the parent of its first block is stored. */
  ghost predicate Accepts(s: Store, a: Arrival) {
    a.Blocks() != [] && GetBlock(s, a.Blocks()[0].parent, a.Blocks()[0].number - 1).Some?
  }

  ghost function AfterArrival(s: Store, a: Arrival): Store {
    if Accepts(s, a) then WithBlocks(s, a.Blocks()) else s
  }

  /** The stored blocks after a series of arrivals. */
  ghost function StoredAfter(s: Store, arrivals: seq<Arrival>): Store {
    if arrivals == [] then s else AfterArrival(StoredAfter(s, arrivals[..|arrivals| - 1]), arrivals[|arrivals| - 1])
  }

  ghost predicate Known(u: Store, a: Arrival) {
    Linked(a.Blocks()) && forall i :: 0 <= i < |a.Blocks()| ==> a.Blocks()[i].hash in u && u[a.Blocks()[i].hash] == a.Blocks()[i]
  }

  /** The head after a run: the old one or an executed block that was accepted. */
  ghost predicate HeadFrom(s: Store, arrivals: seq<Arrival>, head: Block, now: Block) {
    now == head ||
    exists i :: 0 <= i < |arrivals| && arrivals[i].WithState? && arrivals[i].block == now && Accepts(StoredAfter(s, arrivals[..i]), arrivals[i])
  }

  /** `accepted` says of every arrival whether it was accepted. */
  ghost predicate Verdicts(s: Store, arrivals: seq<Arrival>, accepted: seq<bool>) {
    && |accepted| == |arrivals|
    && forall i :: 0 <= i < |arrivals| ==> (accepted[i] <==> Accepts(StoredAfter(s, arrivals[..i]), arrivals[i]))
  }

  /** No executed block that was accepted is higher than `number`. */
  ghost predicate NoneHigher(arrivals: seq<Arrival>, accepted: seq<bool>, number: nat) {
    forall i :: 0 <= i < |arrivals| && i < |accepted| && accepted[i] && arrivals[i].WithState? ==> arrivals[i].block.number <= number
  }

  /**
   Under the consensus rule the indexes are right after every block, in whatever order the blocks
   of whatever branches arrive. Exactly the blocks with a stored parent are stored, and the head is
   a highest one of the old head and the executed blocks among them.
   */
  method Run(bc: BlockChain, arrivals: seq<Arrival>, ghost u: Store) returns (accepted: seq<bool>)
    requires Universe(u, bc.genesis) && NumberRule(u) && Stored(bc, u) && bc.Indexed()
    requires forall i :: 0 <= i < |arrivals| ==> Known(u, arrivals[i])
    modifies bc
    ensures Stored(bc, u) && bc.Indexed()
    ensures bc.blocks == StoredAfter(old(bc.blocks), arrivals) && Verdicts(old(bc.blocks), arrivals, accepted)
    ensures HeadFrom(old(bc.blocks), arrivals, old(bc.current), bc.current)
    ensures bc.current.number >= old(bc.current).number && NoneHigher(arrivals, accepted, bc.current.number)
  {
    hide Rooted, Chain, PathSum, LookupOf, IndexOf, OncePerChain, Keyed, Fork, Universe, NumberRule, Weighed, Extends, Accepts, Known, HeadFrom,
      AfterArrival, BlockChain.Indexed, Verdicts, NoneHigher;
    accepted := [];
    HeadStart(bc.blocks, bc.current);
    for i := 0 to |arrivals|
      invariant Stored(bc, u) && bc.Indexed()
      invariant bc.blocks == StoredAfter(old(bc.blocks), arrivals[..i]) && Verdicts(old(bc.blocks), arrivals[..i], accepted)
      invariant HeadFrom(old(bc.blocks), arrivals[..i], old(bc.current), bc.current)
      invariant bc.current.number >= old(bc.current).number && NoneHigher(arrivals[..i], accepted, bc.current.number)
    {
      ghost var head := bc.current;
      assert arrivals[..i + 1][..i] == arrivals[..i];
      var ok := Arrive(bc, arrivals[i], u);
      OneMore(old(bc.blocks), arrivals, i, accepted, ok, head.number, bc.current.number);
      HeadMoves(old(bc.blocks), arrivals, i, old(bc.current), head, bc.current);
      accepted := accepted + [ok];
    }
    assert arrivals[..|arrivals|] == arrivals;
  }

  lemma HeadStart(s: Store, head: Block)
    ensures HeadFrom(s, [], head, head) && Verdicts(s, [], []) && NoneHigher([], [], head.number)
  {
  }

  lemma OneMore(s: Store, arrivals: seq<Arrival>, i: nat, accepted: seq<bool>, ok: bool, before: nat, now: nat)
    requires i < |arrivals| && Verdicts(s, arrivals[..i], accepted) && NoneHigher(arrivals[..i], accepted, before) && before <= now
    requires ok <==> Accepts(StoredAfter(s, arrivals[..i]), arrivals[i])
    requires ok && arrivals[i].WithState? ==> arrivals[i].block.number <= now
    ensures Verdicts(s, arrivals[..i + 1], accepted + [ok]) && NoneHigher(arrivals[..i + 1], accepted + [ok], now)
  {
    hide Accepts, StoredAfter;
    var more := arrivals[..i + 1];
    forall j | 0 <= j < i + 1 ensures (accepted + [ok])[j] <==> Accepts(StoredAfter(s, more[..j]), more[j]) {
      assert more[..j] == arrivals[..j] == arrivals[..i][..j];
      if j < i { assert more[j] == arrivals[..i][j]; } else { assert more[j] == arrivals[i]; }
    }
    forall j | 0 <= j < i + 1 && (accepted + [ok])[j] && more[j].WithState? ensures more[j].block.number <= now {
      if j < i { assert more[j] == arrivals[..i][j]; }
    }
  }

  lemma HeadMoves(s: Store, arrivals: seq<Arrival>, i: nat, head: Block, before: Block, now: Block)
    requires i < |arrivals| && HeadFrom(s, arrivals[..i], head, before)
    requires now == before || (arrivals[i].WithState? && now == arrivals[i].block && Accepts(StoredAfter(s, arrivals[..i]), arrivals[i]))
    ensures HeadFrom(s, arrivals[..i + 1], head, now)
  {
    hide Accepts;
    var more := arrivals[..i + 1];
    if now != before {
      assert more[i] == arrivals[i] && more[..i] == arrivals[..i];
    } else if now != head {
      var j :| 0 <= j < i && arrivals[..i][j].WithState? && arrivals[..i][j].block == now && Accepts(StoredAfter(s, arrivals[..i][..j]), arrivals[..i][j]);
      assert more[j] == arrivals[..i][j] && more[..j] == arrivals[..i][..j];
    }
  }

  method Arrive(bc: BlockChain, a: Arrival, ghost u: Store) returns (ok: bool)
    requires Universe(u, bc.genesis) && NumberRule(u) && Stored(bc, u) && bc.Indexed() && Known(u, a)
    modifies bc
    ensures Stored(bc, u) && bc.Indexed()
    ensures ok <==> Accepts(old(bc.blocks), a)
    ensures bc.blocks == AfterArrival(old(bc.blocks), a)
    ensures bc.current.number >= old(bc.current).number
    ensures bc.current == old(bc.current) || (a.WithState? && bc.current == a.block && ok)
    ensures ok && a.WithState? ==> a.block.number <= bc.current.number
  {
    hide Rooted, Chain, PathSum, LookupOf, IndexOf, OncePerChain, Keyed, Fork, Universe, NumberRule;
    if a.SideChain? {
      ok := a.chain != [] && GetBlock(bc.blocks, a.chain[0].parent, a.chain[0].number - 1).Some?;
      if ok {
        var externTd := InsertSideChain(bc, a.chain, u);
      }
    } else {
      assert a.Blocks()[0] == a.block && WithBlocks(bc.blocks, [a.block]) == bc.blocks[a.block.hash := a.block];
      var oldHead := bc.current;
      RootedStored(bc.blocks, bc.genesis, oldHead.hash);
      var status := WriteBlockWithState(bc, a.block, a.keepCurrent, a.keepBlock, a.coin, u);
      ok := !status.NonStat?;
      if ok {
        NumbersDecide(bc.blocks, bc.genesis, bc.td, u, a.block.hash, bc.current.hash);
        NumbersDecide(bc.blocks, bc.genesis, bc.td, u, oldHead.hash, bc.current.hash);
      }
    }
  }

  lemma NumbersDecide(s: Store, g: Hash, td: map<Hash, nat>, u: Store, a: Hash, b: Hash)
    requires NumberRule(u) && Weighed(s, g, td) && Extends(s, u) && a in s && b in s
    ensures td[a] <= td[b] <==> s[a].number <= s[b].number
  {
    HeavierIsHigher(s, g, a, b);
  }

  /**
   Without the consensus rule: two light blocks, then one heavy block beside the lower of them. The
   head moves down by one block, and the higher of the two stays in the number index.
   */
  method LowerHeadLeavesEntry() returns (bc: BlockChain)
    ensures bc.current.number == 1 && 2 in bc.canon && !bc.Indexed()
  {
    hide Rooted, Chain, PathSum, LookupOf, IndexOf, OncePerChain, Keyed, Fork, Universe, Weighed, BlockChain.Indexed, Adopted;
    var g, a, b, c := Block(0, 9, 0, 1, []), Block(1, 0, 1, 1, []), Block(2, 1, 2, 1, []), Block(3, 0, 1, 5, []);
    bc := new BlockChain(g);
    ghost var u: Store := map[0 := g, 1 := a, 2 := b, 3 := c];
    NoTransactions(u, g);
    var s1 := WriteBlockWithState(bc, a, false, false, false, u);
    var s2 := WriteBlockWithState(bc, b, false, false, false, u);
    var s3 := WriteBlockWithState(bc, c, false, false, false, u);
    OneOverTwo(bc.blocks, 0, 2, 3, bc.canon);
  }

  lemma NoTransactions(u: Store, g: Block)
    requires Keyed(u) && g.number == 0 && forall h :: h in u ==> u[h].txs == []
    ensures Universe(u, g.hash) && Weighed(map[g.hash := g], g.hash, map[g.hash := g.difficulty])
  {
    forall h, t, n: nat | h in u && Rooted(u, g.hash, h) ensures !HasTx(u, Chain(u, g.hash, h), t, n) {
    }
  }

  lemma OneOverTwo(s: Store, g: Hash, h: Hash, h': Hash, canon: map<nat, Hash>)
    requires Rooted(s, g, h) && Rooted(s, g, h') && s[h].number == 2 && s[h'].number == 1
    requires Adopted(Chain(s, g, h), Chain(s, g, h'), canon)
    ensures var o, n := Chain(s, g, h), Chain(s, g, h');
            |n| - Fork(o, n) < 2 && |n| < |o| && 2 in canon
  {
    ChainAt(s, g, h, 0);
    ChainAt(s, g, h', 0);
    ForkSplits(s, g, h, h', 0);
  }
}
