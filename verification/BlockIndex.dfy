/**
 Moving the head block between branches (core/blockchain.go): `Reorg` walks back from the old
 and the new head to their common ancestor, rewrites the number and transaction indexes and
 `WriteHeadBlock` adopts the new head.
 */
module BlockIndex {
  import opened Common
  import opened ChainTree

  ghost predicate StoredAs(s: Store, h: Hash, b: Block) {
    h in s && s[h] == b
  }

  /** `trail` holds the blocks of chain `c` above position `at`, highest first. */
  ghost predicate TrailOf(s: Store, c: seq<Hash>, trail: seq<Block>, at: nat) {
    && at + |trail| + 1 == |c|
    && forall i :: 0 <= i < |trail| ==> StoredAs(s, c[|c| - 1 - i], trail[i])
  }

  ghost predicate TxsOf(s: Store, c: seq<Hash>, from: nat, to: nat, txs: seq<TxHash>) {
    forall t :: t in txs <==> exists n: nat :: from <= n < to && HasTx(s, c, t, n)
  }

  lemma TxsOfMore(s: Store, c: seq<Hash>, from: nat, to: nat, txs: seq<TxHash>)
    requires 0 < from <= to && from <= |c| && c[from - 1] in s && TxsOf(s, c, from, to, txs)
    ensures TxsOf(s, c, from - 1, to, txs + s[c[from - 1]].txs)
  {
    var b := s[c[from - 1]];
    forall t ensures t in txs + b.txs <==> exists n: nat :: from - 1 <= n < to && HasTx(s, c, t, n) {
      if t in b.txs { assert HasTx(s, c, t, from - 1); }
      if t in txs {
        var n :| from <= n < to && HasTx(s, c, t, n);
      }
      if n :| from - 1 <= n < to && HasTx(s, c, t, n) {
        if n >= from { assert t in txs; } else { assert t in b.txs; }
      }
    }
  }

  /** The transaction index entries of one block. */
  function TxEntries(b: Block): map<TxHash, nat> {
    map t | t in b.txs :: b.number
  }

  lemma GenesisIndexed(b: Block)
    requires b.number == 0
    ensures var s := map[b.hash := b];
            && Rooted(s, b.hash, b.hash) && Chain(s, b.hash, b.hash) == [b.hash]
            && LookupOf(TxEntries(b), s, [b.hash])
  {
  }

  class BlockChain {
    const genesis: Hash
    var blocks: Store
    var td: map<Hash, nat>
    var canon: map<nat, Hash>
    var lookup: map<TxHash, nat>
    var current: Block
    var header: Block

    /** The indexes describe exactly the chain of the head block. */
    ghost predicate Indexed()
      reads this`blocks, this`canon, this`lookup, this`current, this`header
    {
      && Keyed(blocks) && Rooted(blocks, genesis, current.hash) && blocks[current.hash] == current && header == current
      && IndexOf(canon, Chain(blocks, genesis, current.hash))
      && LookupOf(lookup, blocks, Chain(blocks, genesis, current.hash))
    }

    constructor (b: Block)
      requires b.number == 0
      ensures Indexed() && blocks == map[b.hash := b] && genesis == b.hash && current == b && td == map[b.hash := b.difficulty]
    {
      genesis, blocks, td := b.hash, map[b.hash := b], map[b.hash := b.difficulty];
      canon, lookup := map[0 := b.hash], TxEntries(b);
      current, header := b, b;
      new;
      GenesisIndexed(b);
      assert Chain(blocks, genesis, b.hash) == [b.hash];
      assert LookupOf(lookup, blocks, Chain(blocks, genesis, b.hash));
    }

    /** Enters one block into the indexes and makes it the head. */
    method WriteHeadBlock(b: Block)
      modifies this`canon, this`lookup, this`current, this`header
      ensures canon == old(canon)[b.number := b.hash] && current == b
      ensures lookup == old(lookup) + TxEntries(b)
      ensures header == if b.number in old(canon) && old(canon)[b.number] == b.hash then old(header) else b
    {
      var updateHeads := !(b.number in canon && canon[b.number] == b.hash);
      canon := canon[b.number := b.hash];
      lookup := lookup + TxEntries(b);
      if updateHeads {
        header := b;
      }
      current := b;
    }

    /**
     Walks back from both heads to their common ancestor, collecting the blocks left behind
     on each branch, highest first. Fails when an ancestor is not stored.
     */
    method FindFork(oldHead: Block, newHead: Block) returns (ok: bool, oldChain: seq<Block>, newChain: seq<Block>, deleted: seq<TxHash>)
      requires Keyed(blocks) && Rooted(blocks, genesis, oldHead.hash) && blocks[oldHead.hash] == oldHead
      requires newHead.hash in blocks && blocks[newHead.hash] == newHead
      ensures ok <==> Rooted(blocks, genesis, newHead.hash)
      ensures ok ==>
                var o, n := Chain(blocks, genesis, oldHead.hash), Chain(blocks, genesis, newHead.hash);
                var k := Fork(o, n);
                k > 0 && TrailOf(blocks, o, oldChain, k - 1) && TrailOf(blocks, n, newChain, k - 1) && TxsOf(blocks, o, k, |o|, deleted)
    {
      hide Rooted, Chain, TrailOf, TxsOf, DifferAbove, Keyed, MaybeOnTrail, OnTrail, GetBlock;
      var a, b := oldHead, newHead;
      oldChain, newChain, deleted := [], [], [];
      ghost var o := Chain(blocks, genesis, oldHead.hash);
      ok := true;
      WalkStart(blocks, genesis, oldHead, newHead);
      if a.number > b.number {
        while a.number != b.number
          invariant OnTrail(blocks, genesis, oldHead.hash, a, oldChain) && b.number <= a.number
          invariant TxsOf(blocks, o, a.number + 1, |o|, deleted)
          decreases a.number
        {
          WalkOld(blocks, genesis, oldHead.hash, a, oldChain, deleted);
          var next := GetBlock(blocks, a.parent, a.number - 1);
          oldChain, deleted := oldChain + [a], deleted + a.txs;
          a := next.value;
        }
      } else {
        while b.number != a.number
          invariant MaybeOnTrail(blocks, genesis, newHead.hash, b, newChain) && a.number <= b.number
          decreases b.number
        {
          WalkNew(blocks, genesis, newHead.hash, b, newChain);
          var next := GetBlock(blocks, b.parent, b.number - 1);
          if next.None? {
            return false, oldChain, newChain, deleted;
          }
          newChain := newChain + [b];
          b := next.value;
        }
      }
      ShorterReached(blocks, genesis, oldHead, newHead, a.number);
      while a.hash != b.hash
        invariant OnTrail(blocks, genesis, oldHead.hash, a, oldChain) && MaybeOnTrail(blocks, genesis, newHead.hash, b, newChain)
        invariant TxsOf(blocks, o, a.number + 1, |o|, deleted) && a.number == b.number
        invariant Rooted(blocks, genesis, newHead.hash) ==> DifferAbove(o, Chain(blocks, genesis, newHead.hash), a.number)
        decreases a.number
      {
        GenesisShared(blocks, genesis, oldHead.hash, newHead.hash, a, b, oldChain, newChain);
        WalkOld(blocks, genesis, oldHead.hash, a, oldChain, deleted);
        WalkNew(blocks, genesis, newHead.hash, b, newChain);
        var nextOld := GetBlock(blocks, a.parent, a.number - 1);
        var nextNew := GetBlock(blocks, b.parent, b.number - 1);
        oldChain, deleted := oldChain + [a], deleted + a.txs;
        newChain := newChain + [b];
        if nextOld.None? || nextNew.None? {
          return false, oldChain, newChain, deleted;
        }
        a, b := nextOld.value, nextNew.value;
      }
      ForkFound(blocks, genesis, oldHead.hash, newHead.hash, a, b, oldChain, newChain);
    }

    /** Enters the adopted branch except its head block, lowest first. */
    method WriteBranch(newChain: seq<Block>, ghost o: seq<Hash>, ghost n: seq<Hash>, ghost k: nat) returns (added: seq<TxHash>)
      requires 0 < k <= |n| && TrailOf(blocks, n, newChain, k - 1) && header == current
      requires Numbered(blocks, n) && OncePerChain(blocks, n) && IndexOf(canon, o) && ApartFrom(o, n, k)
      modifies this`canon, this`lookup, this`current, this`header
      ensures var p := if |n| - k >= 2 then |n| - 1 else k;
              && CanonAfter(o, n, k, p, canon) && LookupAfter(old(lookup), blocks, n, k, p, lookup) && TxsOf(blocks, n, k, p, added)
              && header == current && (if p > k then StoredAs(blocks, n[p - 1], current) else current == old(current))
    {
      hide HasTx, OncePerChain, IndexOf, CanonAfter, LookupAfter, TxsOf, TrailOf, Numbered, ApartFrom;
      added := [];
      ghost var p := k;
      BranchStart(old(lookup), blocks, o, n, k, canon);
      var i := |newChain| - 1;
      TrailLength(blocks, n, newChain, k);
      while i >= 1
        invariant |newChain| == |n| - k && k <= p && (i >= 1 ==> p == |n| - 1 - i)
        invariant i < 1 ==> p == if |n| - k >= 2 then |n| - 1 else k
        invariant CanonAfter(o, n, k, p, canon) && LookupAfter(old(lookup), blocks, n, k, p, lookup) && TxsOf(blocks, n, k, p, added)
        invariant header == current && (if p > k then p <= |n| && StoredAs(blocks, n[p - 1], current) else current == old(current))
        decreases i
      {
        BranchStep(old(lookup), blocks, o, n, k, p, canon, lookup, added, newChain, i);
        WriteHeadBlock(newChain[i]);
        added := added + newChain[i].txs;
        p := p + 1;
        i := i - 1;
      }
    }

    /** Deletes the number entries above the current block. */
    method DeleteAbove(number: nat, ghost len: nat)
      requires forall n: nat :: n in canon <==> n < len
      modifies this`canon
      ensures forall n: nat :: n in canon <==> n < len && n <= number
      ensures forall n: nat :: n in canon ==> canon[n] == old(canon)[n]
    {
      var doomed := EntriesAbove(canon, number, len);
      canon := canon - doomed;
    }

    /**
     Moves the indexes from the chain of `oldHead`, the current head, towards that of
     `newHead`; the new head block itself is entered by the caller. When an ancestor of the
     new head is missing nothing is written.
     */
    method Reorg(oldHead: Block, newHead: Block) returns (ok: bool)
      requires Indexed() && oldHead == current && newHead.hash in blocks && blocks[newHead.hash] == newHead
      requires Rooted(blocks, genesis, newHead.hash) ==> OncePerChain(blocks, Chain(blocks, genesis, newHead.hash))
      requires OncePerChain(blocks, Chain(blocks, genesis, oldHead.hash))
      modifies this`canon, this`lookup, this`current, this`header
      ensures ok <==> Rooted(blocks, genesis, newHead.hash)
      ensures !ok ==> canon == old(canon) && lookup == old(lookup) && current == old(current) && header == old(header)
      ensures ok ==>
                var o, n := Chain(blocks, genesis, oldHead.hash), Chain(blocks, genesis, newHead.hash);
                && Moved(blocks, o, n, canon, lookup) && header == current
                && (if |n| - Fork(o, n) >= 2 then StoredAs(blocks, n[|n| - 2], current) else current == oldHead)
    {
      hide HasTx, OncePerChain, IndexOf, CanonAfter, LookupAfter, LookupOf, TxsOf, TrailOf, Numbered, ApartFrom, Moved, Rooted, Chain, Fork;
      var oldChain, newChain, deleted;
      ok, oldChain, newChain, deleted := FindFork(oldHead, newHead);
      if !ok {
        return;
      }
      ghost var o, n := Chain(blocks, genesis, oldHead.hash), Chain(blocks, genesis, newHead.hash);
      ghost var k := Fork(o, n);
      BranchesApart(blocks, genesis, oldHead.hash, newHead.hash);
      var added := WriteBranch(newChain, o, n, k);
      var useless := set t | t in deleted && t !in added;
      lookup := lookup - useless;
      ghost var p := if |n| - k >= 2 then |n| - 1 else k;
      ghost var len := if |o| < p then p else |o|;
      CanonLength(o, n, k, p, canon, len);
      CurrentNumber(blocks, genesis, oldHead, newHead, current, k);
      ghost var mid := canon;
      DeleteAbove(current.number, len);
      MovedThere(blocks, o, n, old(lookup), mid, canon, lookup, deleted, added, useless);
    }

    /**
     Makes a stored block the head, reorganising when it does not extend the current head.
     The number index is the ancestry of the new head exactly when the adopted branch has two
     or more blocks or the new head is not lower than the old one.
     */
    method WriteKnownBlock(b: Block) returns (ok: bool)
      requires Indexed() && b.hash in blocks && blocks[b.hash] == b
      requires b.parent == current.hash ==> b.number == current.number + 1
      requires Rooted(blocks, genesis, b.hash) ==> OncePerChain(blocks, Chain(blocks, genesis, b.hash))
      requires OncePerChain(blocks, Chain(blocks, genesis, current.hash))
      modifies this`canon, this`lookup, this`current, this`header
      ensures ok <==> Rooted(blocks, genesis, b.hash)
      ensures !ok ==> canon == old(canon) && lookup == old(lookup) && current == old(current) && header == old(header)
      ensures ok ==>
                var o, n := Chain(blocks, genesis, old(current).hash), Chain(blocks, genesis, b.hash);
                && current == b && LookupOf(lookup, blocks, n) && Adopted(o, n, canon)
                && header == (if Fork(o, n) == |n| then old(current) else b)
                && (Indexed() <==> |n| - Fork(o, n) >= 2 || |n| >= |o|)
    {
      hide HasTx, OncePerChain, IndexOf, LookupOf, Moved, Rooted, Chain, Fork, Keyed, Adopted;
      ghost var oldHead := current;
      ok := true;
      if b.parent != current.hash {
        ok := Reorg(current, b);
      } else {
        ChildMoved(blocks, genesis, current, b, canon, lookup);
      }
      if ok {
        ghost var o, n := Chain(blocks, genesis, oldHead.hash), Chain(blocks, genesis, b.hash);
        HeadEntered(blocks, o, n, b, canon, lookup);
        HeadTxsEntered(blocks, o, n, b, canon, lookup);
        WriteHeadBlock(b);
        AdoptedIff(o, n, canon);
        HeadersAgree(blocks, genesis, oldHead, b);
        assert Indexed() <==> header == b && IndexOf(canon, n);
      }
    }
  }

  /**
   The number index once chain `n` has been adopted over chain `o`: the chain itself, and above it
   what is left of the old chain when fewer than two blocks were adopted.
   */
  ghost predicate Adopted(o: seq<Hash>, n: seq<Hash>, canon: map<nat, Hash>) {
    && (forall x: nat :: x in canon <==> x < |n| || (|n| - Fork(o, n) < 2 && x < |o|))
    && (forall x: nat :: x in canon ==> (x < |n| ==> canon[x] == n[x]) && (x >= |n| && x < |o| ==> canon[x] == o[x]))
  }

  lemma AdoptedIff(o: seq<Hash>, n: seq<Hash>, canon: map<nat, Hash>)
    requires Adopted(o, n, canon)
    ensures IndexOf(canon, n) <==> |n| - Fork(o, n) >= 2 || |n| >= |o|
  {
    if |n| < |o| && |n| - Fork(o, n) < 2 {
      assert |n| in canon;
    }
  }

  lemma ChildMoved(s: Store, g: Hash, head: Block, b: Block, canon: map<nat, Hash>, lookup: map<TxHash, nat>)
    requires Keyed(s) && Rooted(s, g, head.hash) && s[head.hash] == head && b.hash in s && s[b.hash] == b
    requires b.parent == head.hash && b.number == head.number + 1
    requires IndexOf(canon, Chain(s, g, head.hash)) && LookupOf(lookup, s, Chain(s, g, head.hash))
    ensures Rooted(s, g, b.hash) && Moved(s, Chain(s, g, head.hash), Chain(s, g, b.hash), canon, lookup)
  {
    var o, n := Chain(s, g, head.hash), Chain(s, g, b.hash);
    assert n == o + [b.hash];
    assert n[..|o|] == o[..|o|];
    ForkUnique(o, n, |o|);
    forall t, x: nat | x < |n| - 1 && HasTx(s, n, t, x) ensures t in lookup && lookup[t] == x {
      assert HasTx(s, o, t, x);
    }
    forall t | t in lookup ensures HasTx(s, n, t, lookup[t]) {
      assert HasTx(s, o, t, lookup[t]);
    }
  }

  lemma HeadEntered(s: Store, o: seq<Hash>, n: seq<Hash>, b: Block, canon: map<nat, Hash>, lookup: map<TxHash, nat>)
    requires Moved(s, o, n, canon, lookup) && |o| > 0 && |n| > 0
    requires b.hash == n[|n| - 1] && b.number == |n| - 1
    ensures Adopted(o, n, canon[b.number := b.hash])
    ensures b.number in canon && canon[b.number] == b.hash <==> Fork(o, n) == |n|
  {
    hide HasTx;
    var k := Fork(o, n);
    assert forall i :: 0 <= i < k ==> o[..k][i] == o[i] && n[..k][i] == n[i];
  }

  lemma HeadTxsEntered(s: Store, o: seq<Hash>, n: seq<Hash>, b: Block, canon: map<nat, Hash>, lookup: map<TxHash, nat>)
    requires Moved(s, o, n, canon, lookup) && |n| > 0 && OncePerChain(s, n)
    requires b.hash == n[|n| - 1] && b.number == |n| - 1 && b.hash in s && s[b.hash] == b
    ensures LookupOf(lookup + TxEntries(b), s, n)
  {
    hide Fork;
    var l := lookup + TxEntries(b);
    forall t | t in l ensures HasTx(s, n, t, l[t]) {
      assert t !in b.txs ==> HasTx(s, n, t, lookup[t]);
    }
    forall t, x: nat | HasTx(s, n, t, x) ensures t in l && l[t] == x {
      if t in b.txs { assert HasTx(s, n, t, |n| - 1); }
    }
  }

  lemma HeadersAgree(s: Store, g: Hash, oldHead: Block, b: Block)
    requires Rooted(s, g, oldHead.hash) && Rooted(s, g, b.hash) && s[oldHead.hash] == oldHead && s[b.hash] == b
    ensures var o, n := Chain(s, g, oldHead.hash), Chain(s, g, b.hash);
            Fork(o, n) == |n| && |n| >= |o| ==> oldHead == b
  {
    var o, n := Chain(s, g, oldHead.hash), Chain(s, g, b.hash);
    if Fork(o, n) == |n| && |n| == |o| {
      assert o[..|n|] == o && n[..|n|] == n;
    }
  }

  /** The index after positions `k` up to `p` of chain `n` were entered over chain `o`. */
  ghost predicate CanonAfter(o: seq<Hash>, n: seq<Hash>, k: nat, p: nat, canon: map<nat, Hash>) {
    && k <= p <= |n|
    && (forall x: nat :: x in canon <==> x < |o| || k <= x < p)
    && (forall x: nat :: x in canon ==> canon[x] == if k <= x < p then n[x] else o[x])
  }

  ghost predicate LookupAfter(before: map<TxHash, nat>, s: Store, n: seq<Hash>, k: nat, p: nat, lookup: map<TxHash, nat>) {
    && (forall t, x: nat :: k <= x < p && HasTx(s, n, t, x) ==> t in lookup && lookup[t] == x)
    && (forall t :: t in lookup ==> (t in before && lookup[t] == before[t]) || (k <= lookup[t] < p && HasTx(s, n, t, lookup[t])))
    && (forall t :: t in before ==> t in lookup)
  }

  /** Every position of the chain is stored with that number. */
  ghost predicate Numbered(s: Store, n: seq<Hash>) {
    forall i :: 0 <= i < |n| ==> n[i] in s && s[n[i]].number == i && s[n[i]].hash == n[i]
  }

  /** The chains agree below `k` and differ from there on. */
  ghost predicate ApartFrom(o: seq<Hash>, n: seq<Hash>, k: nat) {
    && k <= |o| && k <= |n|
    && (forall i :: 0 <= i < k ==> o[i] == n[i])
    && (forall i :: k <= i < |o| && i < |n| ==> o[i] != n[i])
  }

  lemma BranchStart(lookup: map<TxHash, nat>, s: Store, o: seq<Hash>, n: seq<Hash>, k: nat, canon: map<nat, Hash>)
    requires IndexOf(canon, o) && k <= |n|
    ensures CanonAfter(o, n, k, k, canon) && LookupAfter(lookup, s, n, k, k, lookup) && TxsOf(s, n, k, k, [])
  {
  }

  lemma TrailLength(s: Store, n: seq<Hash>, trail: seq<Block>, k: nat)
    requires k > 0 && TrailOf(s, n, trail, k - 1)
    ensures |trail| == |n| - k
  {
  }

  lemma BranchStep(before: map<TxHash, nat>, s: Store, o: seq<Hash>, n: seq<Hash>, k: nat, p: nat, canon: map<nat, Hash>,
                   lookup: map<TxHash, nat>, added: seq<TxHash>, trail: seq<Block>, i: nat)
    requires 0 < k <= p && TrailOf(s, n, trail, k - 1) && 1 <= i < |trail| && p == |n| - 1 - i
    requires Numbered(s, n) && OncePerChain(s, n) && ApartFrom(o, n, k)
    requires CanonAfter(o, n, k, p, canon) && LookupAfter(before, s, n, k, p, lookup) && TxsOf(s, n, k, p, added)
    ensures var b := trail[i];
            && StoredAs(s, n[p], b) && b.number == p && !(p in canon && canon[p] == b.hash)
            && CanonAfter(o, n, k, p + 1, canon[b.number := b.hash])
            && LookupAfter(before, s, n, k, p + 1, lookup + TxEntries(b))
            && TxsOf(s, n, k, p + 1, added + b.txs)
  {
    var b := trail[i];
    assert StoredAs(s, n[|n| - 1 - i], trail[i]);
    forall t ensures t in added + b.txs <==> exists x: nat :: k <= x < p + 1 && HasTx(s, n, t, x) {
      if t in b.txs { assert HasTx(s, n, t, p); }
      if x: nat :| k <= x < p + 1 && HasTx(s, n, t, x) {
        assert x < p || t in b.txs;
      }
    }
    forall t, x: nat | k <= x < p + 1 && HasTx(s, n, t, x) ensures t in lookup + TxEntries(b) && (lookup + TxEntries(b))[t] == x {
      if t in b.txs { assert HasTx(s, n, t, p); }
    }
  }

  lemma BranchesApart(s: Store, g: Hash, h: Hash, h': Hash)
    requires Keyed(s) && Rooted(s, g, h) && Rooted(s, g, h')
    ensures var o, n := Chain(s, g, h), Chain(s, g, h');
            Numbered(s, o) && Numbered(s, n) && ApartFrom(o, n, Fork(o, n))
  {
    var o, n := Chain(s, g, h), Chain(s, g, h');
    var k := Fork(o, n);
    forall i | 0 <= i < |o| ensures o[i] in s && s[o[i]].number == i { ChainAt(s, g, h, i); }
    forall i | 0 <= i < |n| ensures n[i] in s && s[n[i]].number == i { ChainAt(s, g, h', i); }
    forall i | 0 <= i < |o| && i < |n| ensures o[i] == n[i] <==> i < k { ForkSplits(s, g, h, h', i); }
  }

  lemma CanonLength(o: seq<Hash>, n: seq<Hash>, k: nat, p: nat, canon: map<nat, Hash>, len: nat)
    requires CanonAfter(o, n, k, p, canon) && k <= |o| && len == if |o| < p then p else |o|
    ensures forall x: nat :: x in canon <==> x < len
  {
  }

  lemma CurrentNumber(s: Store, g: Hash, oldHead: Block, newHead: Block, current: Block, k: nat)
    requires Rooted(s, g, oldHead.hash) && Rooted(s, g, newHead.hash) && s[oldHead.hash] == oldHead
    requires Numbered(s, Chain(s, g, newHead.hash)) && k == Fork(Chain(s, g, oldHead.hash), Chain(s, g, newHead.hash))
    requires var n := Chain(s, g, newHead.hash);
             if |n| - k >= 2 then StoredAs(s, n[|n| - 2], current) else current == oldHead
    ensures var o, n := Chain(s, g, oldHead.hash), Chain(s, g, newHead.hash);
            current.number == if |n| - k >= 2 then |n| - 2 else |o| - 1
  {
  }

  /** The state of the indexes between a reorganisation and the entry of the new head block. */
  ghost predicate Moved(s: Store, o: seq<Hash>, n: seq<Hash>, canon: map<nat, Hash>, lookup: map<TxHash, nat>) {
    var k := Fork(o, n);
    && (forall x: nat :: x in canon <==> x < if |n| - k >= 2 then |n| - 1 else |o|)
    && (forall x: nat :: x in canon ==> canon[x] == if |n| - k >= 2 then n[x] else o[x])
    && (forall t, x: nat :: x < |n| - 1 && HasTx(s, n, t, x) ==> t in lookup && lookup[t] == x)
    && (forall t :: t in lookup ==> HasTx(s, n, t, lookup[t]))
  }

  lemma MovedThere(s: Store, o: seq<Hash>, n: seq<Hash>, before: map<TxHash, nat>, mid: map<nat, Hash>, canon: map<nat, Hash>,
                   lookup: map<TxHash, nat>, deleted: seq<TxHash>, added: seq<TxHash>, useless: set<TxHash>)
    requires |o| > 0 && |n| > 0
    requires var k := Fork(o, n);
             var p := if |n| - k >= 2 then |n| - 1 else k;
             && k > 0 && ApartFrom(o, n, k) && OncePerChain(s, o) && OncePerChain(s, n) && LookupOf(before, s, o)
             && CanonAfter(o, n, k, p, mid) && TxsOf(s, o, k, |o|, deleted) && TxsOf(s, n, k, p, added)
             && (forall x: nat :: x in canon <==> x in mid && x <= if |n| - k >= 2 then |n| - 2 else |o| - 1)
             && (forall x: nat :: x in canon ==> canon[x] == mid[x])
             && useless == (set t | t in deleted && t !in added)
             && exists l :: LookupAfter(before, s, n, k, p, l) && lookup == l - useless
    ensures Moved(s, o, n, canon, lookup)
  {
    var k := Fork(o, n);
    var p := if |n| - k >= 2 then |n| - 1 else k;
    var l :| LookupAfter(before, s, n, k, p, l) && lookup == l - useless;
    forall t, x: nat | x < |n| - 1 && HasTx(s, n, t, x) ensures t in lookup && lookup[t] == x {
      KeptEntry(s, o, n, k, p, before, l, deleted, added, t, x);
    }
    forall t | t in lookup ensures HasTx(s, n, t, lookup[t]) {
      NoStaleEntry(s, o, n, k, p, before, l, deleted, added, t);
    }
  }

  lemma KeptEntry(s: Store, o: seq<Hash>, n: seq<Hash>, k: nat, p: nat, before: map<TxHash, nat>, l: map<TxHash, nat>,
                  deleted: seq<TxHash>, added: seq<TxHash>, t: TxHash, x: nat)
    requires ApartFrom(o, n, k) && OncePerChain(s, o) && OncePerChain(s, n) && LookupOf(before, s, o) && LookupAfter(before, s, n, k, p, l)
    requires TxsOf(s, o, k, |o|, deleted) && TxsOf(s, n, k, p, added)
    requires HasTx(s, n, t, x) && (x < k || x < p)
    ensures t in l && l[t] == x && !(t in deleted && t !in added)
  {
    if x < k {
      assert HasTx(s, o, t, x);
    }
  }

  lemma NoStaleEntry(s: Store, o: seq<Hash>, n: seq<Hash>, k: nat, p: nat, before: map<TxHash, nat>, l: map<TxHash, nat>,
                     deleted: seq<TxHash>, added: seq<TxHash>, t: TxHash)
    requires ApartFrom(o, n, k) && LookupOf(before, s, o) && LookupAfter(before, s, n, k, p, l)
    requires TxsOf(s, o, k, |o|, deleted) && TxsOf(s, n, k, p, added)
    requires t in l && !(t in deleted && t !in added)
    ensures HasTx(s, n, t, l[t])
  {
    if t in added {
      var x: nat :| k <= x < p && HasTx(s, n, t, x);
    } else if !(k <= l[t] < p && HasTx(s, n, t, l[t])) {
      assert HasTx(s, o, t, before[t]);
      assert before[t] >= k ==> t in deleted;
      assert HasTx(s, n, t, before[t]);
    }
  }

  /** The walk down the chain of `h` has reached `at`, having passed `trail`. */
  ghost predicate OnTrail(s: Store, g: Hash, h: Hash, at: Block, trail: seq<Block>) {
    && Rooted(s, g, h)
    && at.number + |trail| == s[h].number
    && Chain(s, g, h)[at.number] in s && at == s[Chain(s, g, h)[at.number]] && at.hash == Chain(s, g, h)[at.number]
    && TrailOf(s, Chain(s, g, h), trail, at.number)
  }

  /** As `OnTrail`, when it is not known yet whether `h` is rooted. */
  ghost predicate MaybeOnTrail(s: Store, g: Hash, h: Hash, at: Block, trail: seq<Block>) {
    && at.hash in s && s[at.hash] == at
    && (Rooted(s, g, h) <==> Rooted(s, g, at.hash))
    && (Rooted(s, g, h) ==> OnTrail(s, g, h, at, trail))
  }

  /** The chains differ at every common number above `n`. */
  ghost predicate DifferAbove(o: seq<Hash>, c: seq<Hash>, n: nat) {
    forall i :: n < i < |o| && i < |c| ==> o[i] != c[i]
  }

  lemma TrailMore(s: Store, c: seq<Hash>, trail: seq<Block>, n: nat)
    requires 0 < n < |c| && c[n] in s && TrailOf(s, c, trail, n)
    ensures TrailOf(s, c, trail + [s[c[n]]], n - 1)
  {
    var t := trail + [s[c[n]]];
    forall i | 0 <= i < |t| ensures StoredAs(s, c[|c| - 1 - i], t[i]) {
      if i < |trail| { assert t[i] == trail[i]; } else { assert |c| - 1 - i == n; }
    }
  }

  lemma WalkOld(s: Store, g: Hash, h: Hash, at: Block, trail: seq<Block>, txs: seq<TxHash>)
    requires OnTrail(s, g, h, at, trail) && TxsOf(s, Chain(s, g, h), at.number + 1, |Chain(s, g, h)|, txs)
    ensures at.number > 0 ==>
              var next := GetBlock(s, at.parent, at.number - 1);
              && next.Some? && OnTrail(s, g, h, next.value, trail + [at]) && next.value.number == at.number - 1
              && TxsOf(s, Chain(s, g, h), at.number, |Chain(s, g, h)|, txs + at.txs)
    ensures at.number == 0 ==> GetBlock(s, at.parent, at.number - 1).None?
  {
    var c := Chain(s, g, h);
    if at.number > 0 {
      ChainLink(s, g, h, at.number);
      ChainAt(s, g, h, at.number - 1);
      TrailMore(s, c, trail, at.number);
      TxsOfMore(s, c, at.number + 1, |c|, txs);
    }
  }

  lemma WalkNew(s: Store, g: Hash, h: Hash, at: Block, trail: seq<Block>)
    requires Keyed(s) && MaybeOnTrail(s, g, h, at, trail)
    ensures var next := GetBlock(s, at.parent, at.number - 1);
            && (next.Some? ==> MaybeOnTrail(s, g, h, next.value, trail + [at]) && next.value.number == at.number - 1)
            && (next.None? && at.number > 0 ==> !Rooted(s, g, h))
  {
    if Rooted(s, g, h) && at.number > 0 {
      ChainLink(s, g, h, at.number);
      ChainAt(s, g, h, at.number - 1);
      TrailMore(s, Chain(s, g, h), trail, at.number);
    }
  }

  /** At number zero two rooted walks have met, so a remaining difference means the new head is not rooted. */
  lemma GenesisShared(s: Store, g: Hash, h: Hash, h': Hash, a: Block, b: Block, oldChain: seq<Block>, newChain: seq<Block>)
    requires OnTrail(s, g, h, a, oldChain) && MaybeOnTrail(s, g, h', b, newChain) && a.number == b.number && a.hash != b.hash
    requires Rooted(s, g, h') ==> DifferAbove(Chain(s, g, h), Chain(s, g, h'), a.number)
    ensures a.number == 0 ==> !Rooted(s, g, h')
    ensures Rooted(s, g, h') && a.number > 0 ==> DifferAbove(Chain(s, g, h), Chain(s, g, h'), a.number - 1)
  {
    ChainAt(s, g, h, a.number);
  }

  lemma WalkStart(s: Store, g: Hash, oldHead: Block, newHead: Block)
    requires Keyed(s) && Rooted(s, g, oldHead.hash) && s[oldHead.hash] == oldHead && newHead.hash in s && s[newHead.hash] == newHead
    ensures OnTrail(s, g, oldHead.hash, oldHead, []) && MaybeOnTrail(s, g, newHead.hash, newHead, [])
    ensures TxsOf(s, Chain(s, g, oldHead.hash), oldHead.number + 1, |Chain(s, g, oldHead.hash)|, [])
  {
  }

  lemma ShorterReached(s: Store, g: Hash, oldHead: Block, newHead: Block, n: nat)
    requires Rooted(s, g, oldHead.hash) && s[oldHead.hash] == oldHead && newHead.hash in s && s[newHead.hash] == newHead
    requires n >= oldHead.number || n >= newHead.number
    ensures Rooted(s, g, newHead.hash) ==> DifferAbove(Chain(s, g, oldHead.hash), Chain(s, g, newHead.hash), n)
  {
  }

  lemma ForkFound(s: Store, g: Hash, h: Hash, h': Hash, a: Block, b: Block, oldChain: seq<Block>, newChain: seq<Block>)
    requires OnTrail(s, g, h, a, oldChain) && MaybeOnTrail(s, g, h', b, newChain) && a.number == b.number && a.hash == b.hash
    requires Rooted(s, g, h') ==> DifferAbove(Chain(s, g, h), Chain(s, g, h'), a.number)
    ensures Rooted(s, g, h') && Fork(Chain(s, g, h), Chain(s, g, h')) == a.number + 1
    ensures TrailOf(s, Chain(s, g, h), oldChain, a.number) && TrailOf(s, Chain(s, g, h'), newChain, a.number)
  {
    ChainAt(s, g, h, a.number);
    ChainsMeet(s, g, h, h', a.number);
    ForkUnique(Chain(s, g, h), Chain(s, g, h'), a.number + 1);
  }
}
