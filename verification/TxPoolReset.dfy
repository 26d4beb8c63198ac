/**
 What a reset of the pool gives back (core/tx_pool.go, reset): the pool walks from the old and the new head
 to where their chains meet and offers again what the old branch has and the new one lacks.
 */
module PoolReset {
  import opened Common
  import opened ChainTree
  import Pool
  import PoolOffers
  import Transactions

  /** Heads whose numbers differ by more are not compared. */
  const MAX_DEPTH: nat := 64

  function TxsAt(s: Store, h: Hash): seq<TxHash> {
    if h in s then s[h].txs else []
  }

  /** The transactions of a chain's blocks from number `lo` up to `hi`, the highest block first. */
  ghost function Backwards(s: Store, c: seq<Hash>, lo: nat, hi: nat): seq<TxHash>
    requires hi <= |c|
  {
    if hi <= lo then [] else TxsAt(s, c[hi - 1]) + Backwards(s, c, lo, hi - 1)
  }

  lemma {:induction false} BackwardsMore(s: Store, c: seq<Hash>, lo: nat, hi: nat)
    requires lo < hi <= |c|
    ensures Backwards(s, c, lo, hi) == Backwards(s, c, lo + 1, hi) + TxsAt(s, c[lo])
  {
    if lo + 1 < hi {
      BackwardsMore(s, c, lo, hi - 1);
    }
  }

  /** A block of the chain from number `lo` up to `hi` has the transaction. */
  ghost predicate Between(s: Store, c: seq<Hash>, lo: nat, hi: nat, t: TxHash) {
    exists i: nat :: lo <= i < hi && HasTx(s, c, t, i)
  }

  lemma {:induction false} BackwardsHas(s: Store, c: seq<Hash>, lo: nat, hi: nat, t: TxHash)
    requires hi <= |c|
    ensures t in Backwards(s, c, lo, hi) <==> Between(s, c, lo, hi, t)
  {
    if lo < hi {
      BackwardsHas(s, c, lo, hi - 1, t);
      assert t in TxsAt(s, c[hi - 1]) <==> HasTx(s, c, t, hi - 1);
    }
  }

  /** The members of `a` that are not in `b`, in order. */
  ghost function Without(a: seq<TxHash>, b: seq<TxHash>): seq<TxHash> {
    if a == [] then []
    else Without(a[..|a| - 1], b) + if a[|a| - 1] in b then [] else [a[|a| - 1]]
  }

  lemma {:induction false} WithoutCounts(a: seq<TxHash>, b: seq<TxHash>, t: TxHash)
    ensures multiset(Without(a, b))[t] == if t in b then 0 else multiset(a)[t]
  {
    if a != [] {
      var k := |a| - 1;
      WithoutCounts(a[..k], b, t);
      assert a == a[..k] + [a[k]];
    }
  }

  method Difference(a: seq<TxHash>, b: seq<TxHash>) returns (keep: seq<TxHash>)
    ensures keep == Without(a, b)
  {
    var remove: set<TxHash> := {};
    for i := 0 to |b|
      invariant forall t :: t in remove <==> t in b[..i]
    {
      remove := remove + {b[i]};
    }
    keep := [];
    for i := 0 to |a|
      invariant keep == Without(a[..i], b)
    {
      assert a[..i + 1][..i] == a[..i];
      if a[i] !in remove {
        keep := keep + [a[i]];
      }
    }
    assert a[..|a|] == a;
  }

  /** The walk down from `h` has reached `at` and collected `txs`; whether `h` is rooted is not known yet. */
  ghost predicate Walked(s: Store, g: Hash, h: Hash, at: Block, txs: seq<TxHash>) {
    && h in s && at.hash in s && s[at.hash] == at && at.number <= s[h].number
    && (Rooted(s, g, h) <==> Rooted(s, g, at.hash))
    && (Rooted(s, g, h) ==>
          && Chain(s, g, h)[at.number] == at.hash
          && txs == Backwards(s, Chain(s, g, h), at.number + 1, s[h].number + 1))
  }

  lemma WalkStarts(s: Store, g: Hash, b: Block)
    requires b.hash in s && s[b.hash] == b
    ensures Walked(s, g, b.hash, b, [])
  {
  }

  lemma WalkOn(s: Store, g: Hash, h: Hash, at: Block, txs: seq<TxHash>)
    requires Keyed(s) && Walked(s, g, h, at, txs)
    ensures var next := GetBlock(s, at.parent, at.number - 1);
            && (next.Some? ==> Walked(s, g, h, next.value, txs + at.txs))
            && (next.None? && Rooted(s, g, h) ==> at.number == 0)
  {
    hide Backwards;
    if Rooted(s, g, h) && at.number > 0 {
      ChainLink(s, g, h, at.number);
      BackwardsMore(s, Chain(s, g, h), at.number, s[h].number + 1);
    }
  }

  /** Two rooted walks that stand at the same number on different blocks are above the fork and above the genesis block. */
  lemma StillApart(s: Store, g: Hash, h: Hash, h': Hash, a: Block, b: Block, txs: seq<TxHash>, txs': seq<TxHash>)
    requires Walked(s, g, h, a, txs) && Walked(s, g, h', b, txs') && a.number == b.number && a.hash != b.hash
    ensures Rooted(s, g, h) && Rooted(s, g, h') ==> a.number > 0
  {
  }

  lemma Met(s: Store, g: Hash, h: Hash, h': Hash, a: Block, b: Block, txs: seq<TxHash>, txs': seq<TxHash>)
    requires Walked(s, g, h, a, txs) && Walked(s, g, h', b, txs') && a.number == b.number && a.hash == b.hash
    requires Rooted(s, g, h) && Rooted(s, g, h') ==> ApartAbove(Chain(s, g, h), Chain(s, g, h'), a.number)
    ensures Rooted(s, g, h) <==> Rooted(s, g, h')
    ensures Rooted(s, g, h) && Rooted(s, g, h') ==> Parted(s, g, h, h', txs, txs')
  {
    hide Backwards, Fork;
    if Rooted(s, g, h) {
      ChainsMeet(s, g, h, h', a.number);
      ForkUnique(Chain(s, g, h), Chain(s, g, h'), a.number + 1);
    }
  }

  ghost predicate ApartAbove(o: seq<Hash>, n: seq<Hash>, k: nat) {
    forall i :: k < i < |o| && i < |n| ==> o[i] != n[i]
  }

  /** What two rooted heads have above their fork. */
  ghost predicate Parted(s: Store, g: Hash, h: Hash, h': Hash, txs: seq<TxHash>, txs': seq<TxHash>)
    requires Rooted(s, g, h) && Rooted(s, g, h')
  {
    var o, n := Chain(s, g, h), Chain(s, g, h');
    txs == Backwards(s, o, Fork(o, n), |o|) && txs' == Backwards(s, n, Fork(o, n), |n|)
  }

  lemma ShorterOne(s: Store, g: Hash, h: Hash, h': Hash, n: nat)
    requires h in s && h' in s && (n >= s[h].number || n >= s[h'].number)
    ensures Rooted(s, g, h) && Rooted(s, g, h') ==> ApartAbove(Chain(s, g, h), Chain(s, g, h'), n)
  {
  }

  lemma OneLower(s: Store, g: Hash, h: Hash, h': Hash, a: Block, b: Block, txs: seq<TxHash>, txs': seq<TxHash>)
    requires Walked(s, g, h, a, txs) && Walked(s, g, h', b, txs') && a.number == b.number && a.hash != b.hash
    requires Rooted(s, g, h) && Rooted(s, g, h') ==> ApartAbove(Chain(s, g, h), Chain(s, g, h'), a.number)
    ensures Rooted(s, g, h) && Rooted(s, g, h') && a.number > 0 ==> ApartAbove(Chain(s, g, h), Chain(s, g, h'), a.number - 1)
  {
  }

  /** The transactions above the fork on the chain of `h` that the chain of `h'` does not have above it. */
  ghost function LeftBehind(s: Store, g: Hash, h: Hash, h': Hash): seq<TxHash>
    requires Rooted(s, g, h) && Rooted(s, g, h')
  {
    var o, n := Chain(s, g, h), Chain(s, g, h');
    Without(Backwards(s, o, Fork(o, n), |o|), Backwards(s, n, Fork(o, n), |n|))
  }

  lemma StoredHash(s: Store, h: Hash)
    requires Keyed(s) && h in s
    ensures s[h].hash == h
  {
  }

  lemma KeptIs(s: Store, g: Hash, h: Hash, h': Hash, txs: seq<TxHash>, txs': seq<TxHash>)
    requires Rooted(s, g, h) && Rooted(s, g, h') ==> Parted(s, g, h, h', txs, txs')
    ensures Rooted(s, g, h) && Rooted(s, g, h') ==> Without(txs, txs') == LeftBehind(s, g, h, h')
  {
  }

  /** Heads the pool does not compare: there is no old one, the new one is its child, or their numbers are too far apart. */
  predicate Uncompared(oldHead: Option<Block>, newHead: Block) {
    || oldHead.None? || oldHead.value.hash == newHead.parent
    || oldHead.value.number > newHead.number + MAX_DEPTH || newHead.number > oldHead.value.number + MAX_DEPTH
  }

  /**
   The transactions a reset offers again; no result when it gives up. With both chains stored they are
   exactly those left behind, and with one of them incomplete the reset gives up.
   */
  method Dropped(s: Store, oldHead: Option<Block>, newHead: Block, ghost g: Hash) returns (r: Option<seq<TxHash>>)
    requires Keyed(s) && newHead.hash in s && s[newHead.hash] == newHead
    ensures Uncompared(oldHead, newHead) ==> r == Some([])
    ensures !Uncompared(oldHead, newHead) ==>
              var h := oldHead.value;
              if GetBlock(s, h.hash, h.number).None? then r == if newHead.number >= h.number then None else Some([])
              else
                && (Rooted(s, g, h.hash) || Rooted(s, g, newHead.hash) ==> (r.Some? <==> Rooted(s, g, h.hash) && Rooted(s, g, newHead.hash)))
                && (Rooted(s, g, h.hash) && Rooted(s, g, newHead.hash) ==> r == Some(LeftBehind(s, g, h.hash, newHead.hash)))
  {
    hide Rooted, Chain, Backwards, Without, Fork, Walked, ApartAbove, Keyed, Parted;
    if Uncompared(oldHead, newHead) {
      return Some([]);
    }
    var h := oldHead.value;
    var start := GetBlock(s, h.hash, h.number);
    if start.None? {
      return if newHead.number >= h.number then None else Some([]);
    }
    var rem, add := start.value, newHead;
    var discarded: seq<TxHash>, included: seq<TxHash> := [], [];
    StoredHash(s, h.hash);
    WalkStarts(s, g, rem);
    WalkStarts(s, g, add);
    while rem.number > add.number
      invariant Walked(s, g, h.hash, rem, discarded) && (rem == start.value || rem.number >= add.number)
      decreases rem.number
    {
      WalkOn(s, g, h.hash, rem, discarded);
      var next := GetBlock(s, rem.parent, rem.number - 1);
      if next.None? {
        return None;
      }
      discarded, rem := discarded + rem.txs, next.value;
    }
    while add.number > rem.number
      invariant Walked(s, g, newHead.hash, add, included) && rem.number <= add.number
      decreases add.number
    {
      WalkOn(s, g, newHead.hash, add, included);
      var next := GetBlock(s, add.parent, add.number - 1);
      if next.None? {
        return None;
      }
      included, add := included + add.txs, next.value;
    }
    ShorterOne(s, g, h.hash, newHead.hash, rem.number);
    while rem.hash != add.hash
      invariant Walked(s, g, h.hash, rem, discarded) && Walked(s, g, newHead.hash, add, included) && rem.number == add.number
      invariant Rooted(s, g, h.hash) && Rooted(s, g, newHead.hash) ==>
                  ApartAbove(Chain(s, g, h.hash), Chain(s, g, newHead.hash), rem.number)
      decreases rem.number
    {
      StillApart(s, g, h.hash, newHead.hash, rem, add, discarded, included);
      OneLower(s, g, h.hash, newHead.hash, rem, add, discarded, included);
      WalkOn(s, g, h.hash, rem, discarded);
      WalkOn(s, g, newHead.hash, add, included);
      var nextRem := GetBlock(s, rem.parent, rem.number - 1);
      if nextRem.None? {
        return None;
      }
      var nextAdd := GetBlock(s, add.parent, add.number - 1);
      if nextAdd.None? {
        return None;
      }
      discarded, rem := discarded + rem.txs, nextRem.value;
      included, add := included + add.txs, nextAdd.value;
    }
    Met(s, g, h.hash, newHead.hash, rem, add, discarded, included);
    var keep := Difference(discarded, included);
    r := Some(keep);
    KeptIs(s, g, h.hash, newHead.hash, discarded, included);
  }

  /** Who sent a transaction with which nonce, and the nonces of the genesis state. */
  datatype Senders = Senders(from: TxHash -> Transactions.Address, nonce: TxHash -> nat, base: Transactions.Address -> nat)

  ghost function Sent(txs: seq<TxHash>, who: Senders, a: Transactions.Address): nat {
    if txs == [] then 0 else Sent(txs[..|txs| - 1], who, a) + if who.from(txs[|txs| - 1]) == a then 1 else 0
  }

  /** The state nonce of an account after the first `k` blocks of a chain. */
  ghost function NonceAt(s: Store, c: seq<Hash>, k: nat, who: Senders, a: Transactions.Address): nat
    requires k <= |c|
  {
    if k == 0 then who.base(a) else NonceAt(s, c, k - 1, who, a) + Sent(TxsAt(s, c[k - 1]), who, a)
  }

  /** Every transaction of the chain has the nonce its sender is at. */
  ghost predicate Executes(s: Store, c: seq<Hash>, who: Senders) {
    forall k, j :: 0 <= k < |c| && 0 <= j < |TxsAt(s, c[k])| ==> InTurn(s, c, who, k, j)
  }

  ghost predicate InTurn(s: Store, c: seq<Hash>, who: Senders, k: nat, j: nat)
    requires k < |c| && j < |TxsAt(s, c[k])|
  {
    var txs := TxsAt(s, c[k]);
    who.nonce(txs[j]) == NonceAt(s, c, k, who, who.from(txs[j])) + Sent(txs[..j], who, who.from(txs[j]))
  }

  lemma {:induction false} SentGrows(txs: seq<TxHash>, j: nat, who: Senders)
    requires j < |txs|
    ensures Sent(txs[..j], who, who.from(txs[j])) < Sent(txs, who, who.from(txs[j]))
    decreases |txs|
  {
    var k := |txs| - 1;
    if j < k {
      assert txs[..k][..j] == txs[..j];
      SentGrows(txs[..k], j, who);
    }
  }

  lemma {:induction false} NonceGrows(s: Store, c: seq<Hash>, k: nat, m: nat, who: Senders, a: Transactions.Address)
    requires k <= m <= |c|
    ensures NonceAt(s, c, k, who, a) <= NonceAt(s, c, m, who, a)
    decreases m - k
  {
    hide Sent;
    if k < m {
      NonceGrows(s, c, k, m - 1, who, a);
    }
  }

  /** What a block contains is below its senders' nonces from then on, and not below them before. */
  lemma ExecutedIn(s: Store, c: seq<Hash>, who: Senders, t: TxHash, k: nat, m: nat)
    requires Executes(s, c, who) && HasTx(s, c, t, k) && m <= |c|
    ensures who.nonce(t) < NonceAt(s, c, m, who, who.from(t)) <==> k < m
  {
    hide NonceAt, Sent;
    var txs := TxsAt(s, c[k]);
    var j :| 0 <= j < |txs| && txs[j] == t;
    assert InTurn(s, c, who, k, j);
    SentGrows(txs, j, who);
    NextNonce(s, c, k, who, who.from(t));
    if k < m {
      NonceGrows(s, c, k + 1, m, who, who.from(t));
    } else {
      NonceGrows(s, c, m, k, who, who.from(t));
    }
  }

  lemma NextNonce(s: Store, c: seq<Hash>, k: nat, who: Senders, a: Transactions.Address)
    requires k < |c|
    ensures NonceAt(s, c, k + 1, who, a) == NonceAt(s, c, k, who, a) + Sent(TxsAt(s, c[k]), who, a)
  {
    hide Sent;
  }

  lemma ExecutedOnce(s: Store, c: seq<Hash>, who: Senders)
    requires Executes(s, c, who)
    ensures OncePerChain(s, c)
  {
    hide Executes, NonceAt, HasTx;
    forall t, n: nat, m: nat | HasTx(s, c, t, n) && HasTx(s, c, t, m) ensures n == m {
      InChain(s, c, t, n);
      InChain(s, c, t, m);
      ExecutedIn(s, c, who, t, n, n + 1);
      ExecutedIn(s, c, who, t, m, n + 1);
      ExecutedIn(s, c, who, t, n, m + 1);
      ExecutedIn(s, c, who, t, m, m + 1);
    }
  }

  lemma InChain(s: Store, c: seq<Hash>, t: TxHash, n: nat)
    requires HasTx(s, c, t, n)
    ensures n < |c|
  {
  }

  /** A reset offers again exactly what the old chain has and the new chain lacks. */
  lemma LeftBehindIff(s: Store, g: Hash, h: Hash, h': Hash, who: Senders, t: TxHash)
    requires Rooted(s, g, h) && Rooted(s, g, h') && Executes(s, Chain(s, g, h), who)
    ensures var o, n := Chain(s, g, h), Chain(s, g, h');
            t in LeftBehind(s, g, h, h') <==> Between(s, o, 0, |o|, t) && !Between(s, n, 0, |n|, t)
  {
    hide Rooted, Chain, Backwards, Without, Executes, HasTx, Fork, Between;
    var o, n := Chain(s, g, h), Chain(s, g, h');
    var k := Fork(o, n);
    var gone, kept := Backwards(s, o, k, |o|), Backwards(s, n, k, |n|);
    WithoutCounts(gone, kept, t);
    CountsMembers(Without(gone, kept), t);
    CountsMembers(gone, t);
    BackwardsHas(s, o, k, |o|, t);
    BackwardsHas(s, n, k, |n|, t);
    ExecutedOnce(s, o, who);
    forall i: nat | HasTx(s, n, t, i) ensures i < |n| && (i < k ==> HasTx(s, o, t, i)) { SharedTx(s, n, o, t, k, i); }
    forall i: nat | HasTx(s, o, t, i) ensures i < |o| && (i < k ==> HasTx(s, n, t, i)) { SharedTx(s, o, n, t, k, i); }
    AboveFork(s, o, n, k, t);
  }

  lemma AboveFork(s: Store, o: seq<Hash>, n: seq<Hash>, k: nat, t: TxHash)
    requires OncePerChain(s, o)
    requires forall i: nat :: HasTx(s, n, t, i) ==> i < |n| && (i < k ==> HasTx(s, o, t, i))
    requires forall i: nat :: HasTx(s, o, t, i) ==> i < |o| && (i < k ==> HasTx(s, n, t, i))
    ensures Between(s, o, k, |o|, t) && !Between(s, n, k, |n|, t) <==> Between(s, o, 0, |o|, t) && !Between(s, n, 0, |n|, t)
  {
    hide HasTx;
    if i: nat :| k <= i < |o| && HasTx(s, o, t, i) {
      if j: nat :| HasTx(s, n, t, j) {
        assert HasTx(s, n, t, j) && j >= k;
      }
    }
  }

  lemma CountsMembers(txs: seq<TxHash>, t: TxHash)
    ensures multiset(txs)[t] > 0 <==> t in txs
  {
  }

  lemma SharedTx(s: Store, o: seq<Hash>, n: seq<Hash>, t: TxHash, k: nat, i: nat)
    requires k <= |o| && k <= |n| && o[..k] == n[..k] && HasTx(s, o, t, i)
    ensures i < |o| && (i < k ==> HasTx(s, n, t, i))
  {
    if i < k {
      assert o[..k][i] == o[i] && n[..k][i] == n[i];
    }
  }

  /** The state nonces at the end of a chain. */
  ghost function NoncesOf(s: Store, c: seq<Hash>, who: Senders): Transactions.Address -> nat {
    a => NonceAt(s, c, |c|, who, a)
  }

  /** The pool's transactions behind the hashes of a chain. */
  ghost predicate Behind(meaning: TxHash -> Transactions.Tx, who: Senders) {
    forall t :: meaning(t).from == who.from(t) && meaning(t).nonce == who.nonce(t)
  }

  /** The head a pool is reset to: the state nonces of the new chain, and what the old one left behind. */
  ghost predicate HeadOf(head: PoolOffers.Head, s: Store, g: Hash, h: Hash, h': Hash, who: Senders, meaning: TxHash -> Transactions.Tx)
    requires Rooted(s, g, h) && Rooted(s, g, h')
  {
    && head.nonceOf == NoncesOf(s, Chain(s, g, h'), who)
    && (head.reinject == [] || GivenBack(head.reinject, LeftBehind(s, g, h, h'), meaning))
  }

  ghost predicate GivenBack(txs: seq<Transactions.Tx>, hashes: seq<TxHash>, meaning: TxHash -> Transactions.Tx) {
    |txs| == |hashes| && forall i :: 0 <= i < |txs| ==> txs[i] == meaning(hashes[i])
  }

  /** From one head of the chain to the next no state nonce goes down. */
  ghost predicate NoneLower(s: Store, g: Hash, h: Hash, h': Hash, who: Senders)
    requires Rooted(s, g, h) && Rooted(s, g, h')
  {
    forall a: Transactions.Address ::
      NonceAt(s, Chain(s, g, h), |Chain(s, g, h)|, who, a) <= NonceAt(s, Chain(s, g, h'), |Chain(s, g, h')|, who, a)
  }

  /** A head to which no state nonce goes down is a forward one: whatever it gives back had been executed at the head before. */
  lemma ResetIsForward(head: PoolOffers.Head, s: Store, g: Hash, h: Hash, h': Hash, who: Senders, meaning: TxHash -> Transactions.Tx)
    requires Rooted(s, g, h) && Rooted(s, g, h') && Executes(s, Chain(s, g, h), who) && Behind(meaning, who)
    requires HeadOf(head, s, g, h, h', who, meaning)
    requires NoneLower(s, g, h, h', who)
    ensures Pool.ForwardHead(head, NoncesOf(s, Chain(s, g, h), who))
  {
    hide Rooted, Chain, NonceAt, Executes, LeftBehind, HasTx;
    var o := Chain(s, g, h);
    forall i | 0 <= i < |head.reinject| ensures head.reinject[i].nonce < NonceAt(s, o, |o|, who, head.reinject[i].from) {
      var t := LeftBehind(s, g, h, h')[i];
      assert t in LeftBehind(s, g, h, h');
      LeftBehindIff(s, g, h, h', who, t);
      var k: nat :| HasTx(s, o, t, k);
      InChain(s, o, t, k);
      ExecutedIn(s, o, who, t, k, |o|);
    }
  }

  /** Along one chain no state nonce goes down. */
  lemma {:induction false} ExtensionGoesForward(s: Store, g: Hash, h: Hash, h': Hash, who: Senders, a: Transactions.Address)
    requires Rooted(s, g, h) && Rooted(s, g, h') && |Chain(s, g, h)| <= |Chain(s, g, h')| && Chain(s, g, h')[..|Chain(s, g, h)|] == Chain(s, g, h)
    ensures NonceAt(s, Chain(s, g, h), |Chain(s, g, h)|, who, a) <= NonceAt(s, Chain(s, g, h'), |Chain(s, g, h')|, who, a)
    ensures LeftBehind(s, g, h, h') == []
  {
    hide Rooted, Chain, NonceAt;
    var o, n := Chain(s, g, h), Chain(s, g, h');
    SameFront(s, o, n, |o|, who, a);
    NonceGrows(s, n, |o|, |n|, who, a);
    assert o[..|o|] == o;
    ForkUnique(o, n, |o|);
  }

  lemma {:induction false} SameFront(s: Store, o: seq<Hash>, n: seq<Hash>, k: nat, who: Senders, a: Transactions.Address)
    requires k <= |o| <= |n| && n[..|o|] == o
    ensures NonceAt(s, o, k, who, a) == NonceAt(s, n, k, who, a)
  {
    hide Sent;
    if k > 0 {
      SameFront(s, o, n, k - 1, who, a);
      assert n[..|o|][k - 1] == n[k - 1];
    }
  }

  /** A run whose resets, given up or not, follow the heads of a block store; `heads[i]` is the head after step `i`. */
  ghost predicate FollowsHeads(steps: seq<Pool.Step>, heads: seq<Hash>, s: Store, g: Hash, h: Hash, who: Senders,
                               meaning: TxHash -> Transactions.Tx)
  {
    && |heads| == |steps| && Rooted(s, g, h) && Executes(s, Chain(s, g, h), who)
    && (steps != [] ==>
          && (if steps[0].Reorg? && steps[0].req.Reset? then
                && Rooted(s, g, heads[0]) && NoneLower(s, g, h, heads[0], who) && HeadOf(steps[0].req.head, s, g, h, heads[0], who, meaning)
              else heads[0] == h)
          && FollowsHeads(steps[1..], heads[1..], s, g, heads[0], who, meaning))
  }

  /** Along such a run the chain goes forward, so a sound pool stays sound. */
  lemma {:induction false} HeadsGoForward(steps: seq<Pool.Step>, heads: seq<Hash>, s: Store, g: Hash, h: Hash, who: Senders,
                                          meaning: TxHash -> Transactions.Tx)
    requires FollowsHeads(steps, heads, s, g, h, who, meaning) && Behind(meaning, who)
    ensures Pool.ForwardRun(steps, NoncesOf(s, Chain(s, g, h), who))
  {
    hide Rooted, Chain, Executes, Behind, NonceAt, Pool.ForwardHead, LeftBehind, GivenBack, NoncesOf;
    if steps != [] {
      if steps[0].Reorg? && steps[0].req.Reset? {
        ResetIsForward(steps[0].req.head, s, g, h, heads[0], who, meaning);
      }
      HeadsGoForward(steps[1..], heads[1..], s, g, heads[0], who, meaning);
    }
  }
}
