/**
 Blocks addressed by their hash, the chain a block ends, and what it means for a number
 index and a transaction index to describe one chain.
 */
module ChainTree {
  import opened Common

  type Hash = nat
  type TxHash = nat

  datatype Block = Block(hash: Hash, parent: Hash, number: nat, difficulty: nat, txs: seq<TxHash>)

  type Store = map<Hash, Block>

  /** Reading a block needs both its hash and its number. */
  function GetBlock(s: Store, h: Hash, n: int): Option<Block> {
    if h in s && s[h].number == n then Some(s[h]) else None
  }

  /** All ancestors of `h` are stored, down to the genesis block `g`. */
  ghost predicate Rooted(s: Store, g: Hash, h: Hash)
    decreases if h in s then s[h].number else 0
  {
    && h in s && s[h].hash == h
    && if s[h].number == 0 then h == g
       else s[h].parent in s && s[s[h].parent].number + 1 == s[h].number && Rooted(s, g, s[h].parent)
  }

  lemma RootedStored(s: Store, g: Hash, h: Hash)
    requires Rooted(s, g, h)
    ensures h in s
  {
  }

  /** The hashes from the genesis block up to `h`. */
  ghost function Chain(s: Store, g: Hash, h: Hash): (c: seq<Hash>)
    requires Rooted(s, g, h)
    ensures |c| == s[h].number + 1 && c[s[h].number] == h
    decreases s[h].number
  {
    if s[h].number == 0 then [h] else Chain(s, g, s[h].parent) + [h]
  }

  /** Every block of a chain ends the corresponding front part of it. */
  lemma {:induction false} ChainAt(s: Store, g: Hash, h: Hash, i: nat)
    requires Rooted(s, g, h) && i <= s[h].number
    ensures var x := Chain(s, g, h)[i];
            Rooted(s, g, x) && s[x].number == i && Chain(s, g, x) == Chain(s, g, h)[..i + 1]
    decreases s[h].number
  {
    if i < s[h].number {
      ChainAt(s, g, s[h].parent, i);
      assert Chain(s, g, h)[..i + 1] == Chain(s, g, s[h].parent)[..i + 1];
    } else {
      assert Chain(s, g, h)[..i + 1] == Chain(s, g, h);
    }
  }

  lemma ChainLink(s: Store, g: Hash, h: Hash, i: nat)
    requires Rooted(s, g, h) && 0 < i <= s[h].number
    ensures Chain(s, g, h)[i] in s && s[Chain(s, g, h)[i]].number == i && s[Chain(s, g, h)[i]].parent == Chain(s, g, h)[i - 1]
  {
    ChainAt(s, g, h, i);
    var x := Chain(s, g, h)[i];
    assert Chain(s, g, x) == Chain(s, g, s[x].parent) + [x];
    assert Chain(s, g, x)[i - 1] == s[x].parent;
  }

  /** Two chains that agree at one number agree below it. */
  lemma ChainsMeet(s: Store, g: Hash, a: Hash, b: Hash, i: nat)
    requires Rooted(s, g, a) && Rooted(s, g, b) && i <= s[a].number && i <= s[b].number
    requires Chain(s, g, a)[i] == Chain(s, g, b)[i]
    ensures Chain(s, g, a)[..i + 1] == Chain(s, g, b)[..i + 1]
  {
    ChainAt(s, g, a, i);
    ChainAt(s, g, b, i);
  }

  /** Storing more blocks does not change existing chains. */
  lemma {:induction false} ChainGrows(s: Store, s': Store, g: Hash, h: Hash)
    requires Rooted(s, g, h) && forall x :: x in s ==> x in s' && s'[x] == s[x]
    ensures Rooted(s', g, h) && Chain(s', g, h) == Chain(s, g, h)
    decreases s[h].number
  {
    if s[h].number > 0 {
      ChainGrows(s, s', g, s[h].parent);
    }
  }

  /** The number index lists exactly the chain `c`. */
  ghost predicate IndexOf(canon: map<nat, Hash>, c: seq<Hash>) {
    && (forall n: nat :: n in canon <==> n < |c|)
    && (forall n: nat :: n in canon && n < |c| ==> canon[n] == c[n])
  }

  ghost predicate HasTx(s: Store, c: seq<Hash>, t: TxHash, n: nat) {
    n < |c| && c[n] in s && t in s[c[n]].txs
  }

  /** No transaction is in two blocks of the chain. */
  ghost predicate OncePerChain(s: Store, c: seq<Hash>) {
    forall t, n: nat, m: nat :: HasTx(s, c, t, n) && HasTx(s, c, t, m) ==> n == m
  }

  /** The transaction index holds exactly the transactions of the chain, each with its block number. */
  ghost predicate LookupOf(lookup: map<TxHash, nat>, s: Store, c: seq<Hash>) {
    && (forall t :: t in lookup ==> HasTx(s, c, t, lookup[t]))
    && (forall t, n: nat :: HasTx(s, c, t, n) ==> t in lookup && lookup[t] == n)
  }

  /** Total difficulty along the chain of `h`. */
  ghost function PathSum(s: Store, g: Hash, h: Hash): nat
    requires Rooted(s, g, h)
    decreases s[h].number
  {
    s[h].difficulty + if s[h].number == 0 then 0 else PathSum(s, g, s[h].parent)
  }

  lemma {:induction false} PathSumGrows(s: Store, s': Store, g: Hash, h: Hash)
    requires Rooted(s, g, h) && forall x :: x in s ==> x in s' && s'[x] == s[x]
    ensures Rooted(s', g, h) && PathSum(s', g, h) == PathSum(s, g, h)
    decreases s[h].number
  {
    if s[h].number > 0 {
      PathSumGrows(s, s', g, s[h].parent);
    }
  }

  ghost predicate Extends(s: Store, s': Store) {
    forall x :: x in s ==> x in s' && s'[x] == s[x]
  }

  /** Stored blocks are kept under their own hash. */
  ghost predicate Keyed(s: Store) {
    forall h :: h in s ==> s[h].hash == h
  }

  /** Every stored block has all its ancestors stored and its total difficulty recorded. */
  ghost predicate Weighed(s: Store, g: Hash, td: map<Hash, nat>) {
    && td.Keys == s.Keys && Keyed(s)
    && (forall h :: h in s ==> Rooted(s, g, h) && td[h] == PathSum(s, g, h))
  }

  /** A block can be added to a store: its hash is new or already means this block. */
  ghost predicate Addressed(s: Store, b: Block) {
    b.hash in s ==> s[b.hash] == b
  }

  lemma BlockWeighed(s: Store, g: Hash, td: map<Hash, nat>, b: Block)
    requires Weighed(s, g, td) && Addressed(s, b)
    requires b.parent in s && s[b.parent].number + 1 == b.number
    ensures Extends(s, s[b.hash := b]) && Weighed(s[b.hash := b], g, td[b.hash := td[b.parent] + b.difficulty])
    ensures b.hash in s ==> td[b.hash] == td[b.parent] + b.difficulty
  {
    hide Rooted, PathSum;
    var s', td' := s[b.hash := b], td[b.hash := td[b.parent] + b.difficulty];
    PathSumGrows(s, s', g, b.parent);
    ChildSum(s', g, b);
    forall h | h in s' ensures Rooted(s', g, h) && td'[h] == PathSum(s', g, h) {
      if h != b.hash {
        PathSumGrows(s, s', g, h);
      }
    }
    if b.hash in s {
      PathSumGrows(s, s', g, b.hash);
    }
  }

  lemma ChildSum(s: Store, g: Hash, b: Block)
    requires b.hash in s && s[b.hash] == b && b.parent in s && s[b.parent].number + 1 == b.number && Rooted(s, g, b.parent)
    ensures Rooted(s, g, b.hash) && PathSum(s, g, b.hash) == PathSum(s, g, b.parent) + b.difficulty
  {
  }

  /** The blocks follow each other. */
  ghost predicate Linked(bs: seq<Block>) {
    forall i :: 0 <= i < |bs| - 1 ==> bs[i + 1].parent == bs[i].hash && bs[i + 1].number == bs[i].number + 1
  }

  /** The entries of a number index above `number`. */
  method EntriesAbove(canon: map<nat, Hash>, number: nat, ghost len: nat) returns (doomed: set<nat>)
    requires forall n: nat :: n in canon <==> n < len
    ensures forall n: nat :: n in doomed <==> number < n < len
  {
    doomed := {};
    var i := number + 1;
    while i in canon
      invariant number < i && (i <= len || i == number + 1)
      invariant forall n: nat :: n in doomed <==> number < n < i
      decreases len - i
    {
      doomed := doomed + {i};
      i := i + 1;
    }
  }

  /** The length of the common front part of two chains. */
  ghost function Fork(a: seq<Hash>, b: seq<Hash>): (k: nat)
    ensures k <= |a| && k <= |b| && a[..k] == b[..k]
    ensures k < |a| && k < |b| ==> a[k] != b[k]
  {
    if |a| == 0 || |b| == 0 || a[0] != b[0] then 0
    else
      var k := Fork(a[1..], b[1..]) + 1;
      assert a[..k] == [a[0]] + a[1..][..k - 1] && b[..k] == [b[0]] + b[1..][..k - 1];
      k
  }

  lemma ForkUnique(a: seq<Hash>, b: seq<Hash>, k: nat)
    requires k <= |a| && k <= |b| && a[..k] == b[..k]
    requires k < |a| && k < |b| ==> a[k] != b[k]
    ensures Fork(a, b) == k
  {
    var f := Fork(a, b);
    assert forall i :: 0 <= i < k ==> a[..k][i] == a[i] && b[..k][i] == b[i];
    assert forall i :: 0 <= i < f ==> a[..f][i] == a[i] && b[..f][i] == b[i];
  }

  /** Two stored chains agree below their fork and nowhere from it on. */
  lemma ForkSplits(s: Store, g: Hash, h: Hash, h': Hash, i: nat)
    requires Rooted(s, g, h) && Rooted(s, g, h') && i <= s[h].number && i <= s[h'].number
    ensures var o, n := Chain(s, g, h), Chain(s, g, h');
            o[i] == n[i] <==> i < Fork(o, n)
  {
    var o, n := Chain(s, g, h), Chain(s, g, h');
    var k := Fork(o, n);
    if i < k {
      assert o[i] == o[..k][i] == n[..k][i] == n[i];
    } else {
      assert o[..i + 1][k] == o[k] && n[..i + 1][k] == n[k];
      if o[i] == n[i] {
        ChainsMeet(s, g, h, h', i);
      }
    }
  }

  /** The consensus rule: a block's difficulty is its number (consensus/proofofstake/proofofstake.go). */
  ghost predicate NumberRule(u: Store) {
    forall h :: h in u && u[h].number > 0 ==> u[h].difficulty == u[h].number
  }

  function Triangle(n: nat): nat {
    if n == 0 then 0 else n + Triangle(n - 1)
  }

  lemma {:induction false} TriangleGrows(m: nat, n: nat)
    requires m < n
    ensures Triangle(m) < Triangle(n)
  {
    if m + 1 < n {
      TriangleGrows(m, n - 1);
    }
  }

  lemma {:induction false} WeightByNumber(s: Store, g: Hash, h: Hash)
    requires NumberRule(s) && Rooted(s, g, h)
    ensures g in s && PathSum(s, g, h) == s[g].difficulty + Triangle(s[h].number)
    decreases s[h].number
  {
    if s[h].number > 0 {
      WeightByNumber(s, g, s[h].parent);
    }
  }

  /** Under the consensus rule a block is heavier exactly when it is higher. */
  lemma HeavierIsHigher(s: Store, g: Hash, a: Hash, b: Hash)
    requires NumberRule(s) && Rooted(s, g, a) && Rooted(s, g, b)
    ensures PathSum(s, g, a) <= PathSum(s, g, b) <==> s[a].number <= s[b].number
  {
    WeightByNumber(s, g, a);
    WeightByNumber(s, g, b);
    if s[a].number < s[b].number {
      TriangleGrows(s[a].number, s[b].number);
    } else if s[b].number < s[a].number {
      TriangleGrows(s[b].number, s[a].number);
    }
  }
}
