/**
 The header chain (core/headerchain.go): a batch of linked headers is stored, its total difficulty
 decides whether it becomes canonical, and the number index is rewritten to its ancestry.
 */
module HeaderChains {
  import opened Common
  import opened ChainTree

  datatype WriteStatus = NonStat | Canon | Side | UnknownAncestor | Aborted | Empty

  /** A hash stands for one header only, stored or arriving. */
  ghost predicate Consistent(s: Store, hs: seq<Block>) {
    && (forall i :: 0 <= i < |hs| ==> Addressed(s, hs[i]))
    && (forall i, j :: 0 <= i < |hs| && 0 <= j < |hs| && hs[i].hash == hs[j].hash ==> hs[i] == hs[j])
  }

  ghost predicate Positive(s: Store) {
    forall h :: h in s && s[h].number > 0 ==> s[h].difficulty > 0
  }

  /** Equal weight: the lower header wins, and a coin decides at the same number. */
  predicate TieBreak(last: Block, head: Block, coin: bool) {
    last.number < head.number || (last.number == head.number && coin)
  }

  /** No stored header outweighs `h`. */
  ghost predicate Heaviest(td: map<Hash, nat>, h: Hash) {
    h in td && forall x :: x in td ==> td[x] <= td[h]
  }

  /** No stored header has `h` as its parent. */
  ghost predicate Childless(s: Store, h: Hash) {
    forall x :: x in s && s[x].number > 0 ==> s[x].parent != h
  }

  /** `puts` holds exactly the entries of chain `n` from position `lo` up to `hi`. */
  ghost predicate PutsOf(puts: map<nat, Hash>, n: seq<Hash>, lo: nat, hi: nat) {
    && hi <= |n|
    && (forall x: nat :: x in puts <==> lo <= x < hi)
    && (forall x: nat :: x in puts ==> x < |n| && puts[x] == n[x])
  }

  lemma {:induction false} AncestorLighter(s: Store, g: Hash, h: Hash, i: nat)
    requires Positive(s) && Rooted(s, g, h) && i < s[h].number
    ensures Rooted(s, g, Chain(s, g, h)[i]) && PathSum(s, g, Chain(s, g, h)[i]) < PathSum(s, g, h)
    decreases s[h].number
  {
    if i + 1 < s[h].number {
      AncestorLighter(s, g, s[h].parent, i);
    }
  }

  /** A batch continues the chain of its first parent. */
  lemma {:induction false} BatchChain(s: Store, g: Hash, hs: seq<Block>, p: Hash)
    requires Linked(hs) && |hs| > 0 && hs[0].parent == p && Rooted(s, g, p)
    requires s[p].number + 1 == hs[0].number
    requires forall i :: 0 <= i < |hs| ==> hs[i].hash in s && s[hs[i].hash] == hs[i]
    ensures var last := hs[|hs| - 1];
            && Rooted(s, g, last.hash)
            && |Chain(s, g, last.hash)| == hs[0].number + |hs|
            && Chain(s, g, last.hash)[..hs[0].number] == Chain(s, g, p)
            && forall i :: 0 <= i < |hs| ==> Chain(s, g, last.hash)[hs[0].number + i] == hs[i].hash
  {
    var last := hs[|hs| - 1];
    if |hs| == 1 {
      assert Chain(s, g, last.hash) == Chain(s, g, p) + [last.hash];
    } else {
      var front := hs[..|hs| - 1];
      BatchChain(s, g, front, p);
      var tip := front[|front| - 1];
      assert last.parent == tip.hash;
      var c := Chain(s, g, tip.hash);
      assert Chain(s, g, last.hash) == c + [last.hash];
      assert Chain(s, g, last.hash)[..hs[0].number] == c[..hs[0].number];
      forall i | 0 <= i < |hs| ensures Chain(s, g, last.hash)[hs[0].number + i] == hs[i].hash {
        if i < |front| { assert front[i] == hs[i]; assert c[hs[0].number + i] == front[i].hash; }
      }
    }
  }

  class HeaderChain {
    const genesis: Hash
    var headers: Store
    var td: map<Hash, nat>
    var canon: map<nat, Hash>
    var current: Block
    /** The head hash kept in the database. */
    var marker: Hash

    /** Stored headers are complete branches with their total difficulties. */
    ghost predicate Stored()
      reads this`headers, this`td
    {
      Weighed(headers, genesis, td) && Positive(headers)
    }

    /** The number index is exactly the ancestry of the current header, which is a heaviest one. */
    ghost predicate Indexed()
      reads this`headers, this`canon, this`current, this`marker
    {
      && Rooted(headers, genesis, current.hash) && headers[current.hash] == current && marker == current.hash
      && IndexOf(canon, Chain(headers, genesis, current.hash))
    }

    constructor (g: Block)
      requires g.number == 0
      ensures Stored() && Indexed() && Heaviest(td, current.hash)
      ensures headers == map[g.hash := g] && current == g && genesis == g.hash
    {
      genesis, headers, td := g.hash, map[g.hash := g], map[g.hash := g.difficulty];
      canon, current, marker := map[0 := g.hash], g, g.hash;
    }

    /** Works through a batch: headers already stored are skipped until the first new one. */
    method Collect(hs: seq<Block>) returns (batch: Store, batchTd: map<Hash, nat>, inserted: seq<Block>, first: int, newTd: nat)
      requires Weighed(headers, genesis, td) && Linked(hs) && Consistent(headers, hs) && |hs| > 0
      requires hs[0].parent in headers && headers[hs[0].parent].number + 1 == hs[0].number
      ensures var s, t, last := headers + batch, td + batchTd, hs[|hs| - 1];
              && Weighed(s, genesis, t) && Extends(headers, s) && last.hash in t && t[last.hash] == newTd
              && Drawn(headers, s, hs, |hs|)
      ensures -1 <= first < |hs| && (forall i :: 0 <= i < (if first < 0 then |hs| else first) ==> hs[i].hash in headers)
      ensures first < 0 ==> batch == map[] && batchTd == map[] && inserted == []
      ensures first >= 0 ==> hs[first].hash !in headers && inserted == hs[first..]
    {
      hide *;
      batch, batchTd, inserted, first := map[], map[], [], -1;
      WeighedAt(headers, genesis, td, hs[0].parent);
      NumberedAll(hs);
      newTd := td[hs[0].parent];
      var parentKnown := true;
      ghost var s, t := headers, td;
      StartDrawn(headers, hs);
      for i := 0 to |hs|
        invariant s == headers + batch && t == td + batchTd
        invariant -1 <= first < i || first == -1
        invariant parentKnown <==> first < 0
        invariant forall j :: 0 <= j < (if first < 0 then i else first) ==> hs[j].hash in headers
        invariant first < 0 ==> batch == map[] && batchTd == map[] && inserted == []
        invariant first >= 0 ==> hs[first].hash !in headers && inserted == hs[first..i]
        invariant Weighed(s, genesis, t) && Extends(headers, s) && Drawn(headers, s, hs, i)
        invariant var tip := if i == 0 then hs[0].parent else hs[i - 1].hash;
                  tip in s && tip in t && t[tip] == newTd && s[tip].number + 1 == hs[0].number + i
      {
        var header := hs[i];
        CollectStep(headers, s, t, genesis, hs, i);
        newTd := newTd + header.difficulty;
        var alreadyKnown := parentKnown && header.hash in headers && headers[header.hash].number == header.number;
        if !alreadyKnown {
          MergeUpdate(td, batchTd, header.hash, newTd);
          MergeUpdate(headers, batch, header.hash, header);
          batchTd := batchTd[header.hash := newTd];
          batch := batch[header.hash := header];
          s, t := s[header.hash := header], t[header.hash := newTd];
          inserted := inserted + [header];
          if first < 0 {
            first := i;
          }
        }
        parentKnown := alreadyKnown;
      }
    }

    /** Walks back from a stored header until the index agrees, collecting exactly the entries above the fork. */
    method Rewind(h: Hash) returns (puts: map<nat, Hash>)
      requires Weighed(headers, genesis, td) && Indexed() && h in headers
      ensures Rooted(headers, genesis, h)
      ensures var o, p := Chain(headers, genesis, current.hash), Chain(headers, genesis, h);
              PutsOf(puts, p, Fork(o, p), |p|)
    {
      hide Weighed, Rooted, Chain, PathSum, Fork;
      puts := map[];
      WeighedAt(headers, genesis, td, h);
      ghost var p := Chain(headers, genesis, h);
      var headHash, headNumber := h, headers[h].number;
      ForkReached(headers, genesis, current.hash, h, headNumber);
      while !(headNumber in canon && canon[headNumber] == headHash)
        invariant 0 <= headNumber < |p| && headHash == p[headNumber]
        invariant Fork(Chain(headers, genesis, current.hash), p) <= headNumber + 1
        invariant PutsOf(puts, p, headNumber + 1, |p|)
        decreases headNumber
      {
        RewindStep(headers, genesis, current.hash, h, headNumber);
        puts := puts[headNumber := headHash];
        headHash := headers[headHash].parent;
        headNumber := headNumber - 1;
      }
      ForkReached(headers, genesis, current.hash, h, headNumber);
    }

    /** Adds the entries of consecutive headers. */
    method AddEntries(puts: map<nat, Hash>, hs: seq<Block>, ghost o: seq<Hash>, ghost n: seq<Hash>, ghost dels: set<nat>, ghost lo: nat, ghost hi: nat)
      returns (more: map<nat, Hash>)
      requires Rewrites(o, n, puts, dels, lo, hi) && Follows(hs, n, hi)
      ensures Rewrites(o, n, more, dels, lo, hi + |hs|)
    {
      more := puts;
      for i := 0 to |hs|
        invariant Rewrites(o, n, more, dels, lo, hi + i)
      {
        more := more[hs[i].number := hs[i].hash];
      }
    }

    /** The changes a batch needs that does not continue the current header, its first `known` headers included. */
    method Retrace(hs: seq<Block>, known: nat) returns (puts: map<nat, Hash>, dels: set<nat>)
      requires Weighed(headers, genesis, td) && Indexed() && Batch(headers, hs) && known <= |hs| && |hs| > 0
      ensures Rooted(headers, genesis, hs[|hs| - 1].hash)
      ensures var o, n := Chain(headers, genesis, current.hash), Chain(headers, genesis, hs[|hs| - 1].hash);
              Rewrites(o, n, puts, dels, Shared(o, n, hs[0].number), hs[0].number + known)
    {
      hide Weighed, Rooted, Chain, PathSum, PutsOf, IndexOf, Batch, Follows, Rewrites, Fork, Shared;
      ghost var o := Chain(headers, genesis, current.hash);
      BatchOnChain(headers, genesis, td, hs);
      ghost var n := Chain(headers, genesis, hs[|hs| - 1].hash);
      IndexDomain(canon, o);
      dels := EntriesAbove(canon, hs[|hs| - 1].number, |o|);
      puts := Rewind(hs[0].parent);
      ghost var lo := Shared(o, n, hs[0].number);
      SharedIsFork(o, n, hs[0].number);
      ParentEntries(puts, dels, Chain(headers, genesis, hs[0].parent), o, n, lo, hs[0].number);
      SliceFollows(hs, n, hs[0].number, 0, known);
      puts := AddEntries(puts, hs[..known], o, n, dels, lo, hs[0].number);
    }

    /** The index changes that take the head from the current header to the last one of a batch. */
    method Changes(hs: seq<Block>, inserted: seq<Block>, first: int) returns (puts: map<nat, Hash>, dels: set<nat>)
      requires Weighed(headers, genesis, td) && Indexed() && Batch(headers, hs)
      requires |hs| > 0 && -1 <= first < |hs| && inserted == (if first < 0 then [] else hs[first..])
      requires first != 0 ==> hs[0].parent != current.hash
      ensures Rooted(headers, genesis, hs[|hs| - 1].hash)
      ensures var o, n := Chain(headers, genesis, current.hash), Chain(headers, genesis, hs[|hs| - 1].hash);
              && Rewrites(o, n, puts, dels, Shared(o, n, hs[0].number), if first < 0 then hs[0].number else |n|)
              && hs[0].number < |n|
    {
      hide Weighed, Rooted, Chain, PathSum, PutsOf, IndexOf, Batch, Follows, Rewrites, Fork, Shared;
      ghost var o := Chain(headers, genesis, current.hash);
      BatchOnChain(headers, genesis, td, hs);
      ghost var n := Chain(headers, genesis, hs[|hs| - 1].hash);
      var known := if first < 0 then 0 else first;
      ghost var lo := Shared(o, n, hs[0].number);
      if hs[0].parent != current.hash {
        puts, dels := Retrace(hs, known);
      } else {
        puts, dels := map[], {};
        NothingToRewrite(o, n);
      }
      if first >= 0 {
        SliceFollows(hs, n, hs[0].number, first, |hs|);
        puts := AddEntries(puts, inserted, o, n, dels, lo, hs[0].number + known);
      }
    }

    /** Moves the index and the head to the last header of a stored batch. */
    method Mark(hs: seq<Block>, inserted: seq<Block>, first: int)
      requires Stored() && Indexed() && Batch(headers, hs)
      requires |hs| > 0 && -1 <= first < |hs| && inserted == (if first < 0 then [] else hs[first..])
      requires first != 0 ==> hs[0].parent != current.hash
      requires hs[|hs| - 1].hash in td && current.hash in td && (first < 0 ==> td[hs[|hs| - 1].hash] >= td[current.hash])
      modifies this`canon, this`current, this`marker
      ensures current == hs[|hs| - 1]
      ensures Indexed() <==> first >= 0 || current == old(current)
    {
      hide Weighed, Rooted, Chain, PathSum, PutsOf, IndexOf, Positive, Batch, Rewrites;
      BatchStored(headers, hs);
      var last := hs[|hs| - 1];
      var puts, dels := Changes(hs, inserted, first);
      ghost var o, n := Chain(headers, genesis, current.hash), Chain(headers, genesis, last.hash);
      ghost var lo := Shared(o, n, hs[0].number);
      if first >= 0 {
        AllMarked(o, n, canon, dels, puts, lo);
        marker := last.hash;
      } else {
        NothingMarked(headers, genesis, td, current.hash, last.hash, canon, dels, puts, lo, hs[0].number);
      }
      canon := canon - dels + puts;
      current := last;
    }

    /**
     Stores a batch of linked headers and, when it weighs more than the current header (or ties and
     is lower, or ties at the same number and the coin says so), makes its last header current.
     Whatever happens the stored headers stay complete and weighed, and a current header that is a
     heaviest one is followed by a heaviest one. The index is the ancestry of the current header
     afterwards, except when a batch with nothing new moves the head to another header.
     */
    method WriteHeaders(hs: seq<Block>, interrupted: bool, coin: bool) returns (status: WriteStatus)
      requires Stored() && Indexed() && Childless(headers, current.hash)
      requires Linked(hs) && Consistent(headers, hs) && forall i :: 0 <= i < |hs| ==> hs[i].difficulty > 0
      modifies this
      ensures Stored() && current.hash in headers && headers[current.hash] == current
      ensures Indexed() ==> Childless(headers, current.hash)
      ensures old(Heaviest(td, current.hash)) ==> Heaviest(td, current.hash)
      ensures status.Empty? <==> hs == []
      ensures status.UnknownAncestor? <==> hs != [] && GetBlock(old(headers), hs[0].parent, hs[0].number - 1).None?
      ensures status.Aborted? <==> !status.Empty? && !status.UnknownAncestor? && interrupted
      ensures status.Empty? || status.UnknownAncestor? || status.Aborted? ==>
                headers == old(headers) && td == old(td) && canon == old(canon) && current == old(current) && Indexed()
      ensures status.NonStat? || status.Canon? || status.Side? ==>
                && Extends(old(headers), headers) && Drawn(old(headers), headers, hs, |hs|)
                && (status.NonStat? <==> forall i :: 0 <= i < |hs| ==> hs[i].hash in old(headers))
                && (var last := hs[|hs| - 1];
                    && last.hash in td && old(current).hash in td
                    && (var reorg := td[last.hash] > td[old(current).hash] || (td[last.hash] == td[old(current).hash] && TieBreak(last, old(current), coin));
                        && current == (if reorg then last else old(current))
                        && (!status.NonStat? ==> (status.Canon? <==> reorg))))
                && (Indexed() <==> !status.NonStat? || current == old(current))
    {
      hide Weighed, Rooted, Chain, PathSum, PutsOf, Linked, Drawn, IndexOf, Heaviest, Positive, Extends, Batch, Childless;
      RootedStored(headers, genesis, current.hash);
      if |hs| == 0 {
        return Empty;
      }
      if GetBlock(headers, hs[0].parent, hs[0].number - 1).None? {
        return UnknownAncestor;
      }
      var batch, batchTd, inserted, first, newTd := Collect(hs);
      if interrupted {
        return Aborted;
      }
      ghost var s0, t0 := headers, td;
      headers, td := headers + batch, td + batchTd;
      var last := hs[|hs| - 1];
      StoredMore(s0, t0, headers, td, genesis, current, hs);
      BatchDrawn(s0, headers, hs);
      NoKnownChild(s0, current.hash, hs[0]);
      LastWeighed(headers, genesis, td, hs);
      var head := current;
      var localTd := td[head.hash];
      var reorg := newTd > localTd || (newTd == localTd && TieBreak(last, head, coin));
      status := if inserted == [] then NonStat else Side;
      if reorg {
        Mark(hs, inserted, first);
        status := if inserted == [] then NonStat else Canon;
      }
      StaysHeaviest(s0, t0, headers, td, genesis, head.hash, hs, current.hash);
      StaysChildless(s0, t0, headers, td, genesis, head.hash, hs, first, current.hash);
    }

    /**
     The ancestor `ancestor` generations above the header `hash` with number `number`: walks
     parents until the canonical chain is met and reads the rest from the index, at most
     `budget` parents. No result stands for the zero hash.
     */
    method GetAncestor(hash: Hash, number: nat, ancestor: nat, budget: nat) returns (r: Option<Hash>, at: nat, left: nat)
      requires Weighed(headers, genesis, td) && Indexed()
      ensures r.Some? ==> ancestor <= number && at == number - ancestor
      ensures ancestor == 0 ==> r == Some(hash) && left == budget
      ensures ancestor > number ==> r == None
      ensures 0 < ancestor <= number && GetBlock(headers, hash, number).None? ==> r == None
      ensures 0 < ancestor <= number && GetBlock(headers, hash, number).Some? ==>
                && Rooted(headers, genesis, hash)
                && (var h := Chain(headers, genesis, hash);
                    var off := number + 1 - Fork(Chain(headers, genesis, current.hash), h);
                    var walked := if ancestor == 1 then 0 else if off < ancestor then off else ancestor;
                    && (r.Some? <==> walked <= budget)
                    && (r.Some? ==> r.value == h[number - ancestor] && left == budget - walked))
    {
      hide Weighed, Rooted, Chain, PathSum, IndexOf, Fork;
      left := budget;
      if ancestor > number {
        return None, 0, left;
      }
      if GetBlock(headers, hash, number).Some? {
        WeighedAt(headers, genesis, td, hash);
      }
      if ancestor == 1 {
        if GetBlock(headers, hash, number).Some? {
          ChainLink(headers, genesis, hash, number);
          return Some(headers[hash].parent), number - 1, left;
        }
        return None, 0, left;
      }
      var x: Hash, n: nat, a: nat := hash, number, ancestor;
      while a != 0
        invariant a <= ancestor && n == number - (ancestor - a) && left + (ancestor - a) == budget
        invariant a < ancestor ==> GetBlock(headers, hash, number).Some?
        invariant GetBlock(headers, hash, number).None? ==> x == hash
        invariant GetBlock(headers, hash, number).Some? ==>
                    && Rooted(headers, genesis, hash) && x == Chain(headers, genesis, hash)[n]
                    && n + 1 >= Fork(Chain(headers, genesis, current.hash), Chain(headers, genesis, hash))
        decreases a
      {
        AncestorStep(headers, genesis, td, current.hash, canon, hash, number, x, n, a);
        if n in canon && canon[n] == x {
          return Some(canon[n - a]), n - a, left;
        }
        if left == 0 {
          return None, 0, left;
        }
        left := left - 1;
        a := a - 1;
        if GetBlock(headers, x, n).None? {
          return None, 0, left;
        }
        x := headers[x].parent;
        n := n - 1;
      }
      return Some(x), n, left;
    }

    /** Collects the stored headers above `number` and their numbers. */
    method Leftovers(number: nat) returns (dead: set<Hash>, nums: set<nat>)
      requires Weighed(headers, genesis, td)
      ensures dead == Above(headers, number) && forall n: nat :: n in nums ==> number < n
    {
      hide Weighed;
      dead, nums := {}, {};
      var n := number + 1;
      while AtNumber(headers, n) != {}
        invariant number < n && dead == Above(headers, number) - Above(headers, n - 1)
        invariant forall x: nat :: x in nums ==> number < x
        decreases |Above(headers, n - 1)|
      {
        Shrinks(headers, n);
        dead := dead + AtNumber(headers, n);
        nums := nums + {n};
        n := n + 1;
      }
      NoneAbove(headers, genesis, td, n);
    }

    /**
     Rewinds the head to number `head`: every stored header above it goes, on all branches, and
     the current header becomes the ancestor with that number.
     */
    method SetHead(head: nat)
      requires Stored() && Indexed()
      modifies this
      ensures Stored() && Indexed()
      ensures old(current).number <= head ==>
                headers == old(headers) && td == old(td) && canon == old(canon) && current == old(current)
      ensures old(current).number > head ==>
                && headers == old(headers) - Above(old(headers), head) && td == old(td) - Above(old(headers), head)
                && current.hash == Chain(old(headers), genesis, old(current).hash)[head]
      ensures old(current).number > head || old(Childless(headers, current.hash)) ==> Childless(headers, current.hash)
      ensures NumberRule(old(headers)) && (old(current).number > head || old(Heaviest(td, current.hash))) ==> Heaviest(td, current.hash)
    {
      hide Weighed, Rooted, Chain, PathSum, IndexOf, Positive, Above, AtNumber, Childless, NumberRule, Heaviest;
      var dead: set<Hash>, nums: set<nat>, origin := {}, {}, true;
      ghost var o, cur := Chain(headers, genesis, current.hash), current.hash;
      RootedStored(headers, genesis, cur);
      while current.number > head
        invariant headers == old(headers) && td == old(td) && canon == old(canon)
        invariant current.number < |o| && current.hash == o[current.number] && current.hash in headers && headers[current.hash] == current
        invariant marker == current.hash
        invariant origin ==> current == old(current) && dead == {} && nums == {}
        invariant !origin ==> head < old(current).number && head <= current.number && dead == Above(headers, current.number)
        invariant forall n: nat :: (current.number < n < |o| ==> n in nums) && (n in nums ==> current.number < n)
        decreases current.number
      {
        var num := current.number;
        WeighedAt(headers, genesis, td, cur);
        ParentStored(headers, genesis, cur, num);
        AboveStep(headers, num);
        if origin {
          dead, nums := Leftovers(num);
          origin := false;
        }
        dead := dead + AtNumber(headers, num);
        nums := nums + {num};
        current := headers[current.parent];
        marker := current.hash;
      }
      if !origin {
        Rewound(headers, genesis, td, cur, head, canon, nums);
        headers, td, canon := headers - dead, td - dead, canon - nums;
        TopmostIsHeaviest(old(headers), headers, genesis, td, current.hash, head);
      }
    }

    /**
     A run of batches and rewinds over the headers `u`. The stored headers stay complete and weighed. The
     index stays the ancestry of the current header up to the first batch that moves the head with
     nothing new in it, where the run ends. By the consensus rule the current header stays a heaviest
     one along the run, and only a batch that wins the coin can end it.
     */
    method Run(moves: seq<Move>, ghost u: Store) returns (taken: nat)
      requires Stored() && Indexed() && Childless(headers, current.hash)
      requires Extends(headers, u) && forall i :: 0 <= i < |moves| ==> Meant(u, moves[i])
      modifies this
      ensures Stored() && Extends(headers, u) && taken <= |moves|
      ensures Indexed() ==> taken == |moves| && Childless(headers, current.hash)
      ensures !Indexed() ==> taken > 0 && KnownMove(headers, current, moves[taken - 1])
      ensures NumberRule(u) && old(Heaviest(td, current.hash)) ==> Heaviest(td, current.hash) && (!Indexed() ==> moves[taken - 1].coin)
    {
      hide Weighed, Rooted, Chain, PathSum, IndexOf, Positive, Childless, NumberRule, Heaviest, Extends, Drawn, Meant, Above, KnownMove, Linked;
      taken := 0;
      while taken < |moves|
        invariant taken <= |moves|
        invariant Stored() && Indexed() && Childless(headers, current.hash) && Extends(headers, u)
        invariant NumberRule(u) && old(Heaviest(td, current.hash)) ==> Heaviest(td, current.hash)
      {
        var before, m := current, moves[taken];
        ghost var s0, t0 := headers, td;
        RootedStored(headers, genesis, current.hash);
        taken := taken + 1;
        match m {
          case Cut(head) =>
            RuleBelow(u, headers);
            SetHead(head);
            CutFrom(u, s0, headers, head);
          case Write(hs, interrupted, coin) =>
            MeantBatch(u, headers, hs, interrupted, coin);
            var status := WriteHeaders(hs, interrupted, coin);
            if status.NonStat? || status.Canon? || status.Side? {
              WrittenFrom(u, s0, headers, hs, interrupted, coin);
              if status.NonStat? && current != before {
                KnownBatchMoves(u, s0, t0, headers, td, genesis, before, hs, interrupted, coin);
                return;
              }
            }
        }
      }
    }
  }

  /** A batch of headers arriving, or a rewind to a number. */
  datatype Move = Write(hs: seq<Block>, interrupted: bool, coin: bool) | Cut(head: nat)

  /** A batch consists of linked headers of `u` with positive difficulties. */
  ghost predicate Meant(u: Store, m: Move) {
    m.Write? ==> Linked(m.hs) && forall i :: 0 <= i < |m.hs| ==> m.hs[i].hash in u && u[m.hs[i].hash] == m.hs[i] && m.hs[i].difficulty > 0
  }

  /** A batch of stored headers that ends in the current one. */
  ghost predicate KnownMove(s: Store, cur: Block, m: Move) {
    && m.Write? && m.hs != [] && cur == m.hs[|m.hs| - 1]
    && forall i :: 0 <= i < |m.hs| ==> m.hs[i].hash in s && s[m.hs[i].hash] == m.hs[i]
  }

  lemma RuleBelow(u: Store, s: Store)
    requires Extends(s, u)
    ensures NumberRule(u) ==> NumberRule(s)
  {
  }

  lemma CutFrom(u: Store, s0: Store, s: Store, head: nat)
    requires Extends(s0, u) && (s == s0 || s == s0 - Above(s0, head))
    ensures Extends(s, u)
  {
  }

  lemma MeantBatch(u: Store, s: Store, hs: seq<Block>, interrupted: bool, coin: bool)
    requires Extends(s, u) && Meant(u, Write(hs, interrupted, coin))
    ensures Linked(hs) && Consistent(s, hs) && forall i :: 0 <= i < |hs| ==> hs[i].difficulty > 0
  {
    var m := Write(hs, interrupted, coin);
    assert m.hs == hs;
  }

  lemma WrittenFrom(u: Store, s0: Store, s: Store, hs: seq<Block>, interrupted: bool, coin: bool)
    requires Extends(s0, u) && Drawn(s0, s, hs, |hs|) && Meant(u, Write(hs, interrupted, coin))
    ensures Extends(s, u)
  {
    var m := Write(hs, interrupted, coin);
    assert m.hs == hs;
  }

  /** By the consensus rule a batch of known headers moves a heaviest head only to its own height, when the coin says so. */
  lemma KnownBatchMoves(u: Store, s0: Store, t0: map<Hash, nat>, s: Store, t: map<Hash, nat>, g: Hash, cur: Block, hs: seq<Block>,
                        interrupted: bool, coin: bool)
    requires Weighed(s0, g, t0) && Weighed(s, g, t) && Extends(s0, s) && Drawn(s0, s, hs, |hs|) && Extends(s, u) && hs != []
    requires forall i :: 0 <= i < |hs| ==> hs[i].hash in s0
    requires cur.hash in s0 && s0[cur.hash] == cur
    requires var last := hs[|hs| - 1];
             && last.hash in t && cur.hash in t
             && (t[last.hash] > t[cur.hash] || (t[last.hash] == t[cur.hash] && TieBreak(last, cur, coin)))
    ensures KnownMove(s, hs[|hs| - 1], Write(hs, interrupted, coin))
    ensures NumberRule(u) && Heaviest(t0, cur.hash) ==> coin
  {
    var last := hs[|hs| - 1];
    var m := Write(hs, interrupted, coin);
    assert m.hs == hs;
    hide Rooted, PathSum, Chain, Drawn;
    assert s[last.hash] == last by { DrawnLast(s0, s, hs); }
    PathSumGrows(s0, s, g, last.hash);
    PathSumGrows(s0, s, g, cur.hash);
    if NumberRule(u) && Heaviest(t0, cur.hash) {
      HeavierIsHigher(s, g, last.hash, cur.hash);
      HeavierIsHigher(s, g, cur.hash, last.hash);
    }
  }

  lemma DrawnLast(s0: Store, s: Store, hs: seq<Block>)
    requires Drawn(s0, s, hs, |hs|) && hs != []
    ensures forall i :: 0 <= i < |hs| ==> hs[i].hash in s && s[hs[i].hash] == hs[i]
  {
  }

  function AtNumber(s: Store, n: nat): set<Hash> {
    set h | h in s && s[h].number == n
  }

  function Above(s: Store, n: nat): set<Hash> {
    set h | h in s && s[h].number > n
  }

  lemma Shrinks(s: Store, n: nat)
    requires n > 0 && AtNumber(s, n) != {}
    ensures |Above(s, n)| < |Above(s, n - 1)|
    ensures Above(s, n - 1) == Above(s, n) + AtNumber(s, n) && Above(s, n) !! AtNumber(s, n)
  {
    assert Above(s, n - 1) == Above(s, n) + AtNumber(s, n);
  }

  lemma AboveStep(s: Store, n: nat)
    requires n > 0
    ensures Above(s, n - 1) == Above(s, n) + AtNumber(s, n)
  {
  }

  /** A number without headers has none above it either. */
  lemma NoneAbove(s: Store, g: Hash, td: map<Hash, nat>, n: nat)
    requires Weighed(s, g, td) && n > 0 && AtNumber(s, n) == {}
    ensures Above(s, n - 1) == {}
  {
    forall h | h in s ensures s[h].number < n {
      if s[h].number >= n { FilledBelow(s, g, h, n); }
    }
  }

  lemma FilledBelow(s: Store, g: Hash, h: Hash, n: nat)
    requires Rooted(s, g, h) && n <= s[h].number
    ensures AtNumber(s, n) != {}
  {
    ChainAt(s, g, h, n);
    assert Chain(s, g, h)[n] in AtNumber(s, n);
  }

  lemma ParentStored(s: Store, g: Hash, cur: Hash, n: nat)
    requires Rooted(s, g, cur) && 0 < n <= s[cur].number
    ensures var o := Chain(s, g, cur);
            o[n] in s && s[o[n]].parent == o[n - 1] && o[n - 1] in s && s[o[n - 1]].number == n - 1 && s[o[n - 1]].hash == o[n - 1]
  {
    ChainLink(s, g, cur, n);
    ChainAt(s, g, cur, n - 1);
  }

  /** Cutting off everything above a number keeps the lower part whole. */
  lemma Rewound(s: Store, g: Hash, td: map<Hash, nat>, cur: Hash, head: nat, canon: map<nat, Hash>, nums: set<nat>)
    requires Weighed(s, g, td) && Positive(s) && Rooted(s, g, cur) && head < s[cur].number && IndexOf(canon, Chain(s, g, cur))
    requires forall n: nat :: (head < n < |Chain(s, g, cur)| ==> n in nums) && (n in nums ==> head < n)
    ensures var s', x := s - Above(s, head), Chain(s, g, cur)[head];
            && Weighed(s', g, td - Above(s, head)) && Positive(s')
            && x in s' && Rooted(s', g, x) && IndexOf(canon - nums, Chain(s', g, x))
  {
    hide IndexOf, Rooted, Chain, PathSum, Weighed, Above;
    var o := Chain(s, g, cur);
    WeighedBelow(s, g, td, head);
    ChainAt(s, g, cur, head);
    LowerPart(s, g, o[head], head);
    RootedStored(s - Above(s, head), g, o[head]);
    FrontIndex(canon, o, head, nums);
  }

  /** Nothing is above the new head: it has no child, and by the consensus rule it is a heaviest header. */
  lemma TopmostIsHeaviest(s0: Store, s: Store, g: Hash, td: map<Hash, nat>, cur: Hash, head: nat)
    requires s == s0 - Above(s0, head) && Weighed(s, g, td) && cur in s && s[cur].number == head
    ensures Childless(s, cur) && (NumberRule(s0) ==> Heaviest(td, cur))
  {
    hide Rooted, PathSum;
    forall x | x in s && s[x].number > 0 ensures s[x].parent != cur { ParentBelow(s, g, x); }
    if NumberRule(s0) {
      forall x | x in td ensures td[x] <= td[cur] { HeavierIsHigher(s, g, x, cur); }
    }
  }

  lemma ParentBelow(s: Store, g: Hash, x: Hash)
    requires Rooted(s, g, x) && s[x].number > 0
    ensures s[x].parent in s && s[s[x].parent].number < s[x].number
  {
  }

  lemma WeighedBelow(s: Store, g: Hash, td: map<Hash, nat>, head: nat)
    requires Weighed(s, g, td)
    ensures Weighed(s - Above(s, head), g, td - Above(s, head))
  {
    hide Rooted, Chain, PathSum;
    var s' := s - Above(s, head);
    forall h | h in s' ensures Rooted(s', g, h) && PathSum(s', g, h) == PathSum(s, g, h) { LowerPart(s, g, h, head); }
  }

  lemma FrontIndex(canon: map<nat, Hash>, o: seq<Hash>, head: nat, nums: set<nat>)
    requires IndexOf(canon, o) && head < |o|
    requires forall n: nat :: (head < n < |o| ==> n in nums) && (n in nums ==> head < n)
    ensures IndexOf(canon - nums, o[..head + 1])
  {
  }

  lemma {:induction false} LowerPart(s: Store, g: Hash, h: Hash, head: nat)
    requires Rooted(s, g, h) && s[h].number <= head
    ensures var s' := s - Above(s, head);
            Rooted(s', g, h) && Chain(s', g, h) == Chain(s, g, h) && PathSum(s', g, h) == PathSum(s, g, h)
    decreases s[h].number
  {
    if s[h].number > 0 {
      LowerPart(s, g, s[h].parent, head);
    }
  }

  /** One step of the ancestor walk: on the canonical chain the index answers, off it the parent is next. */
  lemma AncestorStep(s: Store, g: Hash, td: map<Hash, nat>, cur: Hash, canon: map<nat, Hash>, hash: Hash, number: nat, x: Hash, n: nat, a: nat)
    requires Weighed(s, g, td) && Rooted(s, g, cur) && IndexOf(canon, Chain(s, g, cur)) && 0 < a <= n <= number
    requires GetBlock(s, hash, number).None? ==> x == hash && n == number
    requires GetBlock(s, hash, number).Some? ==>
               && Rooted(s, g, hash) && x == Chain(s, g, hash)[n]
               && n + 1 >= Fork(Chain(s, g, cur), Chain(s, g, hash))
    ensures GetBlock(s, hash, number).None? ==> !(n in canon && canon[n] == x)
    ensures GetBlock(s, hash, number).Some? ==>
              var h := Chain(s, g, hash);
              var k := Fork(Chain(s, g, cur), h);
              && (n in canon && canon[n] == x <==> n < k)
              && (n < k ==> n + 1 == k && n - a in canon && canon[n - a] == h[n - a])
              && GetBlock(s, x, n).Some? && s[x].parent == h[n - 1]
  {
    hide Fork;
    if GetBlock(s, hash, number).None? {
      if n in canon && canon[n] == x {
        ChainAt(s, g, cur, n);
      }
    } else {
      var o, h := Chain(s, g, cur), Chain(s, g, hash);
      ChainLink(s, g, hash, n);
      if n < |o| {
        ForkSplits(s, g, cur, hash, n);
        ForkSplits(s, g, cur, hash, n - a);
      }
    }
  }

  /** The linked headers of a batch are stored and continue a stored header. */
  ghost predicate Batch(s: Store, hs: seq<Block>) {
    && |hs| > 0 && Linked(hs) && hs[0].parent in s && s[hs[0].parent].number + 1 == hs[0].number
    && (forall i :: 0 <= i < |hs| ==> hs[i].hash in s && s[hs[i].hash] == hs[i])
  }

  lemma BatchStored(s: Store, hs: seq<Block>)
    requires Batch(s, hs)
    ensures |hs| > 0 && hs[|hs| - 1].hash in s && s[hs[|hs| - 1].hash] == hs[|hs| - 1]
  {
  }

  lemma BatchOnChain(s: Store, g: Hash, td: map<Hash, nat>, hs: seq<Block>)
    requires Batch(s, hs) && Weighed(s, g, td)
    ensures var last := hs[|hs| - 1];
            && hs[0].parent in s && Rooted(s, g, hs[0].parent) && Rooted(s, g, last.hash)
            && (var p, n := Chain(s, g, hs[0].parent), Chain(s, g, last.hash);
                && |n| == hs[0].number + |hs| && |p| == hs[0].number && n[..hs[0].number] == p && last.number == |n| - 1
                && Follows(hs, n, hs[0].number))
  {
    BatchChain(s, g, hs, hs[0].parent);
    Numbers(hs);
  }

  lemma {:induction false} Numbers(hs: seq<Block>)
    requires Linked(hs)
    ensures forall i :: 0 <= i < |hs| ==> hs[i].number == hs[0].number + i
  {
    if |hs| > 1 {
      Numbers(hs[..|hs| - 1]);
      assert forall i :: 0 <= i < |hs| - 1 ==> hs[..|hs| - 1][i] == hs[i];
      assert hs[|hs| - 2 + 1].number == hs[|hs| - 2].number + 1;
    }
  }

  /** The headers are the entries of chain `n` from position `hi` on. */
  ghost predicate Follows(hs: seq<Block>, n: seq<Hash>, hi: nat) {
    forall i :: 0 <= i < |hs| ==> hs[i].number == hi + i < |n| && n[hi + i] == hs[i].hash
  }

  lemma SliceFollows(hs: seq<Block>, n: seq<Hash>, hi: nat, from: nat, to: nat)
    requires Follows(hs, n, hi) && from <= to <= |hs|
    ensures Follows(hs[from..to], n, hi + from)
    ensures to == |hs| ==> hs[from..to] == hs[from..]
    ensures from == 0 ==> hs[from..to] == hs[..to]
  {
    forall i | 0 <= i < to - from ensures hs[from..to][i].number == hi + from + i < |n| && n[hi + from + i] == hs[from..to][i].hash {
      assert hs[from..to][i] == hs[from + i];
    }
  }

  lemma IndexDomain(canon: map<nat, Hash>, o: seq<Hash>)
    requires IndexOf(canon, o)
    ensures forall x: nat :: x in canon <==> x < |o|
  {
  }

  /** The changes that turn the index of chain `o` into that of chain `n`, as far as position `hi`. */
  ghost predicate Rewrites(o: seq<Hash>, n: seq<Hash>, puts: map<nat, Hash>, dels: set<nat>, lo: nat, hi: nat) {
    && lo <= |o| && lo <= hi <= |n| && o[..lo] == n[..lo] && PutsOf(puts, n, lo, hi)
    && (forall x: nat :: x in dels <==> |n| <= x < |o|)
  }

  /** How far two chains agree below position `k`. */
  ghost function Shared(o: seq<Hash>, n: seq<Hash>, k: nat): nat {
    if Fork(o, n) <= k then Fork(o, n) else k
  }

  lemma SharedIsFork(o: seq<Hash>, n: seq<Hash>, k: nat)
    requires k <= |n|
    ensures Shared(o, n, k) == Fork(o, n[..k]) && Shared(o, n, k) <= |o| && o[..Shared(o, n, k)] == n[..Shared(o, n, k)]
  {
    hide Fork;
    var f, m := Fork(o, n), Shared(o, n, k);
    FrontOfFront(o, f, m);
    FrontOfFront(n, f, m);
    FrontOfFront(n, k, m);
    ForkUnique(o, n[..k], m);
  }

  lemma FrontOfFront(s: seq<Hash>, k: nat, m: nat)
    requires m <= k <= |s|
    ensures s[..k][..m] == s[..m]
  {
  }

  lemma NothingToRewrite(o: seq<Hash>, n: seq<Hash>)
    requires |o| <= |n| && n[..|o|] == o
    ensures Rewrites(o, n, map[], {}, Shared(o, n, |o|), |o|)
  {
    assert o[..|o|] == o;
    ForkUnique(o, n, |o|);
  }

  /** Where the walk back stands relative to the fork. */
  lemma ForkReached(s: Store, g: Hash, cur: Hash, h: Hash, i: nat)
    requires Rooted(s, g, cur) && Rooted(s, g, h) && i <= s[h].number
    ensures var o, p := Chain(s, g, cur), Chain(s, g, h);
            && Fork(o, p) <= |p| && (i < |o| && o[i] == p[i] ==> i < Fork(o, p))
  {
    if i <= s[cur].number {
      ForkSplits(s, g, cur, h, i);
    }
  }

  lemma ParentEntries(puts: map<nat, Hash>, dels: set<nat>, p: seq<Hash>, o: seq<Hash>, n: seq<Hash>, lo: nat, hi: nat)
    requires hi <= |n| && n[..hi] == p && lo <= hi && lo <= |o| && o[..lo] == p[..lo] && PutsOf(puts, p, lo, hi)
    requires forall x: nat :: x in dels <==> |n| <= x < |o|
    ensures Rewrites(o, n, puts, dels, lo, hi)
  {
    assert n[..lo] == p[..lo];
    assert forall x :: 0 <= x < hi ==> n[x] == p[x];
  }

  /** All entries written: the index is the new chain. */
  lemma AllMarked(o: seq<Hash>, n: seq<Hash>, canon: map<nat, Hash>, dels: set<nat>, puts: map<nat, Hash>, lo: nat)
    requires IndexOf(canon, o) && Rewrites(o, n, puts, dels, lo, |n|)
    ensures IndexOf(canon - dels + puts, n)
  {
    assert forall x :: 0 <= x < lo ==> o[..lo][x] == o[x] && n[..lo][x] == n[x];
  }

  /** No entries of the batch written: the index is right only when the head does not move. */
  lemma NothingMarked(s: Store, g: Hash, td: map<Hash, nat>, cur: Hash, last: Hash, canon: map<nat, Hash>,
                      dels: set<nat>, puts: map<nat, Hash>, lo: nat, hi: nat)
    requires Weighed(s, g, td) && Positive(s) && Rooted(s, g, cur) && Rooted(s, g, last) && td[last] >= td[cur]
    requires var o, n := Chain(s, g, cur), Chain(s, g, last);
             IndexOf(canon, o) && hi < |n| && Rewrites(o, n, puts, dels, lo, hi)
    ensures IndexOf(canon - dels + puts, Chain(s, g, last)) <==> last == cur
  {
    var o, n := Chain(s, g, cur), Chain(s, g, last);
    var m := canon - dels + puts;
    if last == cur {
      assert IndexOf(m, n);
    } else if IndexOf(m, n) {
      var i := |n| - 1;
      assert i in m && i !in puts;
      assert o[i] == last;
      if i < |o| - 1 {
        AncestorLighter(s, g, cur, i);
      }
    }
  }

  lemma RewindStep(s: Store, g: Hash, cur: Hash, h: Hash, i: nat)
    requires Rooted(s, g, cur) && Rooted(s, g, h) && i <= s[h].number
    requires !(i <= s[cur].number && Chain(s, g, cur)[i] == Chain(s, g, h)[i])
    requires Fork(Chain(s, g, cur), Chain(s, g, h)) <= i + 1
    ensures Fork(Chain(s, g, cur), Chain(s, g, h)) <= i
    ensures i > 0 && Chain(s, g, h)[i] in s && s[Chain(s, g, h)[i]].parent == Chain(s, g, h)[i - 1]
  {
    if i <= s[cur].number {
      ForkSplits(s, g, cur, h, i);
    }
    if i == 0 {
      ChainAt(s, g, cur, 0);
      ChainAt(s, g, h, 0);
    } else {
      ChainLink(s, g, h, i);
    }
  }

  lemma WeighedAt(s: Store, g: Hash, td: map<Hash, nat>, h: Hash)
    requires Weighed(s, g, td) && h in s
    ensures h in td && s[h].hash == h && Rooted(s, g, h) && td[h] == PathSum(s, g, h)
  {
  }

  lemma MergeUpdate<V>(m: map<Hash, V>, n: map<Hash, V>, h: Hash, v: V)
    ensures m + n[h := v] == (m + n)[h := v]
  {
  }

  /** `s` holds the headers of `s0` and of the first `i` in the batch, and nothing else. */
  ghost predicate Drawn(s0: Store, s: Store, hs: seq<Block>, i: nat) {
    && i <= |hs|
    && (forall j :: 0 <= j < i ==> hs[j].hash in s && s[hs[j].hash] == hs[j])
    && (forall h :: h in s ==> (h in s0 && s0[h] == s[h]) || exists j :: 0 <= j < i && hs[j] == s[h] && hs[j].hash == h)
  }

  lemma StartDrawn(s: Store, hs: seq<Block>)
    ensures Drawn(s, s, hs, 0) && Extends(s, s)
  {
  }

  lemma {:induction false} NumberedAll(hs: seq<Block>)
    requires Linked(hs)
    ensures forall i :: 0 < i < |hs| ==> hs[i].parent == hs[i - 1].hash && hs[i].number == hs[0].number + i
  {
    if |hs| > 1 {
      NumberedAll(hs[..|hs| - 1]);
      var last := |hs| - 2;
      assert hs[last + 1].parent == hs[last].hash && hs[last + 1].number == hs[last].number + 1;
      assert last > 0 ==> hs[..|hs| - 1][last] == hs[last];
    }
  }

  lemma CollectStep(s0: Store, s: Store, t: map<Hash, nat>, g: Hash, hs: seq<Block>, i: nat)
    requires i < |hs| && Consistent(s0, hs) && Weighed(s, g, t) && Extends(s0, s) && Drawn(s0, s, hs, i)
    requires hs[i].parent in s && s[hs[i].parent].number + 1 == hs[i].number
    ensures var b := hs[i];
            && hs[i].parent in t
            && Weighed(s[b.hash := b], g, t[b.hash := t[b.parent] + b.difficulty]) && Extends(s0, s[b.hash := b])
            && Drawn(s0, s[b.hash := b], hs, i + 1)
            && (b.hash in s0 ==> b.hash in s && s0[b.hash] == b)
            && (b.hash in s ==> s[b.hash] == b && b.hash in t && t[b.hash] == t[b.parent] + b.difficulty && Drawn(s0, s, hs, i + 1))
  {
    hide Rooted, PathSum;
    var b := hs[i];
    assert Addressed(s, b);
    BlockWeighed(s, g, t, b);
  }

  lemma StoredMore(s0: Store, t0: map<Hash, nat>, s: Store, t: map<Hash, nat>, g: Hash, cur: Block, hs: seq<Block>)
    requires Weighed(s, g, t) && Extends(s0, s) && Drawn(s0, s, hs, |hs|) && Positive(s0)
    requires forall i :: 0 <= i < |hs| ==> hs[i].difficulty > 0
    requires Rooted(s0, g, cur.hash) && s0[cur.hash] == cur
    ensures Positive(s) && Rooted(s, g, cur.hash) && Chain(s, g, cur.hash) == Chain(s0, g, cur.hash)
    ensures cur.hash in s && s[cur.hash] == cur && cur.hash in t
  {
    ChainGrows(s0, s, g, cur.hash);
  }

  lemma BatchDrawn(s0: Store, s: Store, hs: seq<Block>)
    requires Extends(s0, s) && Drawn(s0, s, hs, |hs|) && Linked(hs) && |hs| > 0
    requires hs[0].parent in s0 && s0[hs[0].parent].number + 1 == hs[0].number
    ensures Batch(s, hs)
  {
  }

  lemma NoKnownChild(s: Store, cur: Hash, b: Block)
    requires Childless(s, cur) && Addressed(s, b) && b.number > 0
    ensures b.hash in s ==> b.parent != cur
  {
  }

  /** A heaviest header has no stored child. */
  lemma HeaviestIsChildless(s: Store, g: Hash, td: map<Hash, nat>, cur: Hash)
    requires Weighed(s, g, td) && Positive(s) && Heaviest(td, cur)
    ensures Childless(s, cur)
  {
    forall x | x in s && s[x].number > 0 ensures s[x].parent != cur {
      assert Rooted(s, g, x);
      BlockWeighed(s, g, td, s[x]);
    }
  }

  lemma LastWeighed(s: Store, g: Hash, td: map<Hash, nat>, hs: seq<Block>)
    requires Batch(s, hs) && Weighed(s, g, td)
    ensures hs[|hs| - 1].hash in td
  {
  }

  /** Every stored header weighs at most the old head or the last header of the batch. */
  lemma Outweighed(s0: Store, t0: map<Hash, nat>, s: Store, t: map<Hash, nat>, g: Hash, cur: Hash, hs: seq<Block>)
    requires Weighed(s0, g, t0) && Weighed(s, g, t) && Extends(s0, s) && Drawn(s0, s, hs, |hs|) && Batch(s, hs) && Positive(s)
    requires Heaviest(t0, cur)
    ensures cur in t && hs[|hs| - 1].hash in t
    ensures forall h :: h in t ==> t[h] <= t[cur] || t[h] <= t[hs[|hs| - 1].hash]
  {
    hide Rooted, PathSum, Chain;
    PathSumGrows(s0, s, g, cur);
    BatchOnChain(s, g, t, hs);
    forall h | h in t ensures t[h] <= t[cur] || t[h] <= t[hs[|hs| - 1].hash] {
      OutweighedAt(s0, t0, s, t, g, cur, hs, h);
    }
  }

  lemma OutweighedAt(s0: Store, t0: map<Hash, nat>, s: Store, t: map<Hash, nat>, g: Hash, cur: Hash, hs: seq<Block>, h: Hash)
    requires Weighed(s0, g, t0) && Weighed(s, g, t) && Extends(s0, s) && Drawn(s0, s, hs, |hs|) && Batch(s, hs) && Positive(s)
    requires Heaviest(t0, cur) && h in t && cur in t && t[cur] == t0[cur] && hs[|hs| - 1].hash in t
    ensures t[h] <= t[cur] || t[h] <= t[hs[|hs| - 1].hash]
  {
    hide Rooted, PathSum, Chain, Batch, Positive, Drawn;
    if h in s0 {
      PathSumGrows(s0, s, g, h);
    } else {
      BatchOnChain(s, g, t, hs);
      var j := DrawnFrom(s0, s, hs, h);
      if j < |hs| - 1 {
        AncestorLighter(s, g, hs[|hs| - 1].hash, hs[0].number + j);
      }
    }
  }

  lemma DrawnFrom(s0: Store, s: Store, hs: seq<Block>, h: Hash) returns (j: nat)
    requires Drawn(s0, s, hs, |hs|) && h in s && h !in s0
    ensures j < |hs| && hs[j] == s[h] && hs[j].hash == h
  {
    j :| 0 <= j < |hs| && hs[j] == s[h] && hs[j].hash == h;
  }

  lemma HeaviestNow(t: map<Hash, nat>, cur: Hash, last: Hash, now: Hash)
    requires cur in t && last in t && (now == cur || now == last) && t[cur] <= t[now] && t[last] <= t[now]
    requires forall h :: h in t ==> t[h] <= t[cur] || t[h] <= t[last]
    ensures Heaviest(t, now)
  {
  }

  lemma StaysHeaviest(s0: Store, t0: map<Hash, nat>, s: Store, t: map<Hash, nat>, g: Hash, cur: Hash, hs: seq<Block>, now: Hash)
    requires Weighed(s0, g, t0) && Weighed(s, g, t) && Extends(s0, s) && Drawn(s0, s, hs, |hs|) && Batch(s, hs) && Positive(s)
    requires cur in t && hs[|hs| - 1].hash in t && (now == cur || now == hs[|hs| - 1].hash) && t[cur] <= t[now] && t[hs[|hs| - 1].hash] <= t[now]
    ensures Heaviest(t0, cur) ==> Heaviest(t, now)
  {
    BatchStored(s, hs);
    hide Weighed, Extends, Drawn, Batch, Positive, Heaviest;
    if Heaviest(t0, cur) {
      Outweighed(s0, t0, s, t, g, cur, hs);
      HeaviestNow(t, cur, hs[|hs| - 1].hash, now);
    }
  }

  /** A header stored before the batch is no child of the head. */
  lemma KnownChild(s0: Store, t0: map<Hash, nat>, s: Store, t: map<Hash, nat>, g: Hash, cur: Hash, hs: seq<Block>, first: nat, now: Hash, x: Hash)
    requires Weighed(s0, g, t0) && Weighed(s, g, t) && Extends(s0, s) && Batch(s, hs) && Childless(s0, cur)
    requires first < |hs| && hs[first].hash !in s0 && (now == cur || now == hs[|hs| - 1].hash) && x in s0 && s[x].number > 0
    ensures s[x].parent != now
  {
    hide PathSum, Chain, Batch;
    if s[x].parent == hs[|hs| - 1].hash {
      var last := hs[|hs| - 1];
      assert Rooted(s0, g, last.hash);
      hide Rooted, Weighed;
      BatchOnChain(s, g, t, hs);
      ChainGrows(s0, s, g, last.hash);
      ChainAt(s0, g, last.hash, hs[first].number);
      assert false;
    }
  }

  /** A header of the batch is a child of the old head only if the batch outweighs it. */
  lemma NewChild(s: Store, t: map<Hash, nat>, g: Hash, cur: Hash, hs: seq<Block>, now: Hash, j: nat)
    requires Weighed(s, g, t) && Batch(s, hs) && Positive(s) && j < |hs| && hs[j].number > 0
    requires cur in t && hs[|hs| - 1].hash in t && ((now == cur && t[hs[|hs| - 1].hash] <= t[cur]) || now == hs[|hs| - 1].hash)
    ensures hs[j].parent != now
  {
    hide Rooted, PathSum, Chain, Batch;
    var last := hs[|hs| - 1];
    BatchOnChain(s, g, t, hs);
    BatchStored(s, hs);
    ChainLink(s, g, last.hash, hs[j].number);
    BlockAbove(s, g, t, hs, j);
    if hs[j].parent == now {
      if j < |hs| - 1 {
        AncestorLighter(s, g, last.hash, hs[j].number);
      }
    }
  }

  lemma BlockAbove(s: Store, g: Hash, t: map<Hash, nat>, hs: seq<Block>, j: nat)
    requires Weighed(s, g, t) && Batch(s, hs) && Positive(s) && j < |hs| && hs[j].number > 0
    ensures var b := hs[j];
            && b.hash in s && s[b.hash] == b && b.hash in t && b.parent in s && b.parent in t
            && t[b.parent] < t[b.hash] && s[b.parent].number < b.number <= hs[|hs| - 1].number
  {
    Numbers(hs);
    assert Rooted(s, g, hs[j].hash);
  }

  /** A new head has no child, and a head that stays gets none. */
  lemma StaysChildless(s0: Store, t0: map<Hash, nat>, s: Store, t: map<Hash, nat>, g: Hash, cur: Hash, hs: seq<Block>, first: int, now: Hash)
    requires Weighed(s, g, t) && Extends(s0, s) && Drawn(s0, s, hs, |hs|) && Batch(s, hs) && Positive(s) && Childless(s0, cur)
    requires Weighed(s0, g, t0) && -1 <= first < |hs| && (first >= 0 ==> hs[first].hash !in s0) && (first < 0 ==> s == s0)
    requires cur in t && hs[|hs| - 1].hash in t && ((now == cur && t[hs[|hs| - 1].hash] <= t[cur]) || now == hs[|hs| - 1].hash)
    ensures first >= 0 || now == cur ==> Childless(s, now)
  {
    hide Weighed, Batch, Drawn, Positive;
    if first >= 0 {
      forall x | x in s && s[x].number > 0 && s[x].parent == now ensures false {
        if x in s0 {
          KnownChild(s0, t0, s, t, g, cur, hs, first, now, x);
        } else {
          var j := DrawnFrom(s0, s, hs, x);
          NewChild(s, t, g, cur, hs, now, j);
        }
      }
    }
  }

  /** Two siblings of equal weight: storing the second again, with nothing new in the batch, breaks the index. */
  method KnownSiblingBreaksIndex() returns (hc: HeaderChain)
    ensures hc.Stored() && !hc.Indexed()
  {
    hide Rooted, Chain, PathSum, IndexOf, Weighed, Heaviest, Positive, Extends, Drawn, Childless;
    var g, a, b := Block(0, 9, 0, 1, []), Block(1, 0, 1, 1, []), Block(2, 0, 1, 1, []);
    hc := new HeaderChain(g);
    HeaviestIsChildless(hc.headers, hc.genesis, hc.td, g.hash);
    ghost var h0 := hc.headers;
    var s1 := hc.WriteHeaders([a], false, false);
    FirstDrawn(h0, hc.headers, a);
    ChildWeight(hc.headers, hc.genesis, hc.td, a);
    ghost var h1 := hc.headers;
    var s2 := hc.WriteHeaders([b], false, false);
    FirstDrawn(h1, hc.headers, b);
    ChildWeight(hc.headers, hc.genesis, hc.td, a);
    ChildWeight(hc.headers, hc.genesis, hc.td, b);
    ghost var h2 := hc.headers;
    var s3 := hc.WriteHeaders([b], false, true);
    FirstDrawn(h2, hc.headers, b);
    ChildWeight(hc.headers, hc.genesis, hc.td, a);
    ChildWeight(hc.headers, hc.genesis, hc.td, b);
  }

  lemma ChildWeight(s: Store, g: Hash, td: map<Hash, nat>, b: Block)
    requires Weighed(s, g, td) && b.hash in s && s[b.hash] == b && b.number == 1
    ensures b.parent in td && b.hash in td && td[b.hash] == td[b.parent] + b.difficulty
  {
  }

  lemma FirstDrawn(s0: Store, s: Store, b: Block)
    requires Extends(s0, s) && Drawn(s0, s, [b], 1)
    ensures s == s0[b.hash := b]
  {
    assert [b][0] == b;
  }
}
