/**
 The eviction list of remote transactions (core/tx_list.go): two heaps, an urgent one that
 receives every new transaction and a floating one from which transactions are discarded.
 Entries whose transaction has left the remote set are stale and are skipped lazily.
 */
module PricedList {
  import opened Transactions
  import Heap

  const URGENT_RATIO := 4
  const FLOATING_RATIO := 1

  /** The heap root is the entry with the highest nonce. */
  function PriceKey(tx: Tx): int { 0 - tx.nonce }

  function SlotsOf(s: seq<Tx>): nat {
    if s == [] then 0 else SlotsOf(s[..|s| - 1]) + s[|s| - 1].Slots()
  }

  predicate Live(tx: Tx, remotes: map<Hash, Tx>) {
    tx.hash in remotes
  }

  ghost function LiveWeight(tx: Tx, remotes: map<Hash, Tx>): nat {
    if Live(tx, remotes) then tx.Slots() else 0
  }

  /** The slots all live entries of `m` would free. */
  ghost function LiveSlots(m: multiset<Tx>, remotes: map<Hash, Tx>): nat
    decreases |m|
  {
    if m == multiset{} then 0
    else
      var x :| x in m;
      LiveWeight(x, remotes) + LiveSlots(m - multiset{x}, remotes)
  }

  /** The total does not depend on the order in which entries are counted. */
  lemma {:induction false} LiveSlotsWithout(m: multiset<Tx>, y: Tx, remotes: map<Hash, Tx>)
    requires y in m
    ensures LiveSlots(m, remotes) == LiveWeight(y, remotes) + LiveSlots(m - multiset{y}, remotes)
    decreases |m|
  {
    hide *;
    var x := LiveSlotsPick(m, remotes);
    if x != y {
      LiveSlotsWithout(m - multiset{x}, y, remotes);
      LiveSlotsWithout(m - multiset{y}, x, remotes);
      assert m - multiset{x} - multiset{y} == m - multiset{y} - multiset{x};
    }
  }

  lemma LiveSlotsPick(m: multiset<Tx>, remotes: map<Hash, Tx>) returns (x: Tx)
    requires m != multiset{}
    ensures x in m && LiveSlots(m, remotes) == LiveWeight(x, remotes) + LiveSlots(m - multiset{x}, remotes)
  {
    x :| x in m && LiveSlots(m, remotes) == LiveWeight(x, remotes) + LiveSlots(m - multiset{x}, remotes);
  }

  lemma LiveSlotsWith(m: multiset<Tx>, y: Tx, remotes: map<Hash, Tx>)
    ensures LiveSlots(m + multiset{y}, remotes) == LiveWeight(y, remotes) + LiveSlots(m, remotes)
  {
    LiveSlotsWithout(m + multiset{y}, y, remotes);
    assert m + multiset{y} - multiset{y} == m;
  }

  /** `now` has every live entry of `before` exactly as often, and no entry more often. */
  ghost predicate KeepsLive(before: multiset<Tx>, now: multiset<Tx>, remotes: map<Hash, Tx>) {
    && (forall tx :: tx in now ==> now[tx] <= before[tx])
    && (forall tx :: tx in before && Live(tx, remotes) ==> now[tx] == before[tx])
  }

  /** What the two heaps hold, and how many of their entries were reported stale. */
  datatype Tally = Tally(entries: multiset<Tx>, stales: int) {
    /** A report of no removals changes nothing. */
    predicate Calm() {
      stales <= |entries| / 4
    }

    function With(tx: Tx, yes: bool): Tally {
      if yes then this.(entries := entries + multiset{tx}) else this
    }

    function WithMany(txs: multiset<Tx>): Tally {
      this.(entries := entries + txs)
    }

    /** Removals are counted until more than a quarter of the entries are stale; then the remote set is entered anew. */
    function Reported(count: int, remotes: map<Hash, Tx>): Tally {
      if stales + count <= |entries| / 4 then this.(stales := stales + count) else Tally(multiset(remotes.Values), 0)
    }
  }

  class TxPricedList {
    var urgent: seq<Tx>
    var floating: seq<Tx>
    var stales: int

    ghost predicate Valid()
      reads this
    {
      Heap.IsHeap(urgent, PriceKey) && Heap.IsHeap(floating, PriceKey)
    }

    ghost function Entries(): multiset<Tx>
      reads this
    {
      multiset(urgent) + multiset(floating)
    }

    ghost function View(): Tally
      reads this
    {
      Tally(Entries(), stales)
    }

    /** As a rebuild leaves them: no urgent nonce is higher than a floating one. */
    ghost predicate Ordered()
      reads this
    {
      OrderedHeaps(urgent, floating)
    }

    constructor ()
      ensures Valid() && View() == Tally(multiset{}, 0)
    {
      urgent, floating, stales := [], [], 0;
    }

    /** Only remote transactions are tracked. */
    method Put(tx: Tx, local: bool)
      requires Valid()
      modifies this
      ensures Valid() && View() == old(View()).With(tx, !local)
    {
      if local {
        return;
      }
      urgent := Heap.Push(urgent, tx, PriceKey);
    }

    /** Counts removals and rebuilds the heaps when more than a quarter of the entries are stale. */
    method Removed(count: int, remotes: map<Hash, Tx>)
      requires Valid()
      requires forall h :: h in remotes ==> remotes[h].hash == h
      modifies this
      ensures Valid()
      ensures View() == old(View()).Reported(count, remotes)
    {
      hide Heap.IsHeap;
      assert |Entries()| == |urgent| + |floating|;
      stales := stales + count;
      if stales <= (|urgent| + |floating|) / 4 {
        return;
      }
      Reheap(remotes);
    }

    /**
     Evicts floating entries, highest nonces first, until `slots` slots are freed, and refills the
     floating heap with the highest urgent nonces. Without `force` an eviction that cannot free enough
     is undone, and that happens exactly when all live entries together would not suffice. If no urgent
     nonce is higher than a floating one to begin with, what goes is no lower than what stays.
     */
    method Discard(slots: int, force: bool, remotes: map<Hash, Tx>) returns (drop: seq<Tx>, success: bool)
      requires Valid()
      modifies this
      ensures Valid()
      ensures success <==> force || slots <= LiveSlots(old(Entries()), remotes)
      ensures forall i :: 0 <= i < |drop| ==> Live(drop[i], remotes)
      ensures KeepsLive(old(Entries()), Entries() + multiset(drop), remotes)
      ensures !success ==> drop == []
      ensures success && !force ==> SlotsOf(drop) >= slots
      ensures success && SlotsOf(drop) < slots ==> Entries() == multiset{}
      ensures drop != [] ==> SlotsOf(drop[..|drop| - 1]) < slots
      ensures old(Ordered()) ==> forall i, x :: 0 <= i < |drop| && x in Entries() ==> drop[i].nonce >= x.nonce
      ensures old(Ordered()) && success ==> Ordered()
    {
      hide Heap.IsHeap, LiveSlots, KeepsLive, OrderedHeaps, Above;
      drop := [];
      var left := slots;
      ghost var all := Entries();
      assert Discarding(all, all, [], slots, remotes) by { DiscardStart(all, slots, remotes); }
      NothingAbove(all);
      while left > 0
        invariant Valid() && left == slots - SlotsOf(drop)
        invariant Discarding(all, Entries(), drop, slots, remotes)
        invariant old(Ordered()) ==> Ordered() && Above(drop, Entries())
        decreases 2 * |urgent| + |floating|
      {
        ghost var before := Entries();
        if |urgent| * FLOATING_RATIO > |floating| * URGENT_RATIO {
          var tx, live := Demote(remotes);
          if !live {
            DiscardStale(all, Entries(), drop, slots, remotes, tx);
            AboveLess(drop, Entries(), tx);
            stales := stales - 1;
          }
        } else {
          if |floating| == 0 {
            break;
          }
          var tx := PopFloating();
          if !Live(tx, remotes) {
            DiscardStale(all, Entries(), drop, slots, remotes, tx);
            AboveLess(drop, Entries(), tx);
            stales := stales - 1;
          } else {
            DiscardDrop(all, Entries(), drop, slots, remotes, tx);
            AboveMore(drop, Entries(), tx);
            drop := drop + [tx];
            left := left - tx.Slots();
          }
        }
      }
      DiscardEnds(all, Entries(), drop, slots, remotes);
      AboveAll(drop, Entries());
      if left > 0 {
        assert urgent == [] && floating == [];
      }
      if left > 0 && !force {
        RestoreUrgent(drop);
        assert Entries() + multiset([]) == multiset(drop) == multiset{} + multiset(drop);
        return [], false;
      }
      return drop, true;
    }

    /** Moves the urgent root to the floating heap if it is live and drops it otherwise. */
    method Demote(remotes: map<Hash, Tx>) returns (tx: Tx, live: bool)
      requires Valid() && |urgent| > 0
      modifies this`urgent, this`floating
      ensures Valid() && live == Live(tx, remotes) && |urgent| == old(|urgent|) - 1
      ensures if live then Entries() == old(Entries()) && |floating| == old(|floating|) + 1
              else old(Entries()) == Entries() + multiset{tx} && floating == old(floating)
      ensures old(Ordered()) ==> Ordered()
    {
      hide Heap.IsHeap, OrderedHeaps;
      tx, urgent := Heap.Pop(urgent, PriceKey);
      live := Live(tx, remotes);
      if live {
        floating := Heap.Push(floating, tx, PriceKey);
        assert |multiset(floating)| == old(|multiset(floating)|) + 1;
      }
      if old(Ordered()) {
        DemotedOrder(old(urgent), old(floating), urgent, floating, tx);
      }
    }

    method PopFloating() returns (tx: Tx)
      requires Valid() && |floating| > 0
      modifies this`floating
      ensures Valid() && |floating| == old(|floating|) - 1
      ensures old(Entries()) == Entries() + multiset{tx}
      ensures forall x :: x in old(floating) ==> x.nonce <= tx.nonce
      ensures old(Ordered()) ==> Ordered() && forall x :: x in Entries() ==> x.nonce <= tx.nonce
    {
      tx, floating := Heap.Pop(floating, PriceKey);
      assert forall x :: x in old(floating) ==> PriceKey(tx) <= PriceKey(x);
      PoppedOrder(urgent, old(floating), floating, tx);
    }

    method RestoreUrgent(drop: seq<Tx>)
      requires Valid()
      modifies this`urgent
      ensures Valid() && Entries() == old(Entries()) + multiset(drop)
    {
      hide Heap.IsHeap;
      for i := 0 to |drop|
        invariant Valid() && Entries() == old(Entries()) + multiset(drop[..i])
      {
        ghost var before := Entries();
        urgent := Heap.Push(urgent, drop[i], PriceKey);
        assert Entries() == before + multiset{drop[i]};
        assert drop[..i + 1] == drop[..i] + [drop[i]];
      }
      assert drop[..|drop|] == drop;
    }

    /** Rebuilds both heaps from the remote set: a fifth, the highest nonces, goes to the floating heap. */
    method Reheap(remotes: map<Hash, Tx>)
      requires forall h :: h in remotes ==> remotes[h].hash == h
      modifies this
      ensures Valid() && stales == 0
      ensures Entries() == multiset(remotes.Values)
      ensures |floating| == |remotes| / 5 && |urgent| + |floating| == |remotes|
      ensures Ordered()
    {
      hide Heap.IsHeap;
      stales := 0;
      var all := CollectValues(remotes);
      all := Heap.Init(all, PriceKey);
      var count := |all| * FLOATING_RATIO / (URGENT_RATIO + FLOATING_RATIO);
      var moved: seq<Tx>;
      urgent, moved := PopMany(all, count);
      floating := Heap.Init(moved, PriceKey);
      SameMembers(floating, moved);
    }
  }

  /** Everything evicted so far is at least as high as everything left. */
  ghost predicate Above(drop: seq<Tx>, entries: multiset<Tx>) {
    forall i, x :: 0 <= i < |drop| && x in entries ==> drop[i].nonce >= x.nonce
  }

  lemma AboveLess(drop: seq<Tx>, entries: multiset<Tx>, tx: Tx)
    ensures Above(drop, entries + multiset{tx}) ==> Above(drop, entries)
  {
  }

  lemma AboveMore(drop: seq<Tx>, entries: multiset<Tx>, tx: Tx)
    ensures Above(drop, entries + multiset{tx}) && (forall x :: x in entries ==> x.nonce <= tx.nonce) ==> Above(drop + [tx], entries)
  {
  }

  lemma NothingAbove(entries: multiset<Tx>)
    ensures Above([], entries)
  {
  }

  lemma AboveAll(drop: seq<Tx>, entries: multiset<Tx>)
    ensures Above(drop, entries) ==> forall i, x :: 0 <= i < |drop| && x in entries ==> drop[i].nonce >= x.nonce
  {
  }

  ghost predicate OrderedHeaps(urgent: seq<Tx>, floating: seq<Tx>) {
    forall x, y :: x in floating && y in urgent ==> x.nonce >= y.nonce
  }

  lemma PoppedOrder(urgent: seq<Tx>, floating: seq<Tx>, floating': seq<Tx>, tx: Tx)
    requires tx in floating && multiset(floating') == multiset(floating) - multiset{tx}
    requires forall x :: x in floating ==> x.nonce <= tx.nonce
    ensures OrderedHeaps(urgent, floating) ==>
              OrderedHeaps(urgent, floating') && forall x :: x in multiset(urgent) + multiset(floating') ==> x.nonce <= tx.nonce
  {
    forall x | x in floating' ensures x in floating {
      assert x in multiset(floating');
      assert x in multiset(floating);
    }
  }

  /** Moving the highest urgent nonce over keeps the heaps ordered. */
  lemma DemotedOrder(urgent: seq<Tx>, floating: seq<Tx>, urgent': seq<Tx>, floating': seq<Tx>, tx: Tx)
    requires OrderedHeaps(urgent, floating) && Heap.IsMin(tx, urgent, PriceKey)
    requires multiset(urgent') == multiset(urgent) - multiset{tx}
    requires floating' == floating || multiset(floating') == multiset(floating) + multiset{tx}
    ensures OrderedHeaps(urgent', floating')
  {
    forall x, y | x in floating' && y in urgent' ensures x.nonce >= y.nonce {
      assert y in multiset(urgent') && y in multiset(urgent);
      assert PriceKey(tx) <= PriceKey(y);
      assert x in multiset(floating') && (x in multiset(floating) || x == tx);
    }
  }

  /** Pops the `count` highest nonces off a heap. */
  method PopMany(all: seq<Tx>, count: nat) returns (rest: seq<Tx>, moved: seq<Tx>)
    requires Heap.IsHeap(all, PriceKey) && count <= |all|
    ensures Heap.IsHeap(rest, PriceKey) && |moved| == count && |rest| + |moved| == |all|
    ensures multiset(rest) + multiset(moved) == multiset(all)
    ensures forall x, y :: x in moved && y in rest ==> x.nonce >= y.nonce
  {
    hide Heap.IsHeap;
    rest, moved := all, [];
    while |moved| < count
      invariant Heap.IsHeap(rest, PriceKey)
      invariant |moved| <= count <= |moved| + |rest| == |all|
      invariant multiset(rest) + multiset(moved) == multiset(all)
      invariant forall x, y :: x in moved && y in rest ==> x.nonce >= y.nonce
    {
      ghost var before := rest;
      var tx: Tx;
      tx, rest := Heap.Pop(rest, PriceKey);
      PopKeepsOrder(before, rest, tx, moved);
      moved := moved + [tx];
    }
  }

  method CollectValues(remotes: map<Hash, Tx>) returns (s: seq<Tx>)
    requires forall h :: h in remotes ==> remotes[h].hash == h
    ensures |s| == |remotes| && multiset(s) == multiset(remotes.Values)
  {
    s := [];
    var todo := remotes.Keys;
    ghost var done: set<Tx> := {};
    while todo != {}
      invariant todo <= remotes.Keys
      invariant |s| == |remotes.Keys| - |todo|
      invariant done == (set h | h in remotes && h !in todo :: remotes[h])
      invariant multiset(s) == multiset(done)
      decreases |todo|
    {
      var h :| h in todo;
      assert remotes[h] !in done;
      todo := todo - {h};
      done := done + {remotes[h]};
      s := s + [remotes[h]];
    }
    assert done == remotes.Values;
  }

  lemma SameMembers(a: seq<Tx>, b: seq<Tx>)
    requires multiset(a) == multiset(b)
    ensures forall tx :: tx in a <==> tx in b
  {
    forall tx ensures tx in a <==> tx in b {
      assert tx in a <==> tx in multiset(a);
    }
  }

  lemma PopKeepsOrder(before: seq<Tx>, after: seq<Tx>, tx: Tx, moved: seq<Tx>)
    requires Heap.IsMin(tx, before, PriceKey) && multiset(after) == multiset(before) - multiset{tx}
    requires forall x, y :: x in moved && y in before ==> x.nonce >= y.nonce
    ensures forall x, y :: x in moved + [tx] && y in after ==> x.nonce >= y.nonce
  {
    forall y | y in after ensures y in before {
      assert y in multiset(after);
      assert y in multiset(before);
    }
    forall y | y in before ensures tx.nonce >= y.nonce {
      assert PriceKey(tx) <= PriceKey(y);
    }
  }

  /** What holds between evictions: entries and drops account for all live entries. */
  ghost predicate Discarding(all: multiset<Tx>, entries: multiset<Tx>, drop: seq<Tx>, slots: int, remotes: map<Hash, Tx>) {
    && (forall i :: 0 <= i < |drop| ==> Live(drop[i], remotes))
    && KeepsLive(all, entries + multiset(drop), remotes)
    && LiveSlots(all, remotes) == LiveSlots(entries, remotes) + SlotsOf(drop)
    && (drop != [] ==> SlotsOf(drop[..|drop| - 1]) < slots)
  }

  lemma DiscardStart(all: multiset<Tx>, slots: int, remotes: map<Hash, Tx>)
    ensures Discarding(all, all, [], slots, remotes)
  {
    assert all + multiset([]) == all;
  }

  lemma DiscardStale(all: multiset<Tx>, entries: multiset<Tx>, drop: seq<Tx>, slots: int, remotes: map<Hash, Tx>, tx: Tx)
    requires Discarding(all, entries + multiset{tx}, drop, slots, remotes) && !Live(tx, remotes)
    ensures Discarding(all, entries, drop, slots, remotes)
  {
    LiveSlotsWith(entries, tx, remotes);
  }

  lemma DiscardDrop(all: multiset<Tx>, entries: multiset<Tx>, drop: seq<Tx>, slots: int, remotes: map<Hash, Tx>, tx: Tx)
    requires Discarding(all, entries + multiset{tx}, drop, slots, remotes) && Live(tx, remotes) && SlotsOf(drop) < slots
    ensures Discarding(all, entries, drop + [tx], slots, remotes) && SlotsOf(drop + [tx]) == SlotsOf(drop) + tx.Slots()
  {
    hide LiveSlots, KeepsLive;
    LiveSlotsWith(entries, tx, remotes);
    assert SlotsOf(drop + [tx]) == SlotsOf(drop) + tx.Slots() by {
      assert (drop + [tx])[..|drop|] == drop;
    }
    assert entries + multiset{tx} + multiset(drop) == entries + multiset(drop + [tx]);
    assert SlotsOf((drop + [tx])[..|drop|]) < slots by {
      assert (drop + [tx])[..|drop|] == drop;
    }
  }

  lemma DiscardEnds(all: multiset<Tx>, entries: multiset<Tx>, drop: seq<Tx>, slots: int, remotes: map<Hash, Tx>)
    requires Discarding(all, entries, drop, slots, remotes)
    ensures SlotsOf(drop) <= LiveSlots(all, remotes)
    ensures entries == multiset{} ==> SlotsOf(drop) == LiveSlots(all, remotes)
  {
  }
}
