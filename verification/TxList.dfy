/**
 Account transaction lists (core/tx_list.go): a sorted map with cached upper bounds on the
 cost and gas of its members. `List` is the value a list stands for; the class `TxList`
 mutates the sorted map in place and is proved against the functions on `List`.
 */
module AccountLists {
  import opened Common
  import opened Transactions
  import opened SortedMap
  import Heap

  /** Whether the sender can still pay for `tx` within the given limits; exempt transactions always pass. */
  predicate Payable(tx: Tx, costLimit: nat, gasLimit: nat) {
    tx.exempt || (tx.gas <= gasLimit && tx.Cost() <= costLimit)
  }

  /** Members that a full scan finds over a limit. */
  function Unpayable(m: Txs, costLimit: nat, gasLimit: nat): Txs {
    map n | n in m && !Payable(m[n], costLimit, gasLimit) :: m[n]
  }

  /** Payable members that come after an unpayable one. */
  function Stranded(m: Txs, costLimit: nat, gasLimit: nat): Txs {
    map n | n in m && Payable(m[n], costLimit, gasLimit) && (exists x :: x in m && x < n && !Payable(m[x], costLimit, gasLimit)) :: m[n]
  }

  datatype List = List(strict: bool, txs: Txs, costcap: nat, gascap: nat)
  {
    /** The caps bound every member that is not gas-exempt. */
    ghost predicate WithinCaps() {
      forall n :: n in txs && !txs[n].exempt ==> txs[n].Cost() <= costcap && txs[n].gas <= gascap
    }

    ghost predicate Ok() {
      Keyed(txs) && WithinCaps()
    }

    predicate Accepts(tx: Tx) {
      tx.nonce in txs ==> txs[tx.nonce].Tier() <= tx.Tier()
    }

    function Replaced(tx: Tx): Option<Tx> {
      if Accepts(tx) && tx.nonce in txs then Some(txs[tx.nonce]) else None
    }

    function Add(tx: Tx): List {
      if Accepts(tx)
      then List(strict, txs[tx.nonce := tx], Max(costcap, tx.Cost()), Max(gascap, tx.gas))
      else this
    }

    function Forward(threshold: nat): List {
      this.(txs := From(txs, threshold))
    }

    /** What remains after a full scan against the limits: in strict mode nothing behind a removed member stays. */
    function Filter(costLimit: nat, gasLimit: nat): List {
      if costcap <= costLimit && gascap <= gasLimit then this
      else
        var gone := Unpayable(txs, costLimit, gasLimit).Keys
                    + (if strict then Stranded(txs, costLimit, gasLimit).Keys else {});
        List(strict, txs - gone, costLimit, gasLimit)
    }

    function Cap(k: nat): List {
      this.(txs := Lowest(txs, k))
    }

    function Remove(nonce: nat): List {
      this.(txs := if strict && nonce in txs then Below(txs, nonce) else txs - {nonce})
    }

    function Take(start: nat): List {
      this.(txs := NotReady(txs, start))
    }
  }

  function OverLimits(costLimit: nat, gasLimit: nat): Tx -> bool {
    (tx: Tx) => !Payable(tx, costLimit, gasLimit)
  }

  function After(nonce: nat): Tx -> bool {
    (tx: Tx) => tx.nonce > nonce
  }

  function Max(a: nat, b: nat): nat {
    if a < b then b else a
  }

  function EmptyList(strict: bool): List {
    List(strict, map[], 0, 0)
  }

  /** Consecutive nonces, no gap anywhere. */
  ghost predicate Contiguous(m: Txs) {
    forall n :: n in m ==> Gapless(m, n)
  }

  /** When the cached caps are within the limits a full scan would remove nothing. */
  lemma ShortcutIsFullScan(l: List, costLimit: nat, gasLimit: nat)
    requires l.WithinCaps() && l.costcap <= costLimit && l.gascap <= gasLimit
    ensures Unpayable(l.txs, costLimit, gasLimit) == map[]
    ensures Stranded(l.txs, costLimit, gasLimit) == map[]
  {
  }

  lemma AddKeepsOk(l: List, tx: Tx)
    requires l.Ok()
    ensures l.Add(tx).Ok()
  {
  }

  lemma FilterKeepsCaps(l: List, a: nat, b: nat)
    requires l.Ok()
    ensures l.Filter(a, b).Ok()
  {
    if !(l.costcap <= a && l.gascap <= b) {
      forall n | n in l.Filter(a, b).txs ensures Payable(l.txs[n], a, b) {
        assert n !in Unpayable(l.txs, a, b);
      }
    }
  }

  /** `m` keeps everything of `whole` below each member it keeps. */
  ghost predicate DownwardPart(m: Txs, whole: Txs) {
    && (forall n :: n in m ==> n in whole)
    && (forall n, x :: n in m && x in whole && x < n ==> x in m)
  }

  lemma DownwardPartContiguous(m: Txs, whole: Txs)
    requires Contiguous(whole) && DownwardPart(m, whole)
    ensures Contiguous(m)
  {
    forall n, x: nat | n in m && x <= n && ReachesDownTo(m, x) ensures x in m {
      var y :| y in m && y <= x;
      assert Gapless(whole, n) && ReachesDownTo(whole, x);
    }
  }

  lemma UpwardPartContiguous(m: Txs, t: nat)
    requires Contiguous(m)
    ensures Contiguous(From(m, t))
  {
    var r := From(m, t);
    forall n, x: nat | n in r && x <= n && ReachesDownTo(r, x) ensures x in r {
      var y :| y in r && y <= x;
      assert Gapless(m, n) && ReachesDownTo(m, x);
    }
  }

  /** Removals never open a gap in a strict list. */
  lemma StrictStaysContiguous(l: List, a: nat, b: nat)
    requires l.strict && Contiguous(l.txs)
    ensures Contiguous(l.Forward(a).txs) && Contiguous(l.Cap(a).txs) && Contiguous(l.Remove(a).txs)
    ensures Contiguous(l.Filter(a, b).txs) && Contiguous(l.Take(a).txs)
  {
    UpwardPartContiguous(l.txs, a);
    CapIsDownward(l.txs, a);
    DownwardPartContiguous(l.Cap(a).txs, l.txs);
    if a in l.txs {
      DownwardPartContiguous(l.Remove(a).txs, l.txs);
    } else {
      assert l.Remove(a).txs == l.txs;
    }
    FilterIsDownward(l, a, b);
    DownwardPartContiguous(l.Filter(a, b).txs, l.txs);
    TakeIsAllOrNothing(l.txs, a);
  }

  lemma CapIsDownward(m: Txs, k: nat)
    ensures DownwardPart(Lowest(m, k), m)
  {
    forall n, x | n in Lowest(m, k) && x in m && x < n ensures x in Lowest(m, k) {
      RankStrict(m, x, n);
    }
  }

  lemma FilterIsDownward(l: List, a: nat, b: nat)
    requires l.strict
    ensures DownwardPart(l.Filter(a, b).txs, l.txs)
  {
    if !(l.costcap <= a && l.gascap <= b) {
      var r := l.Filter(a, b).txs;
      forall n | n in l.txs ensures n in r <==> (forall x :: x in l.txs && x <= n ==> Payable(l.txs[x], a, b)) {
        assert n in r <==> n !in Unpayable(l.txs, a, b) && n !in Stranded(l.txs, a, b);
      }
    }
  }

  lemma TakeIsAllOrNothing(m: Txs, start: nat)
    requires Contiguous(m)
    ensures NotReady(m, start) == m || NotReady(m, start) == map[]
  {
  }

  datatype ListOp =
    | Adds(tx: Tx)
    | Forwards(threshold: nat)
    | Filters(costLimit: nat, gasLimit: nat)
    | Caps(k: nat)
    | Removes(nonce: nat)
    | Takes(start: nat)

  function Apply(l: List, op: ListOp): List {
    match op
    case Adds(tx) => l.Add(tx)
    case Forwards(t) => l.Forward(t)
    case Filters(c, g) => l.Filter(c, g)
    case Caps(k) => l.Cap(k)
    case Removes(n) => l.Remove(n)
    case Takes(n) => l.Take(n)
  }

  function ApplyAll(l: List, ops: seq<ListOp>): List
    decreases |ops|
  {
    if ops == [] then l else ApplyAll(Apply(l, ops[0]), ops[1..])
  }

  /** After any operations the caps bound the non-exempt members, so filtering is what a full scan would do. */
  lemma FilterAfterAnyRun(strict: bool, ops: seq<ListOp>, costLimit: nat, gasLimit: nat)
    ensures var l := ApplyAll(EmptyList(strict), ops);
            && l.Ok() && l.strict == strict
            && l.Filter(costLimit, gasLimit).txs ==
               l.txs - Unpayable(l.txs, costLimit, gasLimit).Keys - (if strict then Stranded(l.txs, costLimit, gasLimit).Keys else {})
  {
    RunKeepsOk(EmptyList(strict), ops);
    var l := ApplyAll(EmptyList(strict), ops);
    if l.costcap <= costLimit && l.gascap <= gasLimit {
      ShortcutIsFullScan(l, costLimit, gasLimit);
    }
  }

  lemma {:induction false} RunKeepsOk(l: List, ops: seq<ListOp>)
    requires l.Ok()
    ensures ApplyAll(l, ops).Ok() && ApplyAll(l, ops).strict == l.strict
    decreases |ops|
  {
    if ops != [] {
      ApplyKeepsOk(l, ops[0]);
      RunKeepsOk(Apply(l, ops[0]), ops[1..]);
    }
  }

  /** Every list operation keeps the representation facts, whatever its arguments. */
  lemma ApplyKeepsOk(l: List, op: ListOp)
    requires l.Ok()
    ensures Apply(l, op).Ok() && Apply(l, op).strict == l.strict
  {
    match op {
      case Adds(tx) => AddKeepsOk(l, tx);
      case Filters(c, g) => FilterKeepsCaps(l, c, g);
      case _ =>
    }
  }

  class TxList {
    const strict: bool
    const txs: TxSortedMap
    var costcap: nat
    var gascap: nat

    ghost predicate Valid()
      reads this, txs
    {
      txs.Valid() && View().WithinCaps()
    }

    ghost function View(): List
      reads this, txs
    {
      List(strict, txs.items, costcap, gascap)
    }

    constructor (strict: bool)
      ensures Valid() && View() == EmptyList(strict) && fresh(txs)
    {
      this.strict, costcap, gascap := strict, 0, 0;
      txs := new TxSortedMap();
    }

    method Overlaps(tx: Tx) returns (r: bool)
      requires Valid()
      ensures r == (tx.nonce in View().txs)
    {
      r := tx.nonce in txs.items;
    }

    /** Inserts `tx` unless a member at its nonce has a higher tier; returns the member it replaced. */
    method Add(tx: Tx) returns (inserted: bool, previous: Option<Tx>)
      requires Valid()
      modifies this, txs
      ensures Valid() && View() == old(View()).Add(tx)
      ensures inserted == old(View()).Accepts(tx) && previous == old(View()).Replaced(tx)
    {
      previous := if tx.nonce in txs.items then Some(txs.items[tx.nonce]) else None;
      if previous.Some? && previous.value.Tier() > tx.Tier() {
        return false, None;
      }
      txs.Put(tx);
      if costcap < tx.Cost() {
        costcap := tx.Cost();
      }
      if gascap < tx.gas {
        gascap := tx.gas;
      }
      inserted := true;
    }

    method Forward(threshold: nat) returns (removed: seq<Tx>)
      requires Valid()
      modifies txs
      ensures Valid() && View() == old(View()).Forward(threshold)
      ensures SortedListing(removed, Below(old(View()).txs, threshold))
    {
      removed := txs.Forward(threshold);
    }

    /** The cached caps decide whether a scan is needed; the result is that of a full scan either way. */
    method Filter(costLimit: nat, gasLimit: nat) returns (removed: seq<Tx>, invalids: seq<Tx>)
      requires Valid()
      modifies this, txs
      ensures Valid() && View() == old(View()).Filter(costLimit, gasLimit)
      ensures Transactions.Lists(removed, Unpayable(old(View()).txs, costLimit, gasLimit))
      ensures Transactions.Lists(invalids, if strict then Stranded(old(View()).txs, costLimit, gasLimit) else map[])
    {
      hide Transactions.Lists, List.WithinCaps, Select, Reject, Unpayable, Stranded, OverLimits, After, Heap.IsHeap, SortedListing;
      ghost var before := View();
      ghost var m := before.txs;
      FilterKeepsCaps(before, costLimit, gasLimit);
      removed, invalids := [], [];
      if costcap <= costLimit && gascap <= gasLimit {
        ShortcutIsFullScan(before, costLimit, gasLimit);
        EmptyLists();
        return;
      }
      costcap, gascap := costLimit, gasLimit;
      removed := txs.Filter(OverLimits(costLimit, gasLimit));
      ScanResult(m, costLimit, gasLimit);
      if |removed| == 0 {
        NothingUnpayable(m, costLimit, gasLimit);
        assert txs.items == before.Filter(costLimit, gasLimit).txs;
        return;
      }
      invalids := DropStranded(m, costLimit, gasLimit, removed);
    }

    /** In strict mode drops what follows the lowest removed nonce, then rebuilds the index. */
    method DropStranded(ghost m: Txs, costLimit: nat, gasLimit: nat, removed: seq<Tx>) returns (invalids: seq<Tx>)
      requires Keyed(m) && txs.items == m - Unpayable(m, costLimit, gasLimit).Keys
      requires |removed| > 0 && Transactions.Lists(removed, Unpayable(m, costLimit, gasLimit))
      modifies txs
      ensures txs.Valid()
      ensures txs.items == m - (Unpayable(m, costLimit, gasLimit).Keys
                                + if strict then Stranded(m, costLimit, gasLimit).Keys else {})
      ensures Transactions.Lists(invalids, if strict then Stranded(m, costLimit, gasLimit) else map[])
    {
      hide Transactions.Lists, Select, Reject, Unpayable, Stranded, After, Heap.IsHeap, SortedListing;
      invalids := [];
      EmptyLists();
      assert Keyed(txs.items);
      if strict {
        var lowest := LowestNonce(removed);
        invalids := txs.FilterOnly(After(lowest));
        StrandedAbove(m, costLimit, gasLimit, removed, lowest);
      } else {
        assert Unpayable(m, costLimit, gasLimit).Keys + {} == Unpayable(m, costLimit, gasLimit).Keys;
      }
      txs.Reheap();
    }

    method Cap(threshold: nat) returns (drops: seq<Tx>)
      requires Valid()
      modifies txs
      ensures Valid() && View() == old(View()).Cap(threshold)
      ensures Transactions.Lists(drops, AllButLowest(old(View()).txs, threshold)) && Descending(drops)
    {
      drops := txs.Cap(threshold);
    }

    /** Removes the member at `tx`'s nonce and, in strict mode, everything after it. */
    method Remove(tx: Tx) returns (found: bool, invalids: seq<Tx>)
      requires Valid()
      modifies txs
      ensures Valid() && View() == old(View()).Remove(tx.nonce)
      ensures found == (tx.nonce in old(View()).txs)
      ensures Transactions.Lists(invalids, if found && strict then From(old(View()).txs, tx.nonce + 1) else map[])
    {
      hide *;
      Parts();
      ghost var l := View();
      RemoveKeepsCaps(l, tx.nonce);
      EmptyLists();
      invalids := [];
      found := txs.Remove(tx.nonce);
      RemovedIs(l, tx.nonce);
      if found && strict {
        invalids := DropBehind(l.txs, tx.nonce);
      }
      Parts();
    }

    lemma Parts()
      ensures View() == List(strict, txs.items, costcap, gascap)
      ensures Valid() <==> txs.Valid() && View().WithinCaps()
      ensures txs.Valid() ==> Keyed(txs.items)
    {
    }

    /** Drops what follows a removed nonce. */
    method DropBehind(ghost m: Txs, nonce: nat) returns (invalids: seq<Tx>)
      requires txs.Valid() && Keyed(m) && txs.items == m - {nonce}
      modifies txs
      ensures txs.Valid() && txs.items == Below(m, nonce) && Transactions.Lists(invalids, From(m, nonce + 1))
    {
      hide Transactions.Lists, Select, Reject, After, Below, From, SortedMap.TxSortedMap.Valid;
      AfterRemoval(m, nonce);
      invalids := txs.Filter(After(nonce));
    }

    method TakeReady(start: nat) returns (ready: seq<Tx>)
      requires Valid()
      modifies txs
      ensures Valid() && View() == old(View()).Take(start)
      ensures SortedListing(ready, Ready(old(View()).txs, start))
    {
      ready := txs.TakeReady(start);
    }

    method Flatten() returns (listing: seq<Tx>)
      requires Valid()
      modifies txs
      ensures Valid() && View() == old(View())
      ensures SortedListing(listing, View().txs)
    {
      listing := txs.Flatten();
    }
  }

  method LowestNonce(s: seq<Tx>) returns (lowest: nat)
    requires |s| > 0
    ensures exists i :: 0 <= i < |s| && s[i].nonce == lowest
    ensures forall i :: 0 <= i < |s| ==> lowest <= s[i].nonce
  {
    lowest := s[0].nonce;
    for k := 1 to |s|
      invariant exists i :: 0 <= i < |s| && s[i].nonce == lowest
      invariant forall i :: 0 <= i < k ==> lowest <= s[i].nonce
    {
      if s[k].nonce < lowest {
        lowest := s[k].nonce;
      }
    }
  }

  lemma RemoveKeepsCaps(l: List, nonce: nat)
    requires l.WithinCaps()
    ensures l.Remove(nonce).WithinCaps()
  {
  }

  lemma RemovedIs(l: List, nonce: nat)
    ensures l.Remove(nonce) == l.(txs := if l.strict && nonce in l.txs then Below(l.txs, nonce) else l.txs - {nonce})
    ensures nonce !in l.txs ==> l.txs - {nonce} == l.txs
  {
  }

  lemma AfterRemoval(m: Txs, nonce: nat)
    requires Keyed(m)
    ensures Select(m - {nonce}, After(nonce)) == From(m, nonce + 1)
    ensures Reject(m - {nonce}, After(nonce)) == Below(m, nonce)
  {
  }

  lemma ScanResult(m: Txs, costLimit: nat, gasLimit: nat)
    ensures Select(m, OverLimits(costLimit, gasLimit)) == Unpayable(m, costLimit, gasLimit)
    ensures Reject(m, OverLimits(costLimit, gasLimit)) == m - Unpayable(m, costLimit, gasLimit).Keys
  {
  }

  lemma NothingUnpayable(m: Txs, costLimit: nat, gasLimit: nat)
    requires Transactions.Lists([], Unpayable(m, costLimit, gasLimit))
    ensures Unpayable(m, costLimit, gasLimit) == map[] && Stranded(m, costLimit, gasLimit) == map[]
    ensures Transactions.Lists([], Stranded(m, costLimit, gasLimit)) && Transactions.Lists([], map[])
  {
    assert forall n :: n in m ==> (n in Unpayable(m, costLimit, gasLimit) <==> !Payable(m[n], costLimit, gasLimit));
  }

  /** In what the scan left, "above the lowest removed nonce" means stranded. */
  lemma StrandedAbove(m: Txs, costLimit: nat, gasLimit: nat, removed: seq<Tx>, lowest: nat)
    requires Keyed(m) && Transactions.Lists(removed, Unpayable(m, costLimit, gasLimit))
    requires exists i :: 0 <= i < |removed| && removed[i].nonce == lowest
    requires forall i :: 0 <= i < |removed| ==> lowest <= removed[i].nonce
    ensures var rest := m - Unpayable(m, costLimit, gasLimit).Keys;
            && Select(rest, After(lowest)) == Stranded(m, costLimit, gasLimit)
            && Reject(rest, After(lowest)) == m - (Unpayable(m, costLimit, gasLimit).Keys + Stranded(m, costLimit, gasLimit).Keys)
  {
    var u := Unpayable(m, costLimit, gasLimit);
    forall n | n in m ensures n in u ==> lowest <= n {
      if n in u {
        var i :| 0 <= i < |removed| && removed[i] == u[n];
      }
    }
    assert lowest in u;
  }
}
