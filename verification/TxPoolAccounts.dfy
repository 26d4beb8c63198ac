/**
 How one account's pending and queued transactions move when the pool is reorganised
 (core/tx_pool.go), and why its pending nonces stay exactly the run from the state nonce up
 to the virtual nonce.
 */
module PoolAccounts {
  import opened Common
  import opened Transactions
  import opened AccountLists

  /** `next` is the virtual nonce: the nonce the pool expects next from the account. */
  datatype Account = Account(pending: Txs, queue: Txs, next: nat)

  /** What the chain state says about the account. */
  datatype Funds = Funds(nonce: nat, balance: nat, maxGas: nat)

  ghost predicate Exactly(m: Txs, lo: nat, hi: nat) {
    forall n :: n in m <==> lo <= n < hi
  }

  /** Pending is exactly the nonces from the state nonce up to the virtual nonce. */
  ghost predicate Settled(acc: Account, state: nat) {
    state <= acc.next && Exactly(acc.pending, state, acc.next)
  }

  /** As `Settled`, except that the virtual nonce is only fixed once something is pending. */
  ghost predicate Anchored(acc: Account, state: nat) {
    && (exists hi :: state <= hi && Exactly(acc.pending, state, hi))
    && (acc.pending == map[] ==> acc.next == state)
  }

  /** The sender can pay for everything pooled. */
  ghost predicate AllPayable(acc: Account, f: Funds) {
    && (forall n :: n in acc.pending ==> Payable(acc.pending[n], f.balance, f.maxGas))
    && (forall n :: n in acc.queue ==> Payable(acc.queue[n], f.balance, f.maxGas))
  }

  /** The account's pooled transactions agree with the chain state. */
  ghost predicate Sound(acc: Account, f: Funds) {
    Settled(acc, f.nonce) && AllPayable(acc, f)
  }

  ghost predicate Separate(acc: Account) {
    acc.pending.Keys !! acc.queue.Keys
  }

  /** The nonce after the highest one in `m`. */
  ghost predicate IsPast(m: Txs, hi: nat) {
    0 < hi && hi - 1 in m && forall n :: n in m ==> n < hi
  }

  ghost function PastOr(m: Txs, otherwise: nat): (hi: nat)
    ensures m == map[] ==> hi == otherwise
    ensures m != map[] ==> IsPast(m, hi)
  {
    if m == map[] then otherwise
    else HighestExists(m); var hi :| IsPast(m, hi); hi
  }

  lemma HighestExists(m: Txs)
    requires m != map[]
    ensures exists hi :: IsPast(m, hi)
  {
    assert m.Keys != {};
    var n := HighestNonceOf(m.Keys);
    assert IsPast(m, n + 1);
  }

  /** The queued transactions that are neither too old nor unpayable. */
  ghost function Eligible(queue: Txs, f: Funds): Txs {
    var recent := From(queue, f.nonce);
    recent - Unpayable(recent, f.balance, f.maxGas).Keys
  }

  /** Promotion: the run at the virtual nonce becomes pending, the rest is capped. */
  ghost function Promoted(acc: Account, f: Funds, limit: Option<nat>): Account {
    var eligible := Eligible(acc.queue, f);
    var ready := Ready(eligible, acc.next);
    var rest := NotReady(eligible, acc.next);
    Account(acc.pending + ready, if limit.Some? then Lowest(rest, limit.value) else rest, PastOr(ready, acc.next))
  }

  /** The pending transactions that can still run: recent, payable and with no unpayable one before them. */
  ghost function Runnable(pending: Txs, f: Funds): Txs {
    var recent := From(pending, f.nonce);
    recent - (Unpayable(recent, f.balance, f.maxGas).Keys + Stranded(recent, f.balance, f.maxGas).Keys)
  }

  /** Demotion: stranded transactions return to the queue, and so does everything if the front is missing. */
  ghost function Demoted(acc: Account, f: Funds): Account {
    var runnable := Runnable(acc.pending, f);
    var queue := acc.queue + Stranded(From(acc.pending, f.nonce), f.balance, f.maxGas);
    if f.nonce in runnable then Account(runnable, queue, acc.next)
    else Account(map[], queue + runnable, acc.next)
  }

  lemma EligibleIs(queue: Txs, f: Funds, n: nat)
    ensures n in Eligible(queue, f) <==> n in queue && n >= f.nonce && Payable(queue[n], f.balance, f.maxGas)
    ensures n in Eligible(queue, f) ==> Eligible(queue, f)[n] == queue[n]
  {
    assert n in Unpayable(From(queue, f.nonce), f.balance, f.maxGas) <==>
           n in queue && n >= f.nonce && !Payable(queue[n], f.balance, f.maxGas);
  }

  /** A run that starts at `start` when nothing is below it. */
  lemma ReadyRun(m: Txs, start: nat)
    requires forall n :: n in m ==> n >= start
    ensures start !in m ==> Ready(m, start) == map[]
    ensures start in m ==> var hi := PastOr(Ready(m, start), start);
                           start < hi && Exactly(Ready(m, start), start, hi)
  {
    if start in m {
      var r := Ready(m, start);
      assert ReachesDownTo(m, start);
      assert Gapless(m, start);
      assert start in r;
      var hi := PastOr(r, start);
      assert hi - 1 in r;
      forall n: nat | start <= n < hi ensures n in r {
        assert Gapless(m, hi - 1) && ReachesDownTo(m, n);
        assert Gapless(m, n);
      }
    } else {
      assert !ReachesDownTo(m, start);
    }
  }

  /** Promotion of a settled account only extends its run. */
  lemma PromoteSettled(acc: Account, f: Funds, limit: Option<nat>)
    requires Settled(acc, f.nonce) && Separate(acc)
    ensures Settled(Promoted(acc, f, limit), f.nonce) && Separate(Promoted(acc, f, limit))
  {
    var e := Eligible(acc.queue, f);
    forall n | n in e ensures n >= acc.next && n in acc.queue {
      EligibleIs(acc.queue, f, n);
      assert n !in acc.pending;
    }
    ReadyRun(e, acc.next);
    PromoteSeparate(acc, f, limit);
  }

  lemma PromoteSeparate(acc: Account, f: Funds, limit: Option<nat>)
    requires Separate(acc)
    ensures Separate(Promoted(acc, f, limit))
  {
    forall n | n in Promoted(acc, f, limit).queue ensures n !in Promoted(acc, f, limit).pending {
      EligibleIs(acc.queue, f, n);
    }
  }

  ghost predicate RunnableAt(pending: Txs, f: Funds, n: nat) {
    && n in pending && f.nonce <= n
    && forall x :: x in pending && f.nonce <= x <= n ==> Payable(pending[x], f.balance, f.maxGas)
  }

  lemma RunnableIs(pending: Txs, f: Funds, n: nat)
    ensures n in Runnable(pending, f) <==> RunnableAt(pending, f, n)
  {
    var recent := From(pending, f.nonce);
    assert n in Runnable(pending, f) <==>
           n in recent && n !in Unpayable(recent, f.balance, f.maxGas) && n !in Stranded(recent, f.balance, f.maxGas);
    if n in recent && Payable(recent[n], f.balance, f.maxGas) && n !in Stranded(recent, f.balance, f.maxGas) {
      forall x | x in pending && f.nonce <= x <= n ensures Payable(pending[x], f.balance, f.maxGas) {
        assert x in recent;
      }
    }
  }

  /** What remains runnable of a gap-free pending run is a front part of it. */
  lemma RunnableFront(pending: Txs, f: Funds, lo: nat, hi: nat)
    requires Exactly(pending, lo, hi) && lo <= f.nonce
    ensures exists j :: f.nonce <= j && Exactly(Runnable(pending, f), f.nonce, j)
  {
    var r := Runnable(pending, f);
    forall n: nat ensures n in r <==> RunnableAt(pending, f, n) {
      RunnableIs(pending, f, n);
    }
    var j := FirstMissing(r, f.nonce, if hi < f.nonce then f.nonce else hi);
    assert Exactly(r, f.nonce, j);
  }

  ghost function FirstMissing(m: Txs, lo: nat, hi: nat): (j: nat)
    requires lo <= hi
    ensures lo <= j <= hi
    ensures forall n: nat :: lo <= n < j ==> n in m
    ensures j == hi || j !in m
    decreases hi - lo
  {
    if lo == hi || lo !in m then lo else FirstMissing(m, lo + 1, hi)
  }

  /**
   A pool reset moves the state nonce up and forgets the virtual nonce; promoting and then
   demoting leaves the pending run anchored at the new state nonce.
   */
  lemma ResetAnchors(acc: Account, before: nat, f: Funds, limit: Option<nat>)
    requires Settled(acc, before) && Separate(acc) && before <= f.nonce
    ensures Anchored(Demoted(Promoted(acc.(next := f.nonce), f, limit), f), f.nonce)
  {
    var acc1 := acc.(next := f.nonce);
    var acc2 := Promoted(acc1, f, limit);
    var e := Eligible(acc.queue, f);
    forall n | n in e ensures n >= f.nonce && n in acc.queue && Payable(e[n], f.balance, f.maxGas) {
      EligibleIs(acc.queue, f, n);
    }
    ReadyRun(e, f.nonce);
    if f.nonce in e {
      ResetWithRun(acc, before, f, limit);
    } else {
      hide Eligible, Runnable;
      assert acc2.pending == acc.pending;
      RunnableFront(acc.pending, f, before, acc.next);
    }
  }

  lemma ResetWithRun(acc: Account, before: nat, f: Funds, limit: Option<nat>)
    requires Settled(acc, before) && Separate(acc) && before <= f.nonce && f.nonce in Eligible(acc.queue, f)
    ensures Anchored(Demoted(Promoted(acc.(next := f.nonce), f, limit), f), f.nonce)
  {
    hide Demoted, Eligible, Payable;
    var acc2 := Promoted(acc.(next := f.nonce), f, limit);
    var e := Eligible(acc.queue, f);
    forall n | n in e ensures n >= f.nonce && n in acc.queue && Payable(e[n], f.balance, f.maxGas) {
      EligibleIs(acc.queue, f, n);
    }
    ReadyRun(e, f.nonce);
    assert f.nonce !in acc.pending && acc.next <= f.nonce;
    assert Exactly(From(acc2.pending, f.nonce), f.nonce, acc2.next);
    NewRunStays(acc2, f);
    SettledIsAnchored(Demoted(acc2, f), f.nonce);
  }

  /** A run of payable transactions at the state nonce survives demotion untouched. */
  lemma NewRunStays(acc: Account, f: Funds)
    requires f.nonce < acc.next && Exactly(From(acc.pending, f.nonce), f.nonce, acc.next)
    requires forall n :: n in acc.pending && n >= f.nonce ==> Payable(acc.pending[n], f.balance, f.maxGas)
    ensures Settled(Demoted(acc, f), f.nonce)
  {
    var recent := From(acc.pending, f.nonce);
    assert Unpayable(recent, f.balance, f.maxGas) == map[];
    assert Stranded(recent, f.balance, f.maxGas) == map[];
    assert Runnable(acc.pending, f) == recent;
  }

  /** Keeping a non-empty lowest part of a pending run keeps it anchored. */
  lemma CapAnchored(acc: Account, state: nat, k: nat, next: nat)
    requires Anchored(acc, state) && (acc.pending != map[] ==> k > 0)
    requires acc.pending == map[] ==> next == acc.next
    ensures Anchored(acc.(pending := Lowest(acc.pending, k), next := next), state)
  {
    var hi :| state <= hi && Exactly(acc.pending, state, hi);
    forall n | n in acc.pending ensures Rank(acc.pending, n) == n - state {
      RankInRun(acc.pending, state, hi, n);
    }
    var hi' := if hi < state + k then hi else state + k;
    var m := Lowest(acc.pending, k);
    assert Exactly(m, state, hi');
    assert state in m <==> state < hi';
    assert state in acc.pending <==> state < hi;
  }

  lemma {:induction false} RankInRun(m: Txs, lo: nat, hi: nat, n: nat)
    requires Exactly(m, lo, hi) && n in m
    ensures Rank(m, n) == n - lo
    decreases n
  {
    var below := set x | x in m.Keys && x < n;
    if n == lo {
      assert below == {};
    } else {
      RankInRun(m, lo, hi, n - 1);
      assert below == (set x | x in m.Keys && x < n - 1) + {n - 1};
    }
  }

  /** Recomputing the virtual nonce from the highest pending nonce settles an anchored account. */
  lemma AnchoredSettles(acc: Account, state: nat)
    requires Anchored(acc, state)
    ensures Settled(acc.(next := PastOr(acc.pending, acc.next)), state)
  {
    var hi :| state <= hi && Exactly(acc.pending, state, hi);
    if acc.pending != map[] {
      var p := PastOr(acc.pending, acc.next);
      assert hi - 1 in acc.pending;
      assert p - 1 in acc.pending;
    }
  }

  lemma SettledIsAnchored(acc: Account, state: nat)
    requires Settled(acc, state)
    ensures Anchored(acc, state)
  {
    assert state in acc.pending <==> state < acc.next;
  }

  /** Taking one pending transaction out leaves the run in front of it. */
  lemma CutSettled(acc: Account, state: nat, nonce: nat)
    requires Settled(acc, state) && nonce in acc.pending
    ensures Settled(acc.(pending := Below(acc.pending, nonce), next := nonce), state) && nonce < acc.next
  {
  }

  lemma PromotePayable(acc: Account, f: Funds, limit: Option<nat>)
    requires forall n :: n in acc.pending ==> Payable(acc.pending[n], f.balance, f.maxGas)
    ensures AllPayable(Promoted(acc, f, limit), f)
  {
    hide PastOr, Gapless, ReachesDownTo, Rank;
    var after := Promoted(acc, f, limit);
    forall n ensures n in after.pending ==> Payable(after.pending[n], f.balance, f.maxGas)
             ensures n in after.queue ==> Payable(after.queue[n], f.balance, f.maxGas) {
      EligibleIs(acc.queue, f, n);
    }
  }

  lemma PromoteSound(acc: Account, f: Funds, limit: Option<nat>)
    requires Sound(acc, f) && Separate(acc)
    ensures Sound(Promoted(acc, f, limit), f)
  {
    PromoteSettled(acc, f, limit);
    PromotePayable(acc, f, limit);
  }

  /** Demotion leaves only payable transactions, provided the queue was already filtered. */
  lemma DemotePayable(acc: Account, f: Funds)
    requires forall n :: n in acc.queue ==> Payable(acc.queue[n], f.balance, f.maxGas)
    ensures AllPayable(Demoted(acc, f), f)
  {
    var recent := From(acc.pending, f.nonce);
    forall n | n in Runnable(acc.pending, f) ensures Payable(acc.pending[n], f.balance, f.maxGas) {
      assert n !in Unpayable(recent, f.balance, f.maxGas);
    }
  }

  /** Without a new head nothing is demoted. */
  lemma DemoteSound(acc: Account, f: Funds)
    requires Sound(acc, f)
    ensures Demoted(acc, f) == acc
  {
    var recent := From(acc.pending, f.nonce);
    assert recent == acc.pending;
    assert Unpayable(recent, f.balance, f.maxGas) == map[];
    assert Stranded(recent, f.balance, f.maxGas) == map[];
    assert Runnable(acc.pending, f) == acc.pending;
    assert acc.queue + map[] == acc.queue;
    if f.nonce !in acc.pending {
      assert acc.pending == map[];
    }
  }

  /**
   When a new head lowers the state nonce below `before`, a run that becomes ready at the
   new state nonce but ends before the old pending run leaves a gap in between.
   */
  ghost predicate LeavesGap(acc: Account, before: nat, f: Funds) {
    var eligible := Eligible(acc.queue, f);
    && f.nonce in eligible && before in acc.pending && Payable(acc.pending[before], f.balance, f.maxGas)
    && FirstRun(acc, f) < before
  }

  /** Where the run that becomes ready at the state nonce ends. */
  ghost function FirstRun(acc: Account, f: Funds): nat {
    PastOr(Ready(Eligible(acc.queue, f), f.nonce), f.nonce)
  }

  /** Nothing below `lo`, everything from `lo` to `past`, nothing at `past`, and something at `beyond`. */
  ghost predicate GapAt(m: Txs, lo: nat, past: nat, beyond: nat) {
    && lo < past < beyond && past !in m && beyond in m
    && (forall n :: n in m ==> n >= lo) && (forall n: nat :: lo <= n < past ==> n in m)
  }

  /** A reset to any head anchors the pending run exactly when it leaves no such gap. */
  lemma ResetAnchorsIff(acc: Account, before: nat, f: Funds, limit: Option<nat>)
    requires Settled(acc, before) && Separate(acc)
    ensures Anchored(Demoted(Promoted(acc.(next := f.nonce), f, limit), f), f.nonce) <==> !LeavesGap(acc, before, f)
    ensures LeavesGap(acc, before, f) ==>
              GapAt(Demoted(Promoted(acc.(next := f.nonce), f, limit), f).pending, f.nonce, FirstRun(acc, f), before)
  {
    var e := Eligible(acc.queue, f);
    forall n | n in e ensures n >= f.nonce && n in acc.queue && n !in acc.pending && Payable(e[n], f.balance, f.maxGas) && e[n] == acc.queue[n] {
      EligibleIs(acc.queue, f, n);
    }
    ReadyRun(e, f.nonce);
    if before <= f.nonce {
      ResetAnchors(acc, before, f, limit);
    } else if f.nonce in e {
      LoweredWithRun(acc, before, f, limit);
    } else {
      var acc2 := Promoted(acc.(next := f.nonce), f, limit);
      assert acc2.pending == acc.pending && acc2.next == f.nonce;
      RunnableIs(acc.pending, f, f.nonce);
      assert Demoted(acc2, f).pending == map[];
      assert Exactly(map[], f.nonce, f.nonce);
    }
  }

  lemma LoweredWithRun(acc: Account, before: nat, f: Funds, limit: Option<nat>)
    requires Settled(acc, before) && Separate(acc) && f.nonce < before
    requires var e := Eligible(acc.queue, f);
             && f.nonce in e && (forall n :: n in e ==> n !in acc.pending && Payable(e[n], f.balance, f.maxGas))
             && f.nonce < PastOr(Ready(e, f.nonce), f.nonce) && Exactly(Ready(e, f.nonce), f.nonce, PastOr(Ready(e, f.nonce), f.nonce))
    ensures Anchored(Demoted(Promoted(acc.(next := f.nonce), f, limit), f), f.nonce) <==> !LeavesGap(acc, before, f)
    ensures LeavesGap(acc, before, f) ==>
              GapAt(Demoted(Promoted(acc.(next := f.nonce), f, limit), f).pending, f.nonce, FirstRun(acc, f), before)
  {
    hide Promoted, Eligible, Ready, PastOr, Runnable, TwoRuns, RunnableAt;
    var past := PastOr(Ready(Eligible(acc.queue, f), f.nonce), f.nonce);
    var acc2 := Promoted(acc.(next := f.nonce), f, limit);
    PromotedTwoRuns(acc, f, limit, past);
    var r := Runnable(acc2.pending, f);
    forall n: nat ensures n in r <==> RunnableAt(acc2.pending, f, n) {
      RunnableIs(acc2.pending, f, n);
    }
    TwoRunsRunnable(acc, before, f, acc2.pending, past, r);
    assert Demoted(acc2, f).pending == r;
    forall n | n in r ensures n >= f.nonce { RunnableFrom(acc2.pending, f, n); }
  }

  lemma RunnableFrom(pending: Txs, f: Funds, n: nat)
    requires RunnableAt(pending, f, n)
    ensures n >= f.nonce
  {
  }

  lemma PromotedTwoRuns(acc: Account, f: Funds, limit: Option<nat>, past: nat)
    requires var e := Eligible(acc.queue, f);
             && (forall n :: n in e ==> n !in acc.pending && Payable(e[n], f.balance, f.maxGas))
             && f.nonce < past && Exactly(Ready(e, f.nonce), f.nonce, past)
    ensures TwoRuns(acc, f, Promoted(acc.(next := f.nonce), f, limit).pending, past)
  {
    hide PastOr, Gapless, ReachesDownTo, Eligible;
    var e := Eligible(acc.queue, f);
    assert forall n :: n in Ready(e, f.nonce) ==> n in e && Ready(e, f.nonce)[n] == e[n];
  }

  /** The pending nonces after a promotion below the old run: the new run and the old one. */
  ghost predicate TwoRuns(acc: Account, f: Funds, pending: Txs, past: nat) {
    && f.nonce < past
    && (forall n :: n in pending <==> f.nonce <= n < past || n in acc.pending)
    && (forall n: nat :: f.nonce <= n < past ==> n !in acc.pending && Payable(pending[n], f.balance, f.maxGas))
    && (forall n :: n in acc.pending ==> pending[n] == acc.pending[n])
  }

  /** The runnable part of two runs is one run unless the second stays and does not touch the first. */
  lemma TwoRunsRunnable(acc: Account, before: nat, f: Funds, pending: Txs, past: nat, r: Txs)
    requires Settled(acc, before) && f.nonce < before && TwoRuns(acc, f, pending, past)
    requires forall n: nat :: n in r <==> RunnableAt(pending, f, n)
    ensures forall n: nat :: f.nonce <= n < past ==> n in r
    ensures var second := before in acc.pending && Payable(acc.pending[before], f.balance, f.maxGas);
            && (second && past < before ==> before in r && past !in r)
            && (!(second && past < before) ==> exists hi :: f.nonce <= hi && Exactly(r, f.nonce, hi))
  {
    forall n: nat | f.nonce <= n < past ensures n in r { assert RunnableAt(pending, f, n); }
    var second := before in acc.pending && Payable(acc.pending[before], f.balance, f.maxGas);
    if second && past < before {
      assert RunnableAt(pending, f, before);
    } else {
      var j := FirstMissing(r, f.nonce, if acc.next < past then past else acc.next);
      forall n | n in r ensures n < j {
        BelowGap(acc, before, f, pending, past, r, j, n);
      }
      assert Exactly(r, f.nonce, j);
    }
  }

  lemma BelowGap(acc: Account, before: nat, f: Funds, pending: Txs, past: nat, r: Txs, j: nat, n: nat)
    requires Settled(acc, before) && f.nonce < before && TwoRuns(acc, f, pending, past)
    requires forall x: nat :: x in r <==> RunnableAt(pending, f, x)
    requires before in acc.pending && Payable(acc.pending[before], f.balance, f.maxGas) ==> before <= past
    requires f.nonce <= j && n in r && (j !in r || (acc.next <= j && past <= j))
    ensures n < j
  {
    assert RunnableAt(pending, f, n);
    assert j in pending && j <= n ==> RunnableAt(pending, f, j);
  }
}
