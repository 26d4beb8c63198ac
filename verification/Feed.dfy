/**
 One-to-many broadcast (event/feed.go). A send works on a list of channels kept in one backing
 array: the front part `cases` holds the channels still to be served, the rest was served already.
 Receivers become ready in any order, and subscribers come and go meanwhile. The feed is first
 described as a state machine over sequences, whose runs leave a trace; the class below does the same
 in place on the array.
 */
module Feeds {
  import opened Common

  type Channel = nat

  /** Position 0 of the list is the private channel on which removals interrupt a send. */
  const REMOVE_SUB: Channel := 0

  /** A send first tries every channel in turn, then waits for one to become ready. `cases` has length `m`. */
  datatype Phase =
    | Idle
    | Trying(i: nat, m: nat, nsent: nat)
    | Selecting(m: nat, nsent: nat)

  /** A channel that is subscribed twice occurs twice; `waiting` holds cancellations that wait for the list. */
  datatype State = State(list: seq<Channel>, inbox: seq<Channel>, phase: Phase, waiting: multiset<Channel>)

  /** Subscribers joining and leaving, sends starting, receivers becoming ready or not, cancellations getting through. */
  datatype Event =
    | Joins(channel: Channel)
    | Leaves(channel: Channel)
    | Sends
    | Tries(ready: bool)
    | Picks(k: nat)
    | Interrupts(channel: Channel)
    | GetsLock(channel: Channel)

  /** What can be seen from outside: a send starts with the live subscriptions, delivers, loses some, and returns a count. */
  datatype Mark =
    | Started(targets: multiset<Channel>)
    | Delivered(channel: Channel)
    | Removed(channel: Channel)
    | Finished(nsent: nat)

  ghost predicate Ok(s: State) {
    && |s.list| >= 1 && s.list[0] == REMOVE_SUB && REMOVE_SUB !in s.list[1..] && REMOVE_SUB !in s.inbox
    && s.waiting <= multiset(s.list[1..])
    && match s.phase
       case Idle => true
       case Trying(i, m, _) => 1 <= i <= m <= |s.list|
       case Selecting(m, _) => 1 < m <= |s.list|
  }

  /** Every live subscription is in the inbox or in the list. */
  ghost function Live(s: State): multiset<Channel>
    requires |s.list| >= 1
  {
    multiset(s.inbox) + multiset(s.list[1..])
  }

  function First(s: seq<Channel>, c: Channel): (k: nat)
    ensures k <= |s| && (k < |s| ==> s[k] == c) && (forall j :: 0 <= j < k ==> s[j] != c)
  {
    if s == [] || s[0] == c then 0 else 1 + First(s[1..], c)
  }

  function Without(s: seq<Channel>, k: nat): seq<Channel>
    requires k < |s|
  {
    s[..k] + s[k + 1..]
  }

  function Swapped(s: seq<Channel>, i: nat, j: nat): seq<Channel>
    requires i < |s| && j < |s|
  {
    s[i := s[j]][j := s[i]]
  }

  /** The state after a delivery to case `k`, which moves behind the active ones. */
  ghost function Served(s: State, k: nat, m: nat, phase: Phase): State
    requires k < m <= |s.list|
  {
    s.(list := Swapped(s.list, k, m - 1), phase := phase)
  }

  /** The state after a waiting cancellation got through. */
  ghost function Cancelled(s: State, c: Channel, phase: Phase): State
    requires c in s.list
  {
    InFront(s.list, c);
    s.(list := Without(s.list, First(s.list, c)), waiting := s.waiting - multiset{c}, phase := phase)
  }

  lemma InFront(s: seq<Channel>, c: Channel)
    requires c in s
    ensures First(s, c) < |s|
  {
  }

  ghost function Left(s: State, c: Channel): State {
    if c in s.inbox then InFront(s.inbox, c); s.(inbox := Without(s.inbox, First(s.inbox, c)))
    else s.(waiting := s.waiting + multiset{c})
  }

  /** One non-blocking attempt of the pass over the active cases, or the end of the pass. */
  ghost function Tried(s: State, ready: bool): (State, seq<Mark>)
    requires Ok(s) && s.phase.Trying?
  {
    var i, m, n := s.phase.i, s.phase.m, s.phase.nsent;
    if i < m then
      if ready then (Served(s, i, m, Trying(i, m - 1, n + 1)), [Delivered(s.list[i])])
      else (s.(phase := Trying(i + 1, m, n)), [])
    else if m == 1 then (s.(phase := Idle), [Finished(n)])
    else (s.(phase := Selecting(m, n)), [])
  }

  /** The blocking wait picks a cancellation: `cases` shrinks if the channel was still to be served. */
  ghost function Interrupted(s: State, c: Channel): State
    requires Ok(s) && s.phase.Selecting? && c in s.list
  {
    var m := s.phase.m;
    Cancelled(s, c, Trying(1, if First(s.list, c) < m then m - 1 else m, s.phase.nsent))
  }

  lemma WaitingListed(s: State, c: Channel)
    requires Ok(s) && c in s.waiting
    ensures c in s.list && c in s.list[1..]
  {
    assert c in multiset(s.list[1..]);
  }

  /** One event, taken when the state allows it. */
  ghost function Next(s: State, e: Event): (State, seq<Mark>)
    requires Ok(s)
  {
    match e
    case Joins(c) => if c != REMOVE_SUB then (s.(inbox := s.inbox + [c]), []) else (s, [])
    case Leaves(c) => if c in Live(s) - s.waiting then (Left(s, c), []) else (s, [])
    case Sends =>
      if s.phase != Idle then (s, [])
      else
        var list := s.list + s.inbox;
        (State(list, [], Trying(1, |list|, 0), s.waiting), [Started(multiset(list[1..]))])
    case Tries(ready) => if s.phase.Trying? then Tried(s, ready) else (s, [])
    case Picks(k) =>
      if s.phase.Selecting? && 1 <= k < s.phase.m
      then (Served(s, k, s.phase.m, Trying(1, s.phase.m - 1, s.phase.nsent + 1)), [Delivered(s.list[k])]) else (s, [])
    case Interrupts(c) =>
      if s.phase.Selecting? && c in s.waiting then WaitingListed(s, c); (Interrupted(s, c), [Removed(c)]) else (s, [])
    case GetsLock(c) =>
      if s.phase == Idle && c in s.waiting then WaitingListed(s, c); (Cancelled(s, c, Idle), [Removed(c)]) else (s, [])
  }

  /** Swapping an active case to the end of the active part takes one occurrence out of that part. */
  lemma SwapServes(s: seq<Channel>, i: nat, m: nat)
    requires 1 <= i < m <= |s|
    ensures var s' := Swapped(s, i, m - 1);
            && s'[0] == s[0] && multiset(s'[1..]) == multiset(s[1..])
            && multiset(s'[1..m - 1]) + multiset{s[i]} == multiset(s[1..m])
  {
    var s' := Swapped(s, i, m - 1);
    SwapActive(s, i, m);
    assert s[1..] == s[1..m] + s[m..];
    assert s'[1..] == s'[1..m - 1] + [s[i]] + s[m..];
  }

  lemma SwapActive(s: seq<Channel>, i: nat, m: nat)
    requires 1 <= i < m <= |s|
    ensures multiset(Swapped(s, i, m - 1)[1..m - 1]) + multiset{s[i]} == multiset(s[1..m])
  {
    if i == m - 1 {
      assert Swapped(s, i, m - 1) == s;
      assert s[1..m] == s[1..m - 1] + [s[i]];
    } else {
      var a, b := s[1..i], s[i + 1..m - 1];
      assert s[1..m] == a + [s[i]] + b + [s[m - 1]];
      assert Swapped(s, i, m - 1)[1..m - 1] == a + [s[m - 1]] + b;
    }
  }

  /** Deleting a case shifts the rest down; `cases` shrinks exactly when the case was still active. */
  lemma DeleteServes(s: seq<Channel>, k: nat, m: nat)
    requires 1 <= k < |s| && 1 <= m <= |s|
    ensures var s' := Without(s, k);
            && s'[0] == s[0] && multiset(s'[1..]) + multiset{s[k]} == multiset(s[1..])
            && (k < m ==> multiset(s'[1..m - 1]) + multiset{s[k]} == multiset(s[1..m]))
            && (k >= m ==> s'[1..m] == s[1..m])
  {
    var s' := Without(s, k);
    assert s[1..] == s[1..k] + [s[k]] + s[k + 1..];
    assert s'[1..] == s[1..k] + s[k + 1..];
    if k < m {
      assert s[1..m] == s[1..k] + [s[k]] + s[k + 1..m];
      assert s'[1..m - 1] == s[1..k] + s[k + 1..m];
    }
  }

  /** What a send has done so far, as the trace tells it. */
  datatype Report = Report(targets: multiset<Channel>, delivered: multiset<Channel>, removed: multiset<Channel>)

  /** The send that is open after one more mark. */
  ghost function Applied(open: Option<Report>, mark: Mark): Option<Report> {
    match mark
    case Started(targets) => Some(Report(targets, multiset{}, multiset{}))
    case Finished(_) => None
    case Delivered(c) => if open == None then None else Some(open.value.(delivered := open.value.delivered + multiset{c}))
    case Removed(c) => if open == None then None else Some(open.value.(removed := open.value.removed + multiset{c}))
  }

  /** The send that is open at the end of a trace, if any. */
  ghost function Opened(open: Option<Report>, trace: seq<Mark>): Option<Report> {
    if trace == [] then open else Applied(Opened(open, trace[..|trace| - 1]), trace[|trace| - 1])
  }

  /** Every subscription that stayed got the value exactly once, a removed one at most once, and `nsent` counts the deliveries. */
  ghost predicate ExactlyOnce(r: Report, nsent: nat) {
    r.targets - r.removed <= r.delivered <= r.targets && nsent == |r.delivered|
  }

  /** The send that ends at position `j` of a trace was exactly-once. */
  ghost predicate SentWell(open: Option<Report>, trace: seq<Mark>, j: nat)
    requires j < |trace| && trace[j].Finished?
  {
    Opened(open, trace[..j]).Some? && ExactlyOnce(Opened(open, trace[..j]).value, trace[j].nsent)
  }

  /** With `list[1..m]` still to be served: what was not removed was delivered or is still to be served. */
  ghost predicate Progress(list: seq<Channel>, m: nat, nsent: nat, r: Report) {
    && 1 <= m <= |list| && nsent == |r.delivered|
    && r.targets - r.removed <= multiset(list[1..m]) + r.delivered <= r.targets
  }

  ghost predicate Tracks(s: State, open: Option<Report>) {
    match s.phase
    case Idle => open == None
    case Trying(_, m, n) => open.Some? && Progress(s.list, m, n, open.value)
    case Selecting(m, n) => open.Some? && Progress(s.list, m, n, open.value)
  }

  lemma ProgressServes(list: seq<Channel>, k: nat, m: nat, n: nat, r: Report)
    requires Progress(list, m, n, r) && 1 <= k < m
    ensures Progress(Swapped(list, k, m - 1), m - 1, n + 1, r.(delivered := r.delivered + multiset{list[k]}))
  {
    SwapServes(list, k, m);
  }

  lemma ProgressDeletes(list: seq<Channel>, k: nat, m: nat, n: nat, r: Report)
    requires Progress(list, m, n, r) && 1 <= k < |list|
    ensures Progress(Without(list, k), if k < m then m - 1 else m, n, r.(removed := r.removed + multiset{list[k]}))
  {
    DeleteServes(list, k, m);
  }

  lemma ProgressEnds(list: seq<Channel>, n: nat, r: Report)
    requires Progress(list, 1, n, r)
    ensures ExactlyOnce(r, n)
  {
    assert list[1..1] == [];
  }

  lemma ServedOk(s: State, k: nat, m: nat, phase: Phase)
    requires Ok(s) && 1 <= k < m <= |s.list| && phase.Trying? && 1 <= phase.i <= phase.m == m - 1
    ensures Ok(Served(s, k, m, phase)) && Live(Served(s, k, m, phase)) == Live(s)
  {
    SwapServes(s.list, k, m);
    NotListed(s.list, Swapped(s.list, k, m - 1), multiset{});
  }

  lemma ServedTracks(s: State, k: nat, m: nat, n: nat, phase: Phase, open: Option<Report>)
    requires 1 <= k < m <= |s.list| && open.Some? && Progress(s.list, m, n, open.value) && phase.Trying? && phase.m == m - 1 && phase.nsent == n + 1
    ensures Tracks(Served(s, k, m, phase), Applied(open, Delivered(s.list[k])))
  {
    hide Progress;
    ProgressServes(s.list, k, m, n, open.value);
  }

  lemma NotListed(list: seq<Channel>, list': seq<Channel>, gone: multiset<Channel>)
    requires |list| >= 1 && |list'| >= 1 && multiset(list'[1..]) + gone == multiset(list[1..]) && REMOVE_SUB !in list[1..]
    ensures REMOVE_SUB !in list'[1..]
  {
    assert REMOVE_SUB !in multiset(list[1..]);
    assert REMOVE_SUB !in multiset(list'[1..]);
  }

  lemma CancelledOk(s: State, c: Channel, phase: Phase)
    requires Ok(s) && c in s.waiting
    ensures c in s.list && c != REMOVE_SUB && 1 <= First(s.list, c) < |s.list| && s.list[First(s.list, c)] == c
    ensures var s', k := Cancelled(s, c, phase), First(s.list, c);
            && (phase == Idle || (phase.Trying? && 1 <= phase.i <= phase.m <= |s'.list|) ==> Ok(s'))
            && |s'.list| == |s.list| - 1 && Live(s') == Live(s) - multiset{c}
  {
    WaitingListed(s, c);
    InFront(s.list, c);
    var k := First(s.list, c);
    assert c != REMOVE_SUB;
    DeleteServes(s.list, k, |s.list|);
    NotListed(s.list, Without(s.list, k), multiset{c});
  }

  lemma InterruptedOk(s: State, c: Channel)
    requires Ok(s) && s.phase.Selecting? && c in s.waiting
    ensures c in s.list && c != REMOVE_SUB && Ok(Interrupted(s, c)) && Live(Interrupted(s, c)) == Live(s) - multiset{c}
  {
    hide Cancelled, Live;
    var m, k := s.phase.m, First(s.list, c);
    CancelledOk(s, c, Trying(1, if k < m then m - 1 else m, s.phase.nsent));
  }

  lemma InterruptedTracks(s: State, c: Channel, open: Option<Report>)
    requires Ok(s) && s.phase.Selecting? && c in s.waiting && Tracks(s, open)
    ensures c in s.list && Tracks(Interrupted(s, c), Applied(open, Removed(c)))
  {
    hide Progress, Live;
    var m, k := s.phase.m, First(s.list, c);
    CancelledOk(s, c, Idle);
    ProgressDeletes(s.list, k, m, s.phase.nsent, open.value);
  }

  lemma StartedTracks(s: State)
    requires Ok(s) && s.phase == Idle
    ensures var (s', marks) := Next(s, Sends);
            && Ok(s') && Tracks(s', Applied(None, marks[0])) && Live(s') == Live(s) && marks == [Started(Live(s))]
  {
    var list := s.list + s.inbox;
    assert list[1..] == s.list[1..] + s.inbox;
    assert list[1..|list|] == list[1..];
    assert multiset(list[1..]) == Live(s);
    assert REMOVE_SUB !in list[1..];
  }

  lemma JoinedOk(s: State, c: Channel)
    requires Ok(s) && c != REMOVE_SUB
    ensures Ok(s.(inbox := s.inbox + [c])) && Live(s.(inbox := s.inbox + [c])) == Live(s) + multiset{c}
  {
  }

  lemma LeftOk(s: State, c: Channel)
    requires Ok(s) && c in Live(s) - s.waiting
    ensures Ok(Left(s, c)) && Live(Left(s, c)) == if c in s.inbox then Live(s) - multiset{c} else Live(s)
  {
    if c in s.inbox {
      InFront(s.inbox, c);
      var k := First(s.inbox, c);
      assert s.inbox == s.inbox[..k] + [c] + s.inbox[k + 1..];
      assert multiset(s.inbox) == multiset(Without(s.inbox, k)) + multiset{c};
      assert REMOVE_SUB !in Without(s.inbox, k);
    } else {
      assert c !in multiset(s.inbox);
    }
  }

  lemma TriedOk(s: State, ready: bool)
    requires Ok(s) && s.phase.Trying?
    ensures Ok(Tried(s, ready).0) && Live(Tried(s, ready).0) == Live(s)
  {
    hide Served;
    var i, m, n := s.phase.i, s.phase.m, s.phase.nsent;
    if i < m && ready { ServedOk(s, i, m, Trying(i, m - 1, n + 1)); }
  }

  lemma TriedTracks(s: State, ready: bool, open: Option<Report>)
    requires Ok(s) && s.phase.Trying? && Tracks(s, open)
    ensures var (s', marks) := Tried(s, ready);
            && |marks| <= 1
            && (marks == [] ==> Tracks(s', open))
            && (marks != [] ==> Tracks(s', Applied(open, marks[0])))
            && (marks != [] && marks[0].Finished? ==> open.Some? && ExactlyOnce(open.value, marks[0].nsent))
  {
    hide Progress, ExactlyOnce, Served;
    var i, m, n := s.phase.i, s.phase.m, s.phase.nsent;
    if i < m && ready {
      ServedTracks(s, i, m, n, Trying(i, m - 1, n + 1), open);
    } else if i >= m == 1 {
      ProgressEnds(s.list, n, open.value);
    }
  }

  /** One event keeps the open send on track, and ends a send only when it was exactly-once. */
  lemma StepTracks(s: State, e: Event, open: Option<Report>)
    requires Ok(s) && Tracks(s, open)
    ensures var (s', marks) := Next(s, e);
            && |marks| <= 1
            && (marks == [] ==> Tracks(s', open))
            && (marks != [] ==> Tracks(s', Applied(open, marks[0])))
            && (marks != [] && marks[0].Finished? ==> open.Some? && ExactlyOnce(open.value, marks[0].nsent))
  {
    hide Progress, ExactlyOnce, Live, Tried, Served, Interrupted;
    match e {
      case Joins(c) =>
      case Leaves(c) =>
      case Sends => if s.phase == Idle { StartedTracks(s); }
      case Tries(ready) => if s.phase.Trying? { TriedTracks(s, ready, open); }
      case Picks(k) =>
        if s.phase.Selecting? && 1 <= k < s.phase.m {
          ServedTracks(s, k, s.phase.m, s.phase.nsent, Trying(1, s.phase.m - 1, s.phase.nsent + 1), open);
        }
      case Interrupts(c) => if s.phase.Selecting? && c in s.waiting { InterruptedTracks(s, c, open); }
      case GetsLock(c) => if s.phase == Idle && c in s.waiting { CancelledOk(s, c, Idle); }
    }
  }

  lemma InList(s: State)
    requires Ok(s)
    ensures |s.list| >= 1 && s.list[0] == REMOVE_SUB
    ensures match s.phase case Idle => true case Trying(i, m, _) => 1 <= i <= m <= |s.list| case Selecting(m, _) => 1 < m <= |s.list|
  {
  }

  ghost function Came(e: Event): multiset<Channel> {
    if e.Joins? && e.channel != REMOVE_SUB then multiset{e.channel} else multiset{}
  }

  /** The subscription whose cancellation gets through: at once from the inbox, otherwise when the send or the lock lets it. */
  ghost function Gone(s: State, e: Event): multiset<Channel>
    requires Ok(s)
  {
    match e
    case Leaves(c) => if c in Live(s) - s.waiting && c in s.inbox then multiset{c} else multiset{}
    case Interrupts(c) => if s.phase.Selecting? && c in s.waiting then multiset{c} else multiset{}
    case GetsLock(c) => if s.phase == Idle && c in s.waiting then multiset{c} else multiset{}
    case _ => multiset{}
  }

  /** An event keeps the state well formed, and the live subscriptions change by those that join and those that get away. */
  lemma StepLive(s: State, e: Event)
    requires Ok(s)
    ensures Ok(Next(s, e).0) && Live(Next(s, e).0) == Live(s) + Came(e) - Gone(s, e)
  {
    hide *;
    InList(s);
    match e {
      case Joins(c) => StepJoins(s, c);
      case Leaves(c) => StepLeaves(s, c);
      case Sends => StepSends(s);
      case Tries(ready) => StepTries(s, ready);
      case Picks(k) => StepPicks(s, k);
      case Interrupts(c) => StepInterrupts(s, c);
      case GetsLock(c) => StepGetsLock(s, c);
    }
  }

  lemma StepJoins(s: State, c: Channel)
    requires Ok(s)
    ensures Ok(Next(s, Joins(c)).0) && Live(Next(s, Joins(c)).0) == Live(s) + Came(Joins(c)) - Gone(s, Joins(c))
  {
    hide Ok, Live, Tried, Served, Interrupted, Cancelled, Left;
    InList(s);
    if c != REMOVE_SUB { JoinedOk(s, c); }
  }

  lemma StepLeaves(s: State, c: Channel)
    requires Ok(s)
    ensures Ok(Next(s, Leaves(c)).0) && Live(Next(s, Leaves(c)).0) == Live(s) + Came(Leaves(c)) - Gone(s, Leaves(c))
  {
    hide Ok, Live, Tried, Served, Interrupted, Cancelled, Left;
    InList(s);
    if c in Live(s) - s.waiting { LeftOk(s, c); }
  }

  lemma StepSends(s: State)
    requires Ok(s)
    ensures Ok(Next(s, Sends).0) && Live(Next(s, Sends).0) == Live(s) + Came(Sends) - Gone(s, Sends)
  {
    hide Ok, Live, Tried, Served, Interrupted, Cancelled, Left;
    InList(s);
    if s.phase == Idle { StartedTracks(s); }
  }

  lemma StepTries(s: State, ready: bool)
    requires Ok(s)
    ensures Ok(Next(s, Tries(ready)).0) && Live(Next(s, Tries(ready)).0) == Live(s) + Came(Tries(ready)) - Gone(s, Tries(ready))
  {
    hide Ok, Live, Tried, Served, Interrupted, Cancelled, Left;
    InList(s);
    if s.phase.Trying? { TriedOk(s, ready); }
  }

  lemma StepPicks(s: State, k: nat)
    requires Ok(s)
    ensures Ok(Next(s, Picks(k)).0) && Live(Next(s, Picks(k)).0) == Live(s) + Came(Picks(k)) - Gone(s, Picks(k))
  {
    hide Ok, Live, Tried, Served, Interrupted, Cancelled, Left;
    InList(s);
    if s.phase.Selecting? && 1 <= k < s.phase.m { ServedOk(s, k, s.phase.m, Trying(1, s.phase.m - 1, s.phase.nsent + 1)); }
  }

  lemma StepInterrupts(s: State, c: Channel)
    requires Ok(s)
    ensures Ok(Next(s, Interrupts(c)).0) && Live(Next(s, Interrupts(c)).0) == Live(s) + Came(Interrupts(c)) - Gone(s, Interrupts(c))
  {
    hide Ok, Live, Tried, Served, Interrupted, Cancelled, Left;
    InList(s);
    if s.phase.Selecting? && c in s.waiting { InterruptedOk(s, c); }
  }

  lemma StepGetsLock(s: State, c: Channel)
    requires Ok(s)
    ensures Ok(Next(s, GetsLock(c)).0) && Live(Next(s, GetsLock(c)).0) == Live(s) + Came(GetsLock(c)) - Gone(s, GetsLock(c))
  {
    hide Ok, Live, Tried, Served, Interrupted, Cancelled, Left;
    InList(s);
    if s.phase == Idle && c in s.waiting { CancelledOk(s, c, Idle); }
  }

  /** The state after a run. */
  ghost function After(s: State, events: seq<Event>): (r: State)
    requires Ok(s)
    ensures Ok(r)
  {
    if events == [] then s
    else
      var before := After(s, events[..|events| - 1]);
      StepLive(before, events[|events| - 1]);
      Next(before, events[|events| - 1]).0
  }

  /** The trace of a run. */
  ghost function TraceOf(s: State, events: seq<Event>): seq<Mark>
    requires Ok(s)
  {
    if events == [] then []
    else TraceOf(s, events[..|events| - 1]) + Next(After(s, events[..|events| - 1]), events[|events| - 1]).1
  }

  /** Every send that a run finishes was exactly-once, however its steps interleave with subscribers coming and going. */
  lemma {:induction false} RunSendsWell(s: State, events: seq<Event>, open: Option<Report>)
    requires Ok(s) && Tracks(s, open)
    ensures var trace := TraceOf(s, events);
            && Tracks(After(s, events), Opened(open, trace))
            && forall j :: 0 <= j < |trace| && trace[j].Finished? ==> SentWell(open, trace, j)
  {
    hide Ok, Tracks, Next, Applied, ExactlyOnce;
    if events != [] {
      var front, e := events[..|events| - 1], events[|events| - 1];
      RunSendsWell(s, front, open);
      var before, t := After(s, front), TraceOf(s, front);
      StepTracks(before, e, Opened(open, t));
      var marks := Next(before, e).1;
      TraceGrows(open, t, marks);
    }
  }

  lemma TraceGrows(open: Option<Report>, t: seq<Mark>, marks: seq<Mark>)
    requires |marks| <= 1 && forall j :: 0 <= j < |t| && t[j].Finished? ==> SentWell(open, t, j)
    requires marks != [] && marks[0].Finished? ==> Opened(open, t).Some? && ExactlyOnce(Opened(open, t).value, marks[0].nsent)
    ensures Opened(open, t + marks) == if marks == [] then Opened(open, t) else Applied(Opened(open, t), marks[0])
    ensures forall j :: 0 <= j < |t + marks| && (t + marks)[j].Finished? ==> SentWell(open, t + marks, j)
  {
    hide Applied, ExactlyOnce;
    if marks == [] {
      assert t + marks == t;
    } else {
      assert (t + marks)[..|t|] == t;
      forall j | 0 <= j < |t + marks| && (t + marks)[j].Finished? ensures SentWell(open, t + marks, j) {
        if j < |t| {
          assert (t + marks)[..j] == t[..j];
          assert SentWell(open, t, j);
        }
      }
    }
  }

  /** All subscriptions of a run, and all cancellations that got through. */
  ghost function AllCame(events: seq<Event>): multiset<Channel> {
    if events == [] then multiset{} else AllCame(events[..|events| - 1]) + Came(events[|events| - 1])
  }

  ghost function AllGone(s: State, events: seq<Event>): multiset<Channel>
    requires Ok(s)
  {
    if events == [] then multiset{}
    else AllGone(s, events[..|events| - 1]) + Gone(After(s, events[..|events| - 1]), events[|events| - 1])
  }

  /** No subscription is lost or made up: what is live is what joined and has not got away. */
  lemma {:induction false} RunLive(s: State, events: seq<Event>)
    requires Ok(s)
    ensures Live(After(s, events)) + AllGone(s, events) == Live(s) + AllCame(events)
  {
    hide Ok, Next, Live, Came, Gone;
    if events != [] {
      var front, e := events[..|events| - 1], events[|events| - 1];
      RunLive(s, front);
      var before := After(s, front);
      InList(s);
      InList(before);
      StepLive(before, e);
      GoneWasLive(before, e);
      Balance(Live(before), Came(e), Gone(before, e), AllGone(s, front), Live(s) + AllCame(front));
    }
  }

  lemma Balance(live: multiset<Channel>, came: multiset<Channel>, gone: multiset<Channel>, before: multiset<Channel>, total: multiset<Channel>)
    requires gone <= live && live + before == total
    ensures live + came - gone + (before + gone) == total + came
  {
  }

  lemma GoneWasLive(s: State, e: Event)
    requires Ok(s)
    ensures Gone(s, e) <= Live(s)
  {
  }

  class Feed {
    /** The backing array shared by `sendCases` and `cases`, and the length of `sendCases`. */
    var buf: array<Channel>
    var len: nat
    var inbox: seq<Channel>
    var phase: Phase
    /** Channels whose cancellation waits for the send in progress. */
    var waiting: multiset<Channel>

    ghost function View(): State
      reads this, buf
      requires len <= buf.Length
    {
      State(buf[..len], inbox, phase, waiting)
    }

    ghost predicate Valid()
      reads this, buf
    {
      len <= buf.Length && Ok(View())
    }

    constructor ()
      ensures Valid() && View() == State([REMOVE_SUB], [], Idle, multiset{}) && fresh(buf)
    {
      buf := new Channel[1](_ => REMOVE_SUB);
      len, inbox, phase, waiting := 1, [], Idle, multiset{};
    }

    /** A new subscription waits in the inbox for the next send. */
    method Subscribe(c: Channel)
      requires Valid() && c != REMOVE_SUB
      modifies this`inbox
      ensures Valid() && View() == Next(old(View()), Joins(c)).0
      ensures Live(View()) == old(Live(View())) + multiset{c}
    {
      hide Live;
      JoinedOk(View(), c);
      inbox := inbox + [c];
    }

    /** The first position of a channel in the send list, or -1. */
    method Find(c: Channel) returns (k: int)
      requires len <= buf.Length
      ensures if c in buf[..len] then 0 <= k < len && k == First(buf[..len], c) else k == -1
    {
      ghost var s := buf[..len];
      for i := 0 to len
        invariant forall j :: 0 <= j < i ==> buf[j] != c
      {
        if buf[i] == c {
          assert s[i] == c && First(s, c) == i;
          return i;
        }
      }
      return -1;
    }

    /** Removes position `k` of the send list, shifting the rest down in place. */
    method Delete(k: nat)
      requires k < len <= buf.Length
      modifies this`len, buf
      ensures len == old(len) - 1 && buf[..len] == Without(old(buf[..len]), k)
    {
      ghost var s := buf[..len];
      var j := k + 1;
      while j < len
        invariant len == old(len) && k < j <= len
        invariant forall x :: 0 <= x < k || j <= x < len ==> buf[x] == s[x]
        invariant forall x :: k <= x < j - 1 ==> buf[x] == s[x + 1]
      {
        buf[j - 1] := buf[j];
        j := j + 1;
      }
      len := len - 1;
      assert buf[..len] == s[..k] + s[k + 1..];
    }

    /** Swaps a served case behind the active ones. */
    method Deactivate(i: nat, m: nat)
      requires i < m <= len <= buf.Length
      modifies buf
      ensures buf[..len] == Swapped(old(buf[..len]), i, m - 1)
    {
      buf[i], buf[m - 1] := buf[m - 1], buf[i];
    }

    /** Takes over the inbox; the array grows when it is too small. */
    method AddInbox()
      requires len <= buf.Length
      modifies this`buf, this`len, this`inbox, buf
      ensures len <= buf.Length && buf[..len] == old(buf[..len]) + old(inbox) && inbox == []
      ensures buf == old(buf) || fresh(buf)
    {
      if buf.Length < len + |inbox| {
        var bigger := new Channel[2 * (len + |inbox|)];
        for j := 0 to len
          invariant len == old(len) && inbox == old(inbox) && buf == old(buf) && buf[..len] == old(buf[..len])
          invariant bigger[..j] == buf[..j]
        {
          bigger[j] := buf[j];
        }
        buf := bigger;
      }
      ghost var front := buf[..len];
      for j := 0 to |inbox|
        invariant len + |inbox| <= buf.Length && len == old(len) && inbox == old(inbox) && (buf == old(buf) || fresh(buf))
        invariant buf[..len + j] == front + inbox[..j]
      {
        buf[len + j] := inbox[j];
      }
      assert inbox[..|inbox|] == inbox;
      len := len + |inbox|;
      inbox := [];
    }

    /** Cancels a subscription: at once while one of its channel is in the inbox, otherwise it waits for the send list. */
    method Unsubscribe(c: Channel)
      requires Valid() && c in Live(View()) - waiting
      modifies this`inbox, this`waiting
      ensures Valid() && View() == Next(old(View()), Leaves(c)).0
      ensures Live(View()) == if c in old(inbox) then old(Live(View())) - multiset{c} else old(Live(View()))
    {
      hide Live;
      LeftOk(View(), c);
      for k := 0 to |inbox|
        invariant inbox == old(inbox) && waiting == old(waiting) && c !in inbox[..k]
      {
        if inbox[k] == c {
          assert First(inbox, c) == k;
          inbox := inbox[..k] + inbox[k + 1..];
          return;
        }
      }
      assert inbox[..|inbox|] == inbox;
      waiting := waiting + multiset{c};
    }

    /** A waiting cancellation gets the send lock; its channel is always found in the list. */
    method RemoveIdle(c: Channel)
      requires Valid() && phase == Idle && c in waiting
      modifies this`len, this`waiting, buf
      ensures Valid() && View() == Next(old(View()), GetsLock(c)).0
      ensures Live(View()) == old(Live(View())) - multiset{c}
    {
      hide Live, Ok, Without, First;
      InList(View());
      CancelledOk(View(), c, Idle);
      var k := Find(c);
      Delete(k);
      waiting := waiting - multiset{c};
    }

    /** Takes the send lock: every live subscription becomes a target. */
    method BeginSend() returns (marks: seq<Mark>)
      requires Valid() && phase == Idle
      modifies this, buf
      ensures Valid() && (View(), marks) == Next(old(View()), Sends) && (buf == old(buf) || fresh(buf))
      ensures phase == Trying(1, len, 0) && inbox == [] && marks == [Started(old(Live(View())))] && Live(View()) == old(Live(View()))
    {
      hide Live;
      StartedTracks(View());
      AddInbox();
      phase := Trying(1, len, 0);
      marks := [Started(multiset(buf[1..len]))];
      assert buf[..len][1..] == buf[1..len];
    }

    /** One non-blocking attempt of the pass over the active cases, or its end: delivers to case `i` exactly if it is ready. */
    method TryNext(ready: bool) returns (marks: seq<Mark>)
      requires Valid() && phase.Trying?
      modifies this`phase, buf
      ensures Valid() && (View(), marks) == Next(old(View()), Tries(ready)) && Live(View()) == old(Live(View()))
      ensures marks == if old(phase.i) < old(phase.m) then (if ready then [Delivered(old(buf[phase.i]))] else [])
                       else if old(phase.m) == 1 then [Finished(old(phase.nsent))] else []
    {
      hide Live, Ok, Swapped;
      InList(View());
      TriedOk(View(), ready);
      var i, m, n := phase.i, phase.m, phase.nsent;
      if i < m {
        if ready {
          marks := [Delivered(buf[i])];
          Deactivate(i, m);
          phase := Trying(i, m - 1, n + 1);
        } else {
          marks := [];
          phase := Trying(i + 1, m, n);
        }
      } else if m == 1 {
        marks := [Finished(n)];
        phase := Idle;
      } else {
        marks := [];
        phase := Selecting(m, n);
      }
    }

    /** The blocking wait picks a channel that became ready. */
    method Choose(k: nat) returns (marks: seq<Mark>)
      requires Valid() && phase.Selecting? && 1 <= k < phase.m
      modifies this`phase, buf
      ensures Valid() && (View(), marks) == Next(old(View()), Picks(k)) && Live(View()) == old(Live(View()))
      ensures marks == [Delivered(old(buf[k]))] && phase == Trying(1, old(phase.m) - 1, old(phase.nsent) + 1)
    {
      hide Live, Ok, Swapped;
      InList(View());
      var m, n := phase.m, phase.nsent;
      ServedOk(View(), k, m, Trying(1, m - 1, n + 1));
      marks := [Delivered(buf[k])];
      Deactivate(k, m);
      phase := Trying(1, m - 1, n + 1);
    }

    /** The blocking wait picks a cancellation; its channel is always found, and an occurrence still to be served goes first. */
    method ChooseRemoval(c: Channel)
      requires Valid() && phase.Selecting? && c in waiting
      modifies this`phase, this`len, this`waiting, buf
      ensures Valid() && View() == Next(old(View()), Interrupts(c)).0 && Live(View()) == old(Live(View())) - multiset{c}
      ensures phase == Trying(1, if c in old(buf[1..phase.m]) then old(phase.m) - 1 else old(phase.m), old(phase.nsent))
    {
      hide Live, Ok, Without, First;
      InList(View());
      var m, n := phase.m, phase.nsent;
      InterruptedOk(View(), c);
      var k := Find(c);
      ActiveFirst(buf[..len], c, m);
      assert buf[..len][1..m] == buf[1..m];
      Delete(k);
      waiting := waiting - multiset{c};
      phase := Trying(1, if k < m then m - 1 else m, n);
    }

    /** One event, taken when the state allows it. */
    method Step(e: Event) returns (marks: seq<Mark>)
      requires Valid()
      modifies this, buf
      ensures Valid() && (buf == old(buf) || fresh(buf))
      ensures (View(), marks) == Next(old(View()), e)
    {
      hide Ok;
      marks := [];
      InList(View());
      match e {
        case Joins(c) => if c != REMOVE_SUB { Subscribe(c); }
        case Leaves(c) =>
          assert buf[..len][1..] == buf[1..len];
          if c in multiset(inbox) + multiset(buf[1..len]) - waiting { Unsubscribe(c); }
        case Sends => if phase == Idle { marks := BeginSend(); }
        case Tries(ready) => if phase.Trying? { marks := TryNext(ready); }
        case Picks(k) => if phase.Selecting? && 1 <= k < phase.m { marks := Choose(k); }
        case Interrupts(c) =>
          if phase.Selecting? && c in waiting {
            ChooseRemoval(c);
            marks := [Removed(c)];
          }
        case GetsLock(c) =>
          if phase == Idle && c in waiting {
            RemoveIdle(c);
            marks := [Removed(c)];
          }
      }
    }

    /**
     A run of any events does what the state machine does and leaves its trace; every send that it
     starts and finishes is exactly-once by that trace.
     */
    method Run(events: seq<Event>) returns (trace: seq<Mark>)
      requires Valid()
      modifies this, buf
      ensures Valid() && View() == After(old(View()), events) && trace == TraceOf(old(View()), events)
      ensures old(phase) == Idle ==> forall j :: 0 <= j < |trace| && trace[j].Finished? ==> SentWell(None, trace, j)
    {
      hide Ok, Next, SentWell, Opened, Applied;
      trace := [];
      for i := 0 to |events|
        invariant Valid() && (buf == old(buf) || fresh(buf))
        invariant View() == After(old(View()), events[..i]) && trace == TraceOf(old(View()), events[..i])
      {
        assert events[..i + 1][..i] == events[..i];
        var marks := Step(events[i]);
        trace := trace + marks;
      }
      assert events[..|events|] == events;
      if old(phase) == Idle {
        RunSendsWell(old(View()), events, None);
      }
    }
  }

  /** The first occurrence of a channel is active exactly if some occurrence is. */
  lemma ActiveFirst(s: seq<Channel>, c: Channel, m: nat)
    requires 1 <= m <= |s| && s[0] != c
    ensures First(s, c) < m <==> c in s[1..m]
  {
    var k := First(s, c);
    if k < m { assert s[1..m][k - 1] == c; }
    if c in s[1..m] {
      var j :| 0 <= j < m - 1 && s[1..m][j] == c;
      assert s[j + 1] == c;
    }
  }
}
