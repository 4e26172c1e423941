/**
 The session gauges under concurrency. Every increment and decrement of a metric is an
 action of its own, so a run is any interleaving of any number of connections. A
 connection holds a slot from before it is accepted until its handler has ended.
 */
module SessionMetrics {
  import opened Wrappers
  import opened Sums

  datatype Labels = Labels(ip: string, domain: string, upstream: string)

  /** Where a handler is; the number is how many updates of the phase have been made. */
  datatype Phase =
    | Waiting
    | Setup
    | Opening(done: nat)
    | Open
    | Closing(done: nat)
    | Failing(done: nat)
    | Finished
    | Released

  /** `wasOpen` is the flag that tells a failing handler whether it had been counted. */
  datatype Session = Session(phase: Phase, wasOpen: bool, labels: Labels)

  datatype Metrics = Metrics(active: int, total: int, activeBy: map<Labels, int>, totalBy: map<Labels, int>, errors: int)

  /** `closed` and `broken` count the open connections that ended well and badly, for the properties only. */
  datatype State = State(free: nat, sessions: seq<Session>, metrics: Metrics, closed: nat, broken: nat)

  datatype Action =
    | Arrive(labels: Labels)
    | Acquire(i: nat)
    | Relabel(i: nat, labels: Labels)
    | Reject(i: nat)
    | Fail(i: nat)
    | Advance(i: nat)

  function Init(slots: nat): State {
    State(slots, [], Metrics(0, 0, map[], map[], 0), 0, 0)
  }

  function Bump(m: map<Labels, int>, l: Labels, d: int): map<Labels, int> {
    m[l := Reading(m, l) + d]
  }

  /** The next update of a handler: its new local state and what it does to the metrics. */
  function Advanced(x: Session, m: Metrics): Option<(Session, Metrics)> {
    match x.phase
    case Setup => Some((x.(phase := Opening(1)), m.(active := m.active + 1)))
    case Opening(n) =>
      if n == 1 then Some((x.(phase := Opening(2)), m.(total := m.total + 1)))
      else if n == 2 then Some((x.(phase := Opening(3)), m.(activeBy := Bump(m.activeBy, x.labels, 1))))
      else if n == 3 then Some((x.(phase := Opening(4)), m.(totalBy := Bump(m.totalBy, x.labels, 1))))
      else Some((x.(phase := Open, wasOpen := true), m))
    case Open => Some((x.(phase := Closing(1)), m.(active := m.active - 1)))
    case Closing(n) =>
      if n == 1 then Some((x.(phase := Closing(2)), m.(activeBy := Bump(m.activeBy, x.labels, -1))))
      else Some((x.(phase := Finished, wasOpen := false), m))
    case Failing(n) =>
      if n == 0 then Some((x.(phase := Failing(1)), m.(errors := m.errors + 1)))
      else if n == 1 then
        if x.wasOpen then Some((x.(phase := Failing(2)), m.(active := m.active - 1)))
        else Some((x.(phase := Finished), m))
      else Some((x.(phase := Finished), m.(activeBy := Bump(m.activeBy, x.labels, -1))))
    case _ => None
  }

  function Put(s: State, i: nat, x: Session): State
    requires i < |s.sessions|
  {
    s.(sessions := s.sessions[i := x])
  }

  /** The state after an action, or `None` when the action cannot be taken. */
  function Next(s: State, a: Action): Option<State> {
    if a.Arrive? then Some(s.(sessions := s.sessions + [Session(Waiting, false, a.labels)]))
    else if a.i >= |s.sessions| then None
    else SessionNext(s, a, s.sessions[a.i])
  }

  function SessionNext(s: State, a: Action, x: Session): Option<State>
    requires !a.Arrive? && a.i < |s.sessions|
  {
    match a
    case Acquire(i) =>
      if x.phase == Waiting && s.free > 0 then Some(Put(s, i, x.(phase := Setup)).(free := s.free - 1)) else None
    case Relabel(i, labels) =>
      if x.phase == Setup then Some(Put(s, i, x.(labels := labels))) else None
    case Reject(i) =>
      if x.phase == Setup then Some(Put(s, i, x.(phase := Finished))) else None
    case Fail(i) =>
      if x.phase == Setup || x.phase == Open then Some(Put(s, i, x.(phase := Failing(0)))) else None
    case Advance(i) =>
      if x.phase == Finished then Some(Put(s, i, x.(phase := Released)).(free := s.free + 1))
      else match Advanced(x, s.metrics)
        case None => None
        case Some((x', m)) =>
          Some(Put(s, i, x').(
               metrics := m,
               closed := s.closed + (if x.phase == Open then 1 else 0),
               broken := s.broken + (if x.phase == Failing(1) && x.wasOpen then 1 else 0)))
  }

  /** The state after the actions that could be taken, in order. */
  function Run(s: State, actions: seq<Action>): State
    decreases |actions|
  {
    if actions == [] then s
    else
      var before := Run(s, actions[..|actions| - 1]);
      match Next(before, actions[|actions| - 1])
      case None => before
      case Some(after) => after
  }

  // ------------------------------------------------------------------ what counts

  /** The connection has entered the active gauge and not left it. */
  predicate IsActive(x: Session) {
    match x.phase
    case Opening(_) => true
    case Open => true
    case Failing(n) => x.wasOpen && n <= 1
    case _ => false
  }

  /** The same for the gauge of its labels. */
  predicate IsLabelled(x: Session) {
    match x.phase
    case Opening(n) => n >= 3
    case Open => true
    case Closing(n) => n <= 1
    case Failing(n) => x.wasOpen
    case _ => false
  }

  /** The connection is in the total and has not left the active gauge. */
  predicate IsCounted(x: Session) {
    IsActive(x) && x.phase != Opening(1)
  }

  predicate HoldsSlot(x: Session) {
    x.phase != Waiting && x.phase != Released
  }

  /** The handler is between two updates that belong together. */
  predicate InBetween(x: Session) {
    x.phase.Opening? || x.phase.Closing? || (x.phase.Failing? && x.wasOpen)
  }

  predicate Proper(x: Session) {
    match x.phase
    case Waiting => !x.wasOpen
    case Setup => !x.wasOpen
    case Opening(n) => 1 <= n <= 4 && !x.wasOpen
    case Open => x.wasOpen
    case Closing(n) => 1 <= n <= 2 && x.wasOpen
    case Failing(n) => n <= 2 && (n == 2 ==> x.wasOpen)
    case _ => true
  }

  function One(b: bool): nat {
    if b then 1 else 0
  }

  function CountActive(xs: seq<Session>): nat {
    SumSeq(xs, x => One(IsActive(x)))
  }

  function CountLabelled(xs: seq<Session>): nat {
    SumSeq(xs, x => One(IsLabelled(x)))
  }

  function CountLabelledAs(xs: seq<Session>, l: Labels): nat {
    SumSeq(xs, (x: Session) => One(IsLabelled(x) && x.labels == l))
  }

  function CountCounted(xs: seq<Session>): nat {
    SumSeq(xs, x => One(IsCounted(x)))
  }

  function CountHolding(xs: seq<Session>): nat {
    SumSeq(xs, x => One(HoldsSlot(x)))
  }

  function CountOpen(xs: seq<Session>): nat {
    SumSeq(xs, (x: Session) => One(x.phase == Open))
  }

  function CountOpenAs(xs: seq<Session>, l: Labels): nat {
    SumSeq(xs, (x: Session) => One(x.phase == Open && x.labels == l))
  }

  function CountInBetween(xs: seq<Session>): nat {
    SumSeq(xs, x => One(InBetween(x)))
  }

  ghost predicate Inv(s: State, slots: nat) {
    && (forall x | x in s.sessions :: Proper(x))
    && s.metrics.active == CountActive(s.sessions)
    && (forall l :: Reading(s.metrics.activeBy, l) == CountLabelledAs(s.sessions, l))
    && SumMap(s.metrics.activeBy) == CountLabelled(s.sessions)
    && s.free + CountHolding(s.sessions) == slots
    && s.metrics.total == CountCounted(s.sessions) + s.closed + s.broken
  }

  // ------------------------------------------------------------------ preservation

  /** Replacing one session changes every count by that session's share. */
  lemma CountsUpdated(xs: seq<Session>, i: nat, y: Session)
    requires i < |xs|
    ensures var ys := xs[i := y]; var x := xs[i];
      (CountActive(ys) + One(IsActive(x)), CountLabelled(ys) + One(IsLabelled(x)),
       CountCounted(ys) + One(IsCounted(x)), CountHolding(ys) + One(HoldsSlot(x))) ==
      (CountActive(xs) + One(IsActive(y)), CountLabelled(xs) + One(IsLabelled(y)),
       CountCounted(xs) + One(IsCounted(y)), CountHolding(xs) + One(HoldsSlot(y)))
    ensures forall l :: CountLabelledAs(xs[i := y], l) + One(IsLabelled(xs[i]) && xs[i].labels == l) ==
                        CountLabelledAs(xs, l) + One(IsLabelled(y) && y.labels == l)
  {
    hide SumSeq;
    hide One;
    SumUpdate(xs, i, y, x => One(IsActive(x)));
    SumUpdate(xs, i, y, x => One(IsLabelled(x)));
    SumUpdate(xs, i, y, x => One(IsCounted(x)));
    SumUpdate(xs, i, y, x => One(HoldsSlot(x)));
    forall l
      ensures CountLabelledAs(xs[i := y], l) + One(IsLabelled(xs[i]) && xs[i].labels == l) ==
              CountLabelledAs(xs, l) + One(IsLabelled(y) && y.labels == l)
    {
      SumUpdate(xs, i, y, (x: Session) => One(IsLabelled(x) && x.labels == l));
    }
  }

  lemma CountsArrived(xs: seq<Session>, labels: Labels)
    ensures var ys := xs + [Session(Waiting, false, labels)];
      && (CountActive(ys), CountLabelled(ys), CountCounted(ys), CountHolding(ys)) ==
         (CountActive(xs), CountLabelled(xs), CountCounted(xs), CountHolding(xs))
      && forall l :: CountLabelledAs(ys, l) == CountLabelledAs(xs, l)
  {
    hide SumSeq;
    var y := Session(Waiting, false, labels);
    SumAppend(xs, y, x => One(IsActive(x)));
    SumAppend(xs, y, x => One(IsLabelled(x)));
    SumAppend(xs, y, x => One(IsCounted(x)));
    SumAppend(xs, y, x => One(HoldsSlot(x)));
    forall l
      ensures CountLabelledAs(xs + [y], l) == CountLabelledAs(xs, l)
    {
      SumAppend(xs, y, (x: Session) => One(IsLabelled(x) && x.labels == l));
    }
  }

  /** What one update does to the metrics is what it does to the handler's own standing. */
  lemma AdvancedAccounts(x: Session, m: Metrics)
    requires Proper(x) && Advanced(x, m).Some?
    ensures var (y, m') := Advanced(x, m).value;
      && Proper(y) && y.labels == x.labels
      && m'.active - m.active == One(IsActive(y)) - One(IsActive(x))
      && m'.total - m.total == One(IsCounted(y)) - One(IsCounted(x))
           + One(x.phase == Open) + One(x.phase == Failing(1) && x.wasOpen)
      && HoldsSlot(y) && HoldsSlot(x)
      && SumMap(m'.activeBy) - SumMap(m.activeBy) == One(IsLabelled(y)) - One(IsLabelled(x))
      && forall l :: Reading(m'.activeBy, l) - Reading(m.activeBy, l) ==
                     One(IsLabelled(y) && y.labels == l) - One(IsLabelled(x) && x.labels == l)
  {
    hide SumMap;
    SumMapAdd(m.activeBy, x.labels, 1);
    SumMapAdd(m.activeBy, x.labels, -1);
  }

  lemma StepKeepsInv(s: State, a: Action, slots: nat)
    requires Inv(s, slots)
    ensures forall t :: Next(s, a) == Some(t) ==> Inv(t, slots)
  {
    hide SumMap;
    hide CountActive, CountLabelled, CountCounted, CountHolding, CountLabelledAs;
    if a.Arrive? {
      CountsArrived(s.sessions, a.labels);
    } else if a.i < |s.sessions| && Next(s, a).Some? {
      var t := Next(s, a).value;
      var x, y := s.sessions[a.i], t.sessions[a.i];
      assert x in s.sessions;
      StepAccounts(s, a, t);
      hide Next;
      CountsUpdated(s.sessions, a.i, y);
      forall z | z in t.sessions
        ensures Proper(z)
      {
        assert z == y || z in s.sessions;
      }
    }
  }

  /** What one action of a handler does to the metrics and slots is what it does to its own standing. */
  lemma StepAccounts(s: State, a: Action, t: State)
    requires !a.Arrive? && a.i < |s.sessions| && Next(s, a) == Some(t) && Proper(s.sessions[a.i])
    ensures |t.sessions| == |s.sessions| && t.sessions == s.sessions[a.i := t.sessions[a.i]]
    ensures var x, y, m, m' := s.sessions[a.i], t.sessions[a.i], s.metrics, t.metrics;
      && Proper(y)
      && m'.active - m.active == One(IsActive(y)) - One(IsActive(x))
      && m'.total - t.closed - t.broken - One(IsCounted(y)) == m.total - s.closed - s.broken - One(IsCounted(x))
      && t.free + One(HoldsSlot(y)) == s.free + One(HoldsSlot(x))
      && SumMap(m'.activeBy) - SumMap(m.activeBy) == One(IsLabelled(y)) - One(IsLabelled(x))
      && forall l :: Reading(m'.activeBy, l) - Reading(m.activeBy, l) ==
                     One(IsLabelled(y) && y.labels == l) - One(IsLabelled(x) && x.labels == l)
  {
    hide SumMap, Advanced;
    var x := s.sessions[a.i];
    if a.Advance? && x.phase != Finished {
      AdvancedAccounts(x, s.metrics);
    }
  }

  /** In every interleaving the gauges count exactly the connections that have entered and not left them. */
  lemma {:induction false} RunKeepsInv(slots: nat, actions: seq<Action>)
    ensures Inv(Run(Init(slots), actions), slots)
    decreases |actions|
  {
    if actions == [] {
      assert forall l :: CountLabelledAs([], l) == 0;
    } else {
      hide Next;
      hide Inv;
      var before := Run(Init(slots), actions[..|actions| - 1]);
      RunKeepsInv(slots, actions[..|actions| - 1]);
      StepKeepsInv(before, actions[|actions| - 1], slots);
    }
  }

  // ------------------------------------------------------------------- theorems

  /** The active gauge is never negative and never exceeds the slots. */
  lemma GaugeWithinSlots(slots: nat, actions: seq<Action>)
    ensures 0 <= Run(Init(slots), actions).metrics.active <= slots
  {
    RunKeepsInv(slots, actions);
    var s := Run(Init(slots), actions);
    hide Run;
    assert CountActive(s.sessions) <= CountHolding(s.sessions) by {
      SumMonotone(s.sessions, x => One(IsActive(x)), x => One(HoldsSlot(x)));
    }
  }

  /** Opened connections are accounted for: still counted, closed, or broken off. */
  lemma TotalConserved(slots: nat, actions: seq<Action>)
    ensures var s := Run(Init(slots), actions);
      s.metrics.total == CountCounted(s.sessions) + s.closed + s.broken
  {
    RunKeepsInv(slots, actions);
  }

  /** An action by which a connection with these labels becomes open. */
  predicate Opens(s: State, a: Action, l: Labels) {
    var t := Next(s, a);
    && t.Some? && !a.Arrive? && a.i < |s.sessions| && a.i < |t.value.sessions|
    && s.sessions[a.i].phase != Open && t.value.sessions[a.i].phase == Open && t.value.sessions[a.i].labels == l
  }

  /** An action by which a handler starts to fail. */
  predicate Fails(s: State, a: Action) {
    var t := Next(s, a);
    && t.Some? && !a.Arrive? && a.i < |s.sessions| && a.i < |t.value.sessions|
    && !s.sessions[a.i].phase.Failing? && t.value.sessions[a.i].phase.Failing?
  }

  /** How many connections with these labels a run has opened. */
  function EverOpened(slots: nat, actions: seq<Action>, l: Labels): nat
    decreases |actions|
  {
    if actions == [] then 0
    else
      var init := actions[..|actions| - 1];
      EverOpened(slots, init, l) + One(Opens(Run(Init(slots), init), actions[|actions| - 1], l))
  }

  /** How many handlers have failed. */
  function EverFailed(slots: nat, actions: seq<Action>): nat
    decreases |actions|
  {
    if actions == [] then 0
    else
      var init := actions[..|actions| - 1];
      EverFailed(slots, init) + One(Fails(Run(Init(slots), init), actions[|actions| - 1]))
  }

  /** Counted under its labels, and with nothing left to count before it is open. */
  function AboutToOpen(l: Labels): Session -> nat {
    (x: Session) => One(x.phase == Opening(4) && x.labels == l)
  }

  function AboutToReport(): Session -> nat {
    (x: Session) => One(x.phase == Failing(0))
  }

  lemma StepCounts(s: State, a: Action, l: Labels)
    requires (forall x | x in s.sessions :: Proper(x)) && Next(s, a).Some?
    ensures var t := Next(s, a).value;
      && Reading(t.metrics.totalBy, l) - SumSeq(t.sessions, AboutToOpen(l)) ==
         Reading(s.metrics.totalBy, l) - SumSeq(s.sessions, AboutToOpen(l)) + One(Opens(s, a, l))
      && t.metrics.errors + SumSeq(t.sessions, AboutToReport()) ==
         s.metrics.errors + SumSeq(s.sessions, AboutToReport()) + One(Fails(s, a))
  {
    hide SumSeq;
    var t := Next(s, a).value;
    if a.Arrive? {
      SumAppend(s.sessions, t.sessions[|s.sessions|], AboutToOpen(l));
      SumAppend(s.sessions, t.sessions[|s.sessions|], AboutToReport());
    } else {
      assert s.sessions[a.i] in s.sessions;
      SumUpdate(s.sessions, a.i, t.sessions[a.i], AboutToOpen(l));
      SumUpdate(s.sessions, a.i, t.sessions[a.i], AboutToReport());
    }
  }

  /**
   In every interleaving the labelled totals count the connections with their labels that
   were ever opened, with those about to be, and the errors the handlers that have failed,
   but for those about to report it.
   */
  lemma {:induction false} TotalsAreHistory(slots: nat, actions: seq<Action>, l: Labels)
    ensures var s := Run(Init(slots), actions);
      && Reading(s.metrics.totalBy, l) == EverOpened(slots, actions, l) + SumSeq(s.sessions, AboutToOpen(l))
      && s.metrics.errors + SumSeq(s.sessions, AboutToReport()) == EverFailed(slots, actions)
    decreases |actions|
  {
    if actions != [] {
      hide Next, SumSeq, Proper;
      var init, a := actions[..|actions| - 1], actions[|actions| - 1];
      var before := Run(Init(slots), init);
      TotalsAreHistory(slots, init, l);
      RunKeepsInv(slots, init);
      if Next(before, a).Some? {
        StepCounts(before, a, l);
      }
    }
  }

  /** The gauge and the sum of its labelled gauges differ by at most the handlers caught between two updates. */
  lemma GaugesAlmostAgree(slots: nat, actions: seq<Action>)
    ensures var s := Run(Init(slots), actions);
      && s.metrics.active - SumMap(s.metrics.activeBy) <= CountInBetween(s.sessions)
      && SumMap(s.metrics.activeBy) - s.metrics.active <= CountInBetween(s.sessions)
  {
    RunKeepsInv(slots, actions);
    var s := Run(Init(slots), actions);
    hide Run;
    AlmostAgree(s.sessions);
  }

  lemma {:induction false} AlmostAgree(xs: seq<Session>)
    requires forall x | x in xs :: Proper(x)
    ensures CountActive(xs) - CountLabelled(xs) <= CountInBetween(xs)
    ensures CountLabelled(xs) - CountActive(xs) <= CountInBetween(xs)
  {
    if xs != [] {
      AlmostAgree(xs[1..]);
      assert xs[0] in xs;
    }
  }

  /**
   Whenever no handler is between two updates, the active gauge is the number of open
   connections, each labelled gauge the number with those labels, and they add up.
   */
  lemma GaugesAgree(slots: nat, actions: seq<Action>)
    ensures var s := Run(Init(slots), actions);
      (forall x | x in s.sessions :: !InBetween(x)) ==>
        && s.metrics.active == CountOpen(s.sessions)
        && s.metrics.active == SumMap(s.metrics.activeBy)
        && forall l :: Reading(s.metrics.activeBy, l) == CountOpenAs(s.sessions, l)
  {
    RunKeepsInv(slots, actions);
    var s := Run(Init(slots), actions);
    hide Run;
    if forall x | x in s.sessions :: !InBetween(x) {
      Settled(s.sessions);
      forall l
        ensures CountLabelledAs(s.sessions, l) == CountOpenAs(s.sessions, l)
      {
        SumSame(s.sessions, (x: Session) => One(IsLabelled(x) && x.labels == l), (x: Session) => One(x.phase == Open && x.labels == l));
      }
    }
  }

  lemma Settled(xs: seq<Session>)
    requires forall x | x in xs :: Proper(x) && !InBetween(x)
    ensures CountActive(xs) == CountOpen(xs) == CountLabelled(xs)
  {
    SumSame(xs, x => One(IsActive(x)), (x: Session) => One(x.phase == Open));
    SumSame(xs, x => One(IsLabelled(x)), (x: Session) => One(x.phase == Open));
  }

  /** Once every handler has ended, all gauges read zero and every slot is free. */
  lemma NothingLeaks(slots: nat, actions: seq<Action>)
    ensures var s := Run(Init(slots), actions);
      (forall x | x in s.sessions :: x.phase == Released) ==>
        s.free == slots && s.metrics.active == 0 && forall l :: Reading(s.metrics.activeBy, l) == 0
  {
    RunKeepsInv(slots, actions);
    var s := Run(Init(slots), actions);
    hide Run;
    if forall x | x in s.sessions :: x.phase == Released {
      SumZero(s.sessions, x => One(IsActive(x)));
      SumZero(s.sessions, x => One(HoldsSlot(x)));
      forall l
        ensures CountLabelledAs(s.sessions, l) == 0
      {
        SumZero(s.sessions, (x: Session) => One(IsLabelled(x) && x.labels == l));
      }
    }
  }

  lemma SumZero(xs: seq<Session>, f: Session -> nat)
    ensures (forall x | x in xs :: f(x) == 0) ==> SumSeq(xs, f) == 0
  {
  }

  // ---------------------------------------------------------------- the program

  function OpenedIn(m: Metrics, l: Labels): Metrics {
    Metrics(m.active + 1, m.total + 1, Bump(m.activeBy, l, 1), Bump(m.totalBy, l, 1), m.errors)
  }

  function ClosedIn(m: Metrics, l: Labels): Metrics {
    m.(active := m.active - 1, activeBy := Bump(m.activeBy, l, -1))
  }

  function FailedIn(m: Metrics, l: Labels, wasOpen: bool): Metrics {
    var failed := m.(errors := m.errors + 1);
    if wasOpen then ClosedIn(failed, l) else failed
  }

  /** Several updates of one handler in a row. */
  function AdvancedBy(x: Session, m: Metrics, n: nat): Option<(Session, Metrics)>
    decreases n
  {
    if n == 0 then Some((x, m))
    else match Advanced(x, m)
      case None => None
      case Some((y, m')) => AdvancedBy(y, m', n - 1)
  }

  /** The metrics calls are the handler's updates made without interruption. */
  lemma CallsAreUpdates(x: Session, m: Metrics)
    ensures x.phase == Setup ==>
      AdvancedBy(x, m, 5) == Some((x.(phase := Open, wasOpen := true), OpenedIn(m, x.labels)))
    ensures x.phase == Open ==>
      AdvancedBy(x, m, 3) == Some((x.(phase := Finished, wasOpen := false), ClosedIn(m, x.labels)))
    ensures x.phase == Failing(0) ==>
      AdvancedBy(x, m, if x.wasOpen then 3 else 2) == Some((x.(phase := Finished), FailedIn(m, x.labels, x.wasOpen)))
  {
  }

  /** How a handler can end. */
  datatype Outcome = Rejected | FailedEarly | FailedOpen | Completed

  class Registry {
    var active: int
    var total: int
    var activeBy: map<Labels, int>
    var totalBy: map<Labels, int>
    var errors: int

    function Value(): Metrics
      reads this
    {
      Metrics(active, total, activeBy, totalBy, errors)
    }

    constructor ()
      ensures Value() == Metrics(0, 0, map[], map[], 0)
    {
      active, total, activeBy, totalBy, errors := 0, 0, map[], map[], 0;
    }

    method ConnectionOpened(l: Labels)
      modifies this
      ensures Value() == OpenedIn(old(Value()), l)
    {
      active := active + 1;
      total := total + 1;
      activeBy := Bump(activeBy, l, 1);
      totalBy := Bump(totalBy, l, 1);
    }

    method ConnectionClosed(l: Labels)
      modifies this
      ensures Value() == ClosedIn(old(Value()), l)
    {
      active := active - 1;
      activeBy := Bump(activeBy, l, -1);
    }

    method ConnectionFailed(l: Labels, wasOpen: bool)
      modifies this
      ensures Value() == FailedIn(old(Value()), l, wasOpen)
    {
      errors := errors + 1;
      if wasOpen {
        active := active - 1;
        activeBy := Bump(activeBy, l, -1);
      }
    }

    /**
     The life of one handler. However it ends, it leaves the gauges as it found them; the
     total counts it if it connected, the errors if it failed.
     */
    method HandleConnection(l: Labels, outcome: Outcome)
      modifies this
      ensures active == old(active)
      ensures forall k :: Reading(activeBy, k) == Reading(old(activeBy), k)
      ensures total == old(total) + One(outcome == FailedOpen || outcome == Completed)
      ensures forall k :: Reading(totalBy, k) == Reading(old(totalBy), k) + One(k == l && (outcome == FailedOpen || outcome == Completed))
      ensures errors == old(errors) + One(outcome == FailedEarly || outcome == FailedOpen)
    {
      var isOpen := false;
      var failed := outcome == FailedEarly;
      if outcome == FailedOpen || outcome == Completed {
        ConnectionOpened(l);
        isOpen := true;
        if outcome == FailedOpen {
          failed := true;
        } else {
          ConnectionClosed(l);
          isOpen := false;
        }
      }
      if failed {
        ConnectionFailed(l, isOpen);
      }
    }
  }
}
