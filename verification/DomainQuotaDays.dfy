/**
 The daily connection limit under concurrency, with a clock that never goes back.

 An admission is charged to the day its check read from the clock. Only with at most one
 connection slot and no state file is no day charged more than the limit. Otherwise someone
 else refreshes the counters at the same time, and the limit fails in two ways: between the
 switch of the day and the zeroing of the counter, others are admitted and then forgotten;
 and a session or a saver that read the clock before midnight switches the day back, so that
 the next check zeroes the counter of the new day. If an admission is instead counted on the
 day at which it is made, one slot alone can exceed the limit.
 */
module DomainQuotaDays {
  import opened Wrappers
  import opened DomainQuota
  import opened DomainQuotaRuns
  import opened DomainQuotaOneSlot

  // ------------------------------------------------------------- nobody is admitted

  /** No session can ever be admitted. */
  predicate Closed(cfg: Config) {
    cfg.slots == 0 || cfg.connections == Some(0) || cfg.bandwidth == Some(0)
  }

  ghost predicate Barred(cfg: Config, s: State) {
    && s.ledger.byRead == multiset{} && s.ledger.byClock == multiset{}
    && (cfg.connections == Some(0) || (forall x | x in s.sessions :: x.Vacant? || x.Checking?))
    && (cfg.connections == Some(0) || cfg.bandwidth == Some(0) || |s.sessions| == 0)
  }

  lemma StepStaysBarred(cfg: Config, s: State, a: Action, s': State)
    requires Barred(cfg, s) && Next(cfg, s, a) == Some(s')
    ensures Barred(cfg, s')
  {
    if a.BySession() {
      assert s.sessions[a.i] in s.sessions;
      assert s'.sessions == s.sessions[a.i := s'.sessions[a.i]];
    } else {
      OthersLeaveSessions(cfg, s, a, s');
    }
  }

  lemma RunStaysBarred(cfg: Config, start: nat, actions: seq<Action>)
    ensures Closed(cfg) ==> forall t :: Run(cfg, Init(cfg, start), actions) == Some(t) ==> Barred(cfg, t)
  {
    if Closed(cfg) {
      var p := s => Barred(cfg, s);
      forall s, a, s' | p(s) && Next(cfg, s, a) == Some(s')
        ensures p(s')
      {
        StepStaysBarred(cfg, s, a, s');
      }
      RunKeeps(cfg, Init(cfg, start), actions, _ => true, p);
    }
  }

  // -------------------------------------------------------------------- theorems

  /**
   The daily limit, by the day the check read: it holds in every interleaving with a
   forward clock if and only if nobody is ever admitted, or there is at most one slot and
   no state file, hence nothing that refreshes the counters beside the one session.
   */
  lemma DailyLimitExactly(cfg: Config, start: nat, limit: nat)
    requires cfg.connections == Some(limit)
    ensures (forall actions | Forward(actions, start) :: RunKeepsDays(cfg, start, actions, limit)) <==>
            Closed(cfg) || (cfg.slots <= 1 && !cfg.persistent)
  {
    var s := Init(cfg, start);
    if !Closed(cfg) && (cfg.slots >= 2 || cfg.persistent) {
      var t: State;
      if cfg.slots >= 2 {
        t := SwitchedBack(cfg, start, limit);
      } else {
        t := SavedBack(cfg, start, limit);
      }
      var actions :| Forward(actions, s.clock) && Run(cfg, s, actions) == Some(t);
      assert !DaysKept(cfg, start, t, limit);
      assert !RunKeepsDays(cfg, start, actions, limit);
    } else {
      forall actions | Forward(actions, start)
        ensures RunKeepsDays(cfg, start, actions, limit)
      {
        if Closed(cfg) {
          RunStaysBarred(cfg, start, actions);
        } else {
          RunKeepsOneSlot(cfg, start, s, actions, limit);
        }
      }
    }
  }

  /** No day of the clock sees more admissions than the limit. */
  ghost predicate RunKeepsClockDays(cfg: Config, start: nat, actions: seq<Action>, limit: nat) {
    var r := Run(cfg, Init(cfg, start), actions);
    r.Some? ==> forall d: nat :: r.value.ledger.byClock[d] <= limit
  }

  /** By the day on which admissions are made, the limit holds if and only if there are none. */
  lemma ClockDayLimitExactly(cfg: Config, start: nat, limit: nat)
    requires cfg.connections == Some(limit)
    ensures (forall actions | Forward(actions, start) :: RunKeepsClockDays(cfg, start, actions, limit)) <==> Closed(cfg)
  {
    var s := Init(cfg, start);
    if !Closed(cfg) {
      var t := SpannedMidnight(cfg, start, limit);
      var actions :| Forward(actions, s.clock) && Run(cfg, s, actions) == Some(t);
      assert !RunKeepsClockDays(cfg, start, actions, limit);
    } else {
      forall actions | Forward(actions, start)
        ensures RunKeepsClockDays(cfg, start, actions, limit)
      {
        RunStaysBarred(cfg, start, actions);
      }
    }
  }

  // ------------------------------------------------------------ runs with a clock

  ghost predicate Leads(cfg: Config, s: State, t: State) {
    exists actions :: Forward(actions, s.clock) && Run(cfg, s, actions) == Some(t)
  }

  lemma {:induction false} TickFreeIsForward(actions: seq<Action>, from: nat)
    requires TickFree(actions)
    ensures Forward(actions, from)
    decreases actions
  {
    if actions != [] {
      assert actions[0] in actions;
      TickFreeIsForward(actions[1..], from);
    }
  }

  lemma ReachesLeads(cfg: Config, s: State, t: State)
    requires Reaches(cfg, s, t)
    ensures Leads(cfg, s, t)
  {
    var actions :| TickFree(actions) && Run(cfg, s, actions) == Some(t);
    TickFreeIsForward(actions, s.clock);
  }

  lemma Later(cfg: Config, s: State, now: nat)
    requires s.clock <= now
    ensures Leads(cfg, s, s.(clock := now))
  {
    var actions := [Tick(now)];
    assert actions[1..] == [] && Forward(actions[1..], now);
    assert Next(cfg, s, actions[0]) == Some(s.(clock := now));
    assert Forward(actions, s.clock) && Run(cfg, s, actions) == Some(s.(clock := now));
  }

  lemma {:induction false} ForwardAppend(cfg: Config, s: State, a: seq<Action>, b: seq<Action>, t: State)
    requires Run(cfg, s, a) == Some(t) && Forward(a, s.clock) && Forward(b, t.clock)
    ensures Forward(a + b, s.clock)
    decreases a
  {
    if a == [] {
      assert a + b == b;
    } else {
      assert (a + b)[1..] == a[1..] + b && (a + b)[0] == a[0];
      var s' := Next(cfg, s, a[0]).value;
      assert s'.clock == if a[0].Tick? then a[0].now else s.clock by { ClockAfter(cfg, s, a[0], s'); }
      ForwardAppend(cfg, s', a[1..], b, t);
    }
  }

  lemma ClockAfter(cfg: Config, s: State, a: Action, s': State)
    ensures Next(cfg, s, a) == Some(s') ==> s'.clock == if a.Tick? then a.now else s.clock
  {
  }

  lemma Then(cfg: Config, s: State, t: State, u: State)
    requires Leads(cfg, s, t) && Leads(cfg, t, u)
    ensures Leads(cfg, s, u)
  {
    var a :| Forward(a, s.clock) && Run(cfg, s, a) == Some(t);
    var b :| Forward(b, t.clock) && Run(cfg, t, b) == Some(u);
    RunAppend(cfg, s, a, b);
    ForwardAppend(cfg, s, a, b, t);
  }

  // ------------------------------------------------------------ building blocks

  /** The bandwidth check lets sessions through. */
  predicate Roomy(cfg: Config, s: State) {
    cfg.bandwidth.Some? ==> s.bytes < cfg.bandwidth.value
  }

  /** The state after a session has been admitted and has left. */
  function Served(cfg: Config, s: State, i: nat, today: nat): State
    requires i < |s.sessions|
  {
    Put(s, i, Vacant).(connections := s.connections + 1, ledger := Admit(s.ledger, today, s.clock), dirty := s.dirty || cfg.persistent)
  }

  /** A refreshed check is admitted, and the session leaves again. */
  lemma AdmitFresh(cfg: Config, s: State, i: nat, today: nat, limit: nat)
    requires cfg.connections == Some(limit) && s.connections < limit && Roomy(cfg, s)
    requires i < |s.sessions| && s.sessions[i] == Checking(Fresh(today))
    ensures Leads(cfg, s, Served(cfg, s, i, today))
  {
    hide Reaches, Leads, Run, Next, Admit;
    GetAdmitted(cfg, s, i, today, limit);
    var admitted := s.(connections := s.connections + 1, ledger := Admit(s.ledger, today, s.clock));
    var s1 := Put(admitted, i, if cfg.persistent then MarkingDirty else Admitted);
    MarkAndLeave(cfg, s1, i);
    var t := Served(cfg, s, i, today);
    assert t.sessions == s1.sessions[i := Vacant];
    Onwards(cfg, s, s1, t);
    ReachesLeads(cfg, s, t);
  }

  lemma GetAdmitted(cfg: Config, s: State, i: nat, today: nat, limit: nat)
    requires cfg.connections == Some(limit) && s.connections < limit && Roomy(cfg, s)
    requires i < |s.sessions| && s.sessions[i] == Checking(Fresh(today))
    ensures var admitted := s.(connections := s.connections + 1, ledger := Admit(s.ledger, today, s.clock));
            Reaches(cfg, s, Put(admitted, i, if cfg.persistent then MarkingDirty else Admitted))
  {
    hide Reaches, Run, Admit;
    var s1 := Put(s, i, LoadingConnections(today));
    var s2 := Put(s1, i, Admitting(today, s.connections));
    var next: Session := if cfg.persistent then MarkingDirty else Admitted;
    var s3 := Put(s2.(connections := s.connections + 1, ledger := Admit(s.ledger, today, s.clock)), i, next);
    Steps(cfg, s, [CheckBytes(i), LoadConnections(i), TryAdmit(i, false)], [s, s1, s2, s3]);
    assert s3.sessions == s.sessions[i := next];
  }

  lemma MarkAndLeave(cfg: Config, s: State, i: nat)
    requires i < |s.sessions| && s.sessions[i] == if cfg.persistent then MarkingDirty else Admitted
    ensures Reaches(cfg, s, Put(s, i, Vacant).(dirty := s.dirty || cfg.persistent))
  {
    if cfg.persistent {
      var s1 := Put(s.(dirty := true), i, Admitted);
      var t := Put(s1, i, Vacant);
      Steps(cfg, s, [MarkAdmission(i), Leave(i)], [s, s1, t]);
      assert t.sessions == s.sessions[i := Vacant];
    } else {
      Steps(cfg, s, [Leave(i)], [s, Put(s, i, Vacant)]);
    }
  }

  /** Whole checks, one after the other, on a day whose counters are already in place. */
  lemma {:induction false} AdmitMany(cfg: Config, s: State, i: nat, limit: nat, n: nat) returns (t: State)
    requires cfg.connections == Some(limit) && s.connections + n <= limit && Roomy(cfg, s) && s.day == s.clock
    requires i < |s.sessions| && s.sessions[i] == Vacant
    ensures Leads(cfg, s, t) && t == s.(connections := s.connections + n, ledger := t.ledger, dirty := t.dirty)
    ensures t.ledger.byRead[s.clock] == s.ledger.byRead[s.clock] + n
    ensures t.ledger.byClock[s.clock] == s.ledger.byClock[s.clock] + n
    decreases n
  {
    if n == 0 {
      t := s;
      Stays(cfg, s);
      ReachesLeads(cfg, s, s);
    } else {
      var s1 := Put(s, i, Checking(ReadClock));
      var s2 := Put(s1, i, Checking(LoadDay(s.clock)));
      var s3 := Put(s2, i, Checking(Fresh(s.clock)));
      Steps(cfg, s, [Arrive(i), CheckRefresh(i), CheckRefresh(i)], [s, s1, s2, s3]);
      ReachesLeads(cfg, s, s3);
      hide Leads, Reaches, Run, Next;
      AdmitFresh(cfg, s3, i, s.clock, limit);
      var s4 := Served(cfg, s3, i, s.clock);
      Then(cfg, s, s3, s4);
      assert s4.sessions == s.sessions;
      t := AdmitMany(cfg, s4, i, limit, n - 1);
      Then(cfg, s, s4, t);
    }
  }

  /** The books after both zeroings of a refresh. */
  function Zeroed(l: Ledger): Ledger {
    l.(added := 0, baseBytes := 0, admitted := 0, baseConnections := 0)
  }

  /** The state after a refresh to a given day has switched and zeroed. */
  function Switched(s: State, day: nat): State {
    s.(day := day, bytes := 0, connections := 0, ledger := Zeroed(s.ledger))
  }

  /** The state when a refresh to a given day has switched and not yet zeroed the connections. */
  function HalfSwitched(s: State, day: nat): State {
    s.(day := day, bytes := 0, ledger := s.ledger.(added := 0, baseBytes := 0))
  }

  /** A check that finds another day in the counters up to the zeroing of the connections. */
  lemma SwitchDay(cfg: Config, s: State, i: nat)
    requires i < |s.sessions| && s.sessions[i] == Vacant && s.day != s.clock
    ensures Leads(cfg, s, Put(HalfSwitched(s, s.clock), i, Checking(ZeroConnections(s.clock))))
  {
    var today := s.clock;
    var s1 := Put(s, i, Checking(ReadClock));
    var s2 := Put(s1, i, Checking(LoadDay(today)));
    var s3 := Put(s2, i, Checking(SwapDay(today, s.day)));
    var s4 := Put(s3.(day := today), i, Checking(ZeroBytes(today)));
    var t := Put(s4.(bytes := 0, ledger := s.ledger.(added := 0, baseBytes := 0)), i, Checking(ZeroConnections(today)));
    Steps(cfg, s, [Arrive(i), CheckRefresh(i), CheckRefresh(i), CheckRefresh(i), CheckRefresh(i)], [s, s1, s2, s3, s4, t]);
    ReachesLeads(cfg, s, t);
    assert t.sessions == s.sessions[i := Checking(ZeroConnections(today))];
  }

  function NoConnections(s: State): State {
    s.(connections := 0, ledger := s.ledger.(admitted := 0, baseConnections := 0))
  }

  lemma ZeroThem(cfg: Config, s: State, i: nat, today: nat)
    requires i < |s.sessions| && s.sessions[i] == Checking(ZeroConnections(today))
    ensures Leads(cfg, s, Put(NoConnections(s), i, Checking(Fresh(today))))
  {
    var t := Put(NoConnections(s), i, Checking(Fresh(today)));
    Steps(cfg, s, [CheckRefresh(i)], [s, t]);
    ReachesLeads(cfg, s, t);
  }

  function Entered(s: State, i: nat, day: nat): State
    requires i < |s.sessions|
  {
    Put(Switched(s, day), i, Checking(Fresh(day)))
  }

  /** The first check of a day: it zeroes the counters and is ready to be admitted. */
  lemma EnterDay(cfg: Config, s: State, i: nat)
    requires i < |s.sessions| && s.sessions[i] == Vacant && s.day != s.clock
    ensures Leads(cfg, s, Entered(s, i, s.clock))
  {
    SwitchDay(cfg, s, i);
    var s1 := Put(HalfSwitched(s, s.clock), i, Checking(ZeroConnections(s.clock)));
    ZeroThem(cfg, s1, i, s.clock);
    var t := Put(NoConnections(s1), i, Checking(Fresh(s.clock)));
    Then(cfg, s, s1, t);
    assert t.sessions == s.sessions[i := Checking(Fresh(s.clock))];
  }

  // ---------------------------------------------------------------- the failures

  /** A domain whose sessions can be admitted. */
  predicate Admittable(cfg: Config, limit: nat) {
    cfg.connections == Some(limit) && limit > 0 && cfg.bandwidth != Some(0)
  }

  function Min(a: nat, b: nat): nat {
    if a < b then a else b
  }

  /**
   A stalled zeroing: one session has switched the day, another is admitted until the old
   counter is full, and after the zeroing again up to the limit. On a day after an unused
   one, twice the limit is charged.
   */
  lemma StalledZeroing(cfg: Config, start: nat, limit: nat) returns (t: State)
    requires Admittable(cfg, limit) && cfg.slots >= 2
    ensures Leads(cfg, Init(cfg, start), t)
    ensures t.ledger.byRead[start + 1] == 2 * limit - Min(cfg.restoredConnections, limit)
  {
    hide Leads, Reaches, Run, Next;
    var s0 := Init(cfg, start);
    var first := limit - Min(cfg.restoredConnections, limit);
    Later(cfg, s0, start + 1);
    var s1 := s0.(clock := start + 1);
    SwitchDay(cfg, s1, 0);
    var s2 := Put(HalfSwitched(s1, start + 1), 0, Checking(ZeroConnections(start + 1)));
    var s3 := s2;
    if first > 0 {
      s3 := AdmitMany(cfg, s2, 1, limit, first);
    } else {
      Stays(cfg, s2);
      ReachesLeads(cfg, s2, s2);
    }
    ZeroThem(cfg, s3, 0, start + 1);
    var s4 := Put(NoConnections(s3), 0, Checking(Fresh(start + 1)));
    t := AdmitMany(cfg, s4, 1, limit, limit);
    Then(cfg, s0, s1, s2);
    Then(cfg, s0, s2, s3);
    Then(cfg, s0, s3, s4);
    Then(cfg, s0, s4, t);
  }

  /** A check that read the clock on the day before switches the day back. */
  lemma SwitchBack(cfg: Config, s: State, i: nat, yesterday: nat)
    requires i < |s.sessions| && s.sessions[i] == Checking(LoadDay(yesterday)) && s.day != yesterday
    ensures Leads(cfg, s, Entered(s, i, yesterday))
  {
    var s1 := Put(s, i, Checking(SwapDay(yesterday, s.day)));
    var s2 := Put(s1.(day := yesterday), i, Checking(ZeroBytes(yesterday)));
    var s3 := Put(s2.(bytes := 0, ledger := s.ledger.(added := 0, baseBytes := 0)), i, Checking(ZeroConnections(yesterday)));
    Steps(cfg, s, [CheckRefresh(i), CheckRefresh(i), CheckRefresh(i)], [s, s1, s2, s3]);
    ReachesLeads(cfg, s, s3);
    ZeroThem(cfg, s3, i, yesterday);
    var t := Put(NoConnections(s3), i, Checking(Fresh(yesterday)));
    Then(cfg, s, s3, t);
    assert t.sessions == s.sessions[i := Checking(Fresh(yesterday))];
  }

  /**
   A day switched back: one session reads the clock before midnight, the limit is used up
   after midnight, the late session switches the day back, and the next check zeroes the
   counter of the new day and is admitted.
   */
  lemma SwitchedBack(cfg: Config, start: nat, limit: nat) returns (t: State)
    requires Admittable(cfg, limit) && cfg.slots >= 2
    ensures Leads(cfg, Init(cfg, start), t) && t.ledger.byRead[start + 1] == limit + 1
  {
    var s0 := Init(cfg, start);
    var s1 := Put(s0, 0, Checking(ReadClock));
    var s2 := Put(s1, 0, Checking(LoadDay(start)));
    Steps(cfg, s0, [Arrive(0), CheckRefresh(0)], [s0, s1, s2]);
    ReachesLeads(cfg, s0, s2);
    var s3 := s2.(clock := start + 1);
    Later(cfg, s2, start + 1);
    Then(cfg, s0, s2, s3);
    hide Leads;
    t := AfterMidnight(cfg, s3, start, limit);
    Then(cfg, s0, s3, t);
  }

  lemma AfterMidnight(cfg: Config, s: State, yesterday: nat, limit: nat) returns (t: State)
    requires Admittable(cfg, limit) && s.day == yesterday < s.clock
    requires |s.sessions| >= 2 && s.sessions[0] == Checking(LoadDay(yesterday)) && s.sessions[1] == Vacant
    ensures Leads(cfg, s, t) && t.ledger.byRead[s.clock] == s.ledger.byRead[s.clock] + limit + 1
  {
    hide Leads, Reaches, Run, Next;
    var s1 := UseUp(cfg, s, 1, limit);
    SwitchBack(cfg, s1, 0, yesterday);
    var s2 := Entered(s1, 0, yesterday);
    EnterDay(cfg, s2, 1);
    var s3 := Entered(s2, 1, s.clock);
    AdmitFresh(cfg, s3, 1, s.clock, limit);
    t := Served(cfg, s3, 1, s.clock);
    Then(cfg, s, s1, s2);
    Then(cfg, s, s2, s3);
    Then(cfg, s, s3, t);
  }

  /** The first session of a day and as many more as the limit allows. */
  lemma UseUp(cfg: Config, s: State, i: nat, limit: nat) returns (t: State)
    requires Admittable(cfg, limit) && i < |s.sessions| && s.sessions[i] == Vacant && s.day != s.clock
    ensures Leads(cfg, s, t) && t == Switched(s, s.clock).(connections := limit, ledger := t.ledger, dirty := t.dirty)
    ensures (t.ledger.byRead[s.clock], t.ledger.byClock[s.clock]) == (s.ledger.byRead[s.clock] + limit, s.ledger.byClock[s.clock] + limit)
  {
    hide Leads, Reaches, Run, Next;
    EnterDay(cfg, s, i);
    var s1 := Entered(s, i, s.clock);
    AdmitFresh(cfg, s1, i, s.clock, limit);
    var s2 := Served(cfg, s1, i, s.clock);
    t := AdmitMany(cfg, s2, i, limit, limit - 1);
    Then(cfg, s, s1, s2);
    Then(cfg, s, s2, t);
    assert t.sessions == s.sessions;
  }

  /** A check that spans midnight is made on the new day but charged to the old one. */
  lemma SpannedMidnight(cfg: Config, start: nat, limit: nat) returns (t: State)
    requires Admittable(cfg, limit) && cfg.slots >= 1
    ensures Leads(cfg, Init(cfg, start), t) && t.ledger.byClock[start + 2] == limit + 1
  {
    var s0 := Init(cfg, start);
    var s1 := s0.(clock := start + 1);
    Later(cfg, s0, start + 1);
    t := OverMidnight(cfg, s1, limit);
    Then(cfg, s0, s1, t);
  }

  lemma OverMidnight(cfg: Config, s: State, limit: nat) returns (t: State)
    requires Admittable(cfg, limit) && |s.sessions| >= 1 && s.sessions[0] == Vacant && s.day != s.clock
    ensures Leads(cfg, s, t)
    ensures t.ledger.byClock[s.clock + 1] == s.ledger.byClock[s.clock + 1] + limit + 1
  {
    hide Leads, Reaches, Run, Next;
    EnterDay(cfg, s, 0);
    var s1 := Entered(s, 0, s.clock);
    var s2 := s1.(clock := s.clock + 1);
    Later(cfg, s1, s.clock + 1);
    AdmitFresh(cfg, s2, 0, s.clock, limit);
    var s3 := Served(cfg, s2, 0, s.clock);
    t := UseUp(cfg, s3, 0, limit);
    Then(cfg, s, s1, s2);
    Then(cfg, s, s2, s3);
    Then(cfg, s, s3, t);
  }

  /** The flushing task finds the flag up and reads the clock. */
  lemma SaverReads(cfg: Config, s: State)
    requires cfg.persistent && s.dirty && s.flusher == Asleep && s.closer == Asleep
    ensures Leads(cfg, s, s.(flusher := Refreshing(LoadDay(s.clock))))
  {
    var s1 := s.(flusher := Refreshing(ReadClock));
    var t := s.(flusher := Refreshing(LoadDay(s.clock)));
    Steps(cfg, s, [StartSave(false), SaveRefresh(false)], [s, s1, t]);
    ReachesLeads(cfg, s, t);
  }

  /** A saver that read the clock on the day before switches the day back and zeroes the counters. */
  lemma SaverSwitchesBack(cfg: Config, s: State, yesterday: nat)
    requires s.flusher == Refreshing(LoadDay(yesterday)) && s.day != yesterday
    ensures Leads(cfg, s, Switched(s, yesterday).(flusher := Refreshing(Fresh(yesterday))))
  {
    var s1 := s.(flusher := Refreshing(SwapDay(yesterday, s.day)));
    var s2 := s.(day := yesterday, flusher := Refreshing(ZeroBytes(yesterday)));
    var s3 := s2.(bytes := 0, ledger := s.ledger.(added := 0, baseBytes := 0), flusher := Refreshing(ZeroConnections(yesterday)));
    var t := s3.(connections := 0, ledger := s3.ledger.(admitted := 0, baseConnections := 0), flusher := Refreshing(Fresh(yesterday)));
    Steps(cfg, s, [SaveRefresh(false), SaveRefresh(false), SaveRefresh(false), SaveRefresh(false)], [s, s1, s2, s3, t]);
    ReachesLeads(cfg, s, t);
  }

  /**
   A day switched back by a saver: an admission makes the counters dirty, the flushing task
   reads the clock before midnight, the limit is used up after midnight, the task switches
   the day back, and the next check zeroes the counter of the new day and is admitted.
   */
  lemma SavedBack(cfg: Config, start: nat, limit: nat) returns (t: State)
    requires Admittable(cfg, limit) && cfg.slots >= 1 && cfg.persistent
    ensures Leads(cfg, Init(cfg, start), t) && t.ledger.byRead[start + 2] == limit + 1
  {
    var s0 := Init(cfg, start);
    var s1 := s0.(clock := start + 1);
    Later(cfg, s0, start + 1);
    t := SaveOverMidnight(cfg, s1, limit);
    Then(cfg, s0, s1, t);
  }

  lemma SaveOverMidnight(cfg: Config, s: State, limit: nat) returns (t: State)
    requires Admittable(cfg, limit) && cfg.persistent && s.flusher == Asleep && s.closer == Asleep
    requires |s.sessions| >= 1 && s.sessions[0] == Vacant && s.day != s.clock
    ensures Leads(cfg, s, t)
    ensures t.ledger.byRead[s.clock + 1] == s.ledger.byRead[s.clock + 1] + limit + 1
  {
    hide Leads, Reaches, Run, Next;
    EnterDay(cfg, s, 0);
    var s1 := Entered(s, 0, s.clock);
    AdmitFresh(cfg, s1, 0, s.clock, limit);
    var s2 := Served(cfg, s1, 0, s.clock);
    SaverReads(cfg, s2);
    var s3 := s2.(flusher := Refreshing(LoadDay(s.clock)));
    var s4 := s3.(clock := s.clock + 1);
    Later(cfg, s3, s.clock + 1);
    t := SaverAfterMidnight(cfg, s4, s.clock, limit);
    Then(cfg, s, s1, s2);
    Then(cfg, s, s2, s3);
    Then(cfg, s, s3, s4);
    Then(cfg, s, s4, t);
  }

  lemma SaverAfterMidnight(cfg: Config, s: State, yesterday: nat, limit: nat) returns (t: State)
    requires Admittable(cfg, limit) && s.flusher == Refreshing(LoadDay(yesterday)) && s.day == yesterday < s.clock
    requires |s.sessions| >= 1 && s.sessions[0] == Vacant
    ensures Leads(cfg, s, t) && t.ledger.byRead[s.clock] == s.ledger.byRead[s.clock] + limit + 1
  {
    hide Leads, Reaches, Run, Next;
    var s1 := UseUp(cfg, s, 0, limit);
    SaverSwitchesBack(cfg, s1, yesterday);
    var s2 := Switched(s1, yesterday).(flusher := Refreshing(Fresh(yesterday)));
    EnterDay(cfg, s2, 0);
    var s3 := Entered(s2, 0, s.clock);
    AdmitFresh(cfg, s3, 0, s.clock, limit);
    t := Served(cfg, s3, 0, s.clock);
    Then(cfg, s, s1, s2);
    Then(cfg, s, s2, s3);
    Then(cfg, s, s3, t);
  }
}
