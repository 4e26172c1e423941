/**
 The daily connection limit with one connection slot and no state file: nobody else
 refreshes the counters, and with a clock that never goes back the limit holds.
 */
module DomainQuotaOneSlot {
  import opened Wrappers
  import opened DomainQuota
  import opened DomainQuotaRuns

  /** The clock starts at `from` and never goes back. */
  ghost predicate Forward(actions: seq<Action>, from: nat)
    decreases actions
  {
    actions != [] ==>
      if actions[0].Tick? then from <= actions[0].now && Forward(actions[1..], actions[0].now)
      else Forward(actions[1..], from)
  }

  /** What is charged to a day: its admissions, and on the first day the usage restored. */
  function Charged(cfg: Config, start: nat, l: Ledger, d: nat): nat {
    l.byRead[d] + if d == start then cfg.restoredConnections else 0
  }

  /** No day with an admission is charged more than the limit. */
  ghost predicate DaysKept(cfg: Config, start: nat, s: State, limit: nat) {
    forall d: nat :: s.ledger.byRead[d] > 0 ==> Charged(cfg, start, s.ledger, d) <= limit
  }

  ghost predicate RunKeepsDays(cfg: Config, start: nat, actions: seq<Action>, limit: nat) {
    var r := Run(cfg, Init(cfg, start), actions);
    r.Some? ==> DaysKept(cfg, start, r.value, limit)
  }

  // ---------------------------------------------------------------------- one slot

  /** The day a check has read, or the day it will read if nothing changes. */
  function ReadDay(x: Session, clock: nat): nat {
    match x
    case Checking(r) => if r.ReadClock? then clock else r.today
    case LoadingConnections(today) => today
    case Admitting(today, _) => today
    case _ => clock
  }

  /** The counter covers what is charged to a day. */
  ghost predicate Covers(cfg: Config, start: nat, s: State, d: nat) {
    s.day == d && s.connections >= Charged(cfg, start, s.ledger, d)
  }

  ghost predicate OnlySlot(cfg: Config, start: nat, s: State, x: Session) {
    var t := ReadDay(x, s.clock);
    var charged := Charged(cfg, start, s.ledger, t);
    && t <= s.clock
    && (forall d: nat | d > t :: Charged(cfg, start, s.ledger, d) == 0)
    && match x
       case Checking(SwapDay(_, stored)) => charged == 0 && s.day == stored
       case Checking(ZeroBytes(_)) => charged == 0 && s.day == t
       case Checking(ZeroConnections(_)) => charged == 0 && s.day == t
       case Checking(Fresh(_)) => Covers(cfg, start, s, t)
       case LoadingConnections(_) => Covers(cfg, start, s, t)
       case Admitting(_, _) => Covers(cfg, start, s, t)
       case Splicing(_, _) => charged > 0 ==> Covers(cfg, start, s, t) && CalmSession(x, t)
       case _ => charged > 0 ==> Covers(cfg, start, s, t)
  }

  ghost predicate OneSlotInv(cfg: Config, start: nat, s: State, limit: nat) {
    && cfg.connections == Some(limit) && |s.sessions| <= 1
    && !cfg.persistent && s.flusher == Asleep && s.closer == Asleep
    && DaysKept(cfg, start, s, limit)
    && (|s.sessions| == 1 ==> OnlySlot(cfg, start, s, s.sessions[0]))
  }

  lemma StepKeepsOneSlot(cfg: Config, start: nat, s: State, a: Action, s': State, limit: nat)
    requires OneSlotInv(cfg, start, s, limit) && Next(cfg, s, a) == Some(s')
    requires a.Tick? ==> s.clock <= a.now
    ensures OneSlotInv(cfg, start, s', limit) && s'.clock == if a.Tick? then a.now else s.clock
  {
    if a.Tick? {
      assert s' == s.(clock := a.now);
    } else {
      hide Next, OnlySlot;
      SlotReplaced(cfg, s, a, s');
      SaversSleep(cfg, s, a, s');
      if a.CheckRefresh? {
        CheckKeepsSlot(cfg, start, s, a, s');
      } else if a.AccountRefresh? {
        AccountKeepsSlot(cfg, start, s, a, s');
      } else if a.TryAdmit? {
        AdmitKeepsSlot(cfg, start, s, a, s', limit);
      } else {
        OtherKeepsSlot(cfg, start, s, a, s');
      }
    }
  }

  lemma SaversSleep(cfg: Config, s: State, a: Action, s': State)
    requires a.BySession() && Next(cfg, s, a) == Some(s')
    ensures s'.flusher == s.flusher && s'.closer == s.closer
  {
    hide GetDirection, PutDirection;
  }

  lemma CheckKeepsSlot(cfg: Config, start: nat, s: State, a: Action, s': State)
    requires a.CheckRefresh? && |s.sessions| == 1 && Next(cfg, s, a) == Some(s')
    requires OnlySlot(cfg, start, s, s.sessions[0])
    ensures OnlySlot(cfg, start, s', s'.sessions[0])
    ensures s'.ledger.byRead == s.ledger.byRead && s'.clock == s.clock
  {
    assert forall d: nat :: Charged(cfg, start, s'.ledger, d) == Charged(cfg, start, s.ledger, d);
  }

  lemma AccountKeepsSlot(cfg: Config, start: nat, s: State, a: Action, s': State)
    requires a.AccountRefresh? && |s.sessions| == 1 && Next(cfg, s, a) == Some(s')
    requires OnlySlot(cfg, start, s, s.sessions[0])
    ensures OnlySlot(cfg, start, s', s'.sessions[0])
    ensures s'.ledger.byRead == s.ledger.byRead && s'.clock == s.clock
  {
    var x, y := s.sessions[0], s'.sessions[0];
    assert x.Splicing? && y.Splicing?;
    assert forall d: nat :: Charged(cfg, start, s'.ledger, d) == Charged(cfg, start, s.ledger, d);
    if CalmSession(x, s.clock) && s.day == s.clock {
      assert s'.day == s.day && s'.connections == s.connections && CalmSession(y, s.clock);
    }
  }

  lemma OtherKeepsSlot(cfg: Config, start: nat, s: State, a: Action, s': State)
    requires a.BySession() && !a.CheckRefresh? && !a.AccountRefresh? && !a.TryAdmit?
    requires |s.sessions| == 1 && Next(cfg, s, a) == Some(s')
    requires OnlySlot(cfg, start, s, s.sessions[0])
    ensures OnlySlot(cfg, start, s', s'.sessions[0])
    ensures s'.ledger.byRead == s.ledger.byRead && s'.clock == s.clock
  {
    hide Next, Calm;
    OtherLeavesBooks(cfg, s, a, s');
    assert forall d: nat :: Charged(cfg, start, s'.ledger, d) == Charged(cfg, start, s.ledger, d);
  }

  /** Actions other than refreshes and admissions: the books stay, and a session changes as follows. */
  lemma OtherLeavesBooks(cfg: Config, s: State, a: Action, s': State)
    requires a.BySession() && !a.CheckRefresh? && !a.AccountRefresh? && !a.TryAdmit?
    requires |s.sessions| == 1 && Next(cfg, s, a) == Some(s')
    ensures s'.day == s.day && s'.connections == s.connections && s'.clock == s.clock
    ensures s'.ledger.byRead == s.ledger.byRead && |s'.sessions| == 1
    ensures var x, y := s.sessions[0], s'.sessions[0];
      || (x.Vacant? && y == Checking(ReadClock))
      || (x.Checking? && x.refresh.Fresh? && (y.Vacant? || y.Admitted? || y == LoadingConnections(x.refresh.today)))
      || (x.LoadingConnections? && y == Admitting(x.today, s.connections))
      || (x.MarkingDirty? && y.Admitted?)
      || (x.Admitted? && (y == OPEN || y.Vacant?))
      || (x.Splicing? && (y.Vacant? || (y.Splicing? && (CalmSession(x, s.clock) ==> CalmSession(y, s.clock)))))
  {
  }

  lemma AdmitEffect(cfg: Config, s: State, a: Action, s': State, limit: nat)
    requires a.TryAdmit? && cfg.connections == Some(limit) && |s.sessions| == 1 && Next(cfg, s, a) == Some(s')
    ensures s'.day == s.day && s'.clock == s.clock && |s'.sessions| == 1 && s.sessions[0].Admitting?
    ensures var x, y := s.sessions[0], s'.sessions[0];
      if y.Admitted? || y.MarkingDirty? then
        s.connections < limit && s'.connections == s.connections + 1 && s'.ledger.byRead == s.ledger.byRead + multiset{x.today}
      else
        && s'.connections == s.connections && s'.ledger.byRead == s.ledger.byRead
        && (y.Vacant? || (y.Admitting? && y.today == x.today))
  {
  }

  lemma AdmitKeepsSlot(cfg: Config, start: nat, s: State, a: Action, s': State, limit: nat)
    requires a.TryAdmit? && cfg.connections == Some(limit) && |s.sessions| == 1 && Next(cfg, s, a) == Some(s')
    requires OnlySlot(cfg, start, s, s.sessions[0]) && DaysKept(cfg, start, s, limit)
    ensures OnlySlot(cfg, start, s', s'.sessions[0]) && DaysKept(cfg, start, s', limit) && s'.clock == s.clock
  {
    AdmitEffect(cfg, s, a, s', limit);
    hide Next;
    var t := s.sessions[0].today;
    forall d: nat
      ensures Charged(cfg, start, s'.ledger, d) ==
        Charged(cfg, start, s.ledger, d) + (if (s'.sessions[0].Admitted? || s'.sessions[0].MarkingDirty?) && d == t then 1 else 0)
    {
    }
  }

  lemma {:induction false} RunKeepsOneSlot(cfg: Config, start: nat, s: State, actions: seq<Action>, limit: nat)
    requires OneSlotInv(cfg, start, s, limit) && Forward(actions, s.clock)
    ensures Run(cfg, s, actions).Some? ==> DaysKept(cfg, start, Run(cfg, s, actions).value, limit)
    decreases actions
  {
    if actions != [] && Next(cfg, s, actions[0]).Some? {
      hide OneSlotInv, DaysKept;
      var s' := Next(cfg, s, actions[0]).value;
      StepKeepsOneSlot(cfg, start, s, actions[0], s', limit);
      RunKeepsOneSlot(cfg, start, s', actions[1..], limit);
    }
    assert OneSlotInv(cfg, start, s, limit) ==> DaysKept(cfg, start, s, limit);
  }
}
