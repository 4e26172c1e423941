/**
 The health automaton of an upstream endpoint and its alerts, read against the history of
 probe results: which endpoints are down is a property of the history alone.
 */
module UpstreamMonitor {
  import opened Wrappers

  const U32_MAX: nat := 0xFFFF_FFFF

  datatype Health = Up | Down

  datatype Transition = WentDown(error: string) | Recovered(downtime: nat) | NoChange

  /** The result of one probe and the clock reading taken after it. */
  datatype Probe = Probe(ok: bool, error: Option<string>, now: nat)

  /** The monitor's settings; the thresholds are 32-bit. */
  datatype Policy = Policy(failThreshold: nat, recoverThreshold: nat, cooldown: nat, notifyRecovery: bool) {
    predicate Fits() {
      failThreshold <= 0xFFFF_FFFF && recoverThreshold <= 0xFFFF_FFFF
    }

    function FailsNeeded(): nat {
      if failThreshold == 0 then 1 else failThreshold
    }

    function OksNeeded(): nat {
      if recoverThreshold == 0 then 1 else recoverThreshold
    }
  }

  datatype State = State(
    health: Health,
    fails: nat,
    oks: nat,
    lastError: Option<string>,
    lastNotify: Option<nat>,
    downSince: Option<nat>
  )

  const Initial: State := State(Up, 0, 0, None, None, None)

  function SaturatingNext(n: nat): nat {
    if n < U32_MAX then n + 1 else n
  }

  function Since(now: nat, t: nat): nat {
    if now >= t then now - t else 0
  }

  function Applied(s: State, p: Probe, policy: Policy): (State, Transition) {
    if p.ok then
      var oks := SaturatingNext(s.oks);
      if s.health.Down? && oks >= policy.OksNeeded() then
        var downtime := if s.downSince.Some? then Since(p.now, s.downSince.value) else 0;
        (State(Up, 0, 0, None, s.lastNotify, None), Recovered(downtime))
      else (s.(oks := oks, fails := 0, lastError := None), NoChange)
    else
      var fails := SaturatingNext(s.fails);
      var error := if p.error.Some? then p.error else s.lastError;
      if s.health.Up? && fails >= policy.FailsNeeded() then
        (State(Down, 0, 0, error, s.lastNotify, Some(p.now)), WentDown(ErrorText(error)))
      else (s.(fails := fails, oks := 0, lastError := error), NoChange)
  }

  function ErrorText(error: Option<string>): string {
    if error.Some? then error.value else "unknown error"
  }

  predicate CooledDown(s: State, cooldown: nat, now: nat) {
    s.lastNotify.Some? ==> Since(now, s.lastNotify.value) >= cooldown
  }

  predicate Notifies(t: Transition, policy: Policy) {
    t.WentDown? || (t.Recovered? && policy.notifyRecovery)
  }

  /** One probe of one endpoint: the new state and whether an alert goes out. */
  function Observed(s: State, p: Probe, policy: Policy): (State, bool) {
    var (applied, t) := Applied(s, p, policy);
    if Notifies(t, policy) && CooledDown(applied, policy.cooldown, p.now)
    then (applied.(lastNotify := Some(p.now)), true)
    else (applied, false)
  }

  /** The state after a whole history of probes. */
  function Run(ps: seq<Probe>, policy: Policy): State
    decreases |ps|
  {
    if ps == [] then Initial
    else Observed(Run(ps[..|ps| - 1], policy), ps[|ps| - 1], policy).0
  }

  function TransitionAt(ps: seq<Probe>, policy: Policy, n: nat): Transition
    requires n < |ps|
  {
    Applied(Run(ps[..n], policy), ps[n], policy).1
  }

  predicate AlertAt(ps: seq<Probe>, policy: Policy, n: nat)
    requires n < |ps|
  {
    Observed(Run(ps[..n], policy), ps[n], policy).1
  }

  // ------------------------------------------------------------ the history view

  /** How many results in a row a threshold asks for. */
  function Needed(threshold: nat): nat {
    if threshold > 1 then threshold else 1
  }

  /** The probes just before position `i` failed, as many as the fail threshold asks for. */
  ghost predicate FailMark(ps: seq<Probe>, policy: Policy, i: nat) {
    var need := Needed(policy.failThreshold);
    need <= i <= |ps| && forall k | i - need <= k < i :: !ps[k].ok
  }

  /** The probes just before position `i` succeeded, as many as the recover threshold asks for. */
  ghost predicate OkMark(ps: seq<Probe>, policy: Policy, i: nat) {
    var need := Needed(policy.recoverThreshold);
    need <= i <= |ps| && forall k | i - need <= k < i :: ps[k].ok
  }

  /** There was a full run of failures, and no full run of successes after it. */
  ghost predicate DownAfter(ps: seq<Probe>, policy: Policy) {
    exists i: nat :: FailMark(ps, policy, i) && forall j: nat | i < j <= |ps| :: !OkMark(ps, policy, j)
  }

  /** Probe `k` began the outage that still lasts at the end of the history. */
  ghost predicate Outage(ps: seq<Probe>, policy: Policy, k: nat) {
    k < |ps| && !DownAfter(ps[..k], policy) && forall j | k < j <= |ps| :: DownAfter(ps[..j], policy)
  }

  /** The most recent error text of the failures at the end of the history. */
  function TrailingError(ps: seq<Probe>): Option<string>
    decreases |ps|
  {
    if ps == [] || ps[|ps| - 1].ok then None
    else if ps[|ps| - 1].error.Some? then ps[|ps| - 1].error
    else TrailingError(ps[..|ps| - 1])
  }

  /** How many probes at the end of the history have the given result. */
  function Trailing(ps: seq<Probe>, ok: bool): nat
    decreases |ps|
  {
    if ps == [] || ps[|ps| - 1].ok != ok then 0 else 1 + Trailing(ps[..|ps| - 1], ok)
  }

  lemma {:induction false} TrailingCounts(ps: seq<Probe>, ok: bool, n: nat)
    ensures Trailing(ps, ok) >= n <==> n <= |ps| && forall k | |ps| - n <= k < |ps| :: ps[k].ok == ok
    decreases |ps|
  {
    if n > 0 && ps != [] && ps[|ps| - 1].ok == ok {
      TrailingCounts(ps[..|ps| - 1], ok, n - 1);
    }
  }

  lemma MarksAreRuns(ps: seq<Probe>, policy: Policy)
    ensures FailMark(ps, policy, |ps|) <==> Trailing(ps, false) >= Needed(policy.failThreshold)
    ensures OkMark(ps, policy, |ps|) <==> Trailing(ps, true) >= Needed(policy.recoverThreshold)
  {
    TrailingCounts(ps, false, Needed(policy.failThreshold));
    TrailingCounts(ps, true, Needed(policy.recoverThreshold));
  }

  function Capped(n: nat): nat {
    if n <= U32_MAX then n else U32_MAX
  }

  ghost predicate CountersTrack(s: State, ps: seq<Probe>) {
    && (s.health.Up? ==> s.fails == Capped(Trailing(ps, false)))
    && (s.health.Down? ==> s.oks == Capped(Trailing(ps, true)))
    && s.lastError == TrailingError(ps)
    && (s.downSince.Some? <==> s.health.Down?)
  }

  lemma {:induction false} RunTracks(ps: seq<Probe>, policy: Policy)
    ensures CountersTrack(Run(ps, policy), ps)
    decreases |ps|
  {
    if ps != [] {
      RunTracks(ps[..|ps| - 1], policy);
    }
  }

  lemma EarlierMarks(ps: seq<Probe>, more: seq<Probe>, policy: Policy, i: nat)
    requires i <= |ps|
    ensures FailMark(ps + more, policy, i) <==> FailMark(ps, policy, i)
    ensures OkMark(ps + more, policy, i) <==> OkMark(ps, policy, i)
  {
    assert forall k | 0 <= k < i :: (ps + more)[k] == ps[k];
  }

  /** How the history view changes with one more probe. */
  lemma DownAfterNext(ps: seq<Probe>, p: Probe, policy: Policy)
    ensures DownAfter(ps + [p], policy) <==>
      FailMark(ps + [p], policy, |ps| + 1) || (DownAfter(ps, policy) && !OkMark(ps + [p], policy, |ps| + 1))
  {
    var qs := ps + [p];
    hide FailMark;
    hide OkMark;
    forall i | 0 <= i <= |ps|
      ensures FailMark(qs, policy, i) == FailMark(ps, policy, i) && OkMark(qs, policy, i) == OkMark(ps, policy, i)
    {
      EarlierMarks(ps, [p], policy, i);
    }
    MarkInRange(ps, policy);
    MarkInRange(qs, policy);
  }

  lemma MarkInRange(ps: seq<Probe>, policy: Policy)
    ensures forall i: nat | FailMark(ps, policy, i) :: i <= |ps|
  {
  }

  /** An endpoint is down exactly when its history says so. */
  lemma {:induction false} HealthIsHistory(ps: seq<Probe>, policy: Policy)
    requires policy.Fits()
    ensures Run(ps, policy).health.Down? <==> DownAfter(ps, policy)
    decreases |ps|
  {
    if ps != [] {
      var init := ps[..|ps| - 1];
      HealthIsHistory(init, policy);
      StepFollowsHistory(init, ps[|ps| - 1], policy);
      assert init + [ps[|ps| - 1]] == ps;
    }
  }

  lemma StepFollowsHistory(ps: seq<Probe>, p: Probe, policy: Policy)
    requires policy.Fits() && (Run(ps, policy).health.Down? <==> DownAfter(ps, policy))
    ensures Run(ps + [p], policy).health.Down? <==> DownAfter(ps + [p], policy)
    ensures var t := Applied(Run(ps, policy), p, policy).1;
      && (t.WentDown? <==> !DownAfter(ps, policy) && FailMark(ps + [p], policy, |ps| + 1))
      && (t.Recovered? <==> DownAfter(ps, policy) && OkMark(ps + [p], policy, |ps| + 1))
      && (t.WentDown? ==> t.error == ErrorText(TrailingError(ps + [p])))
  {
    var qs := ps + [p];
    assert qs[..|qs| - 1] == ps;
    RunTracks(ps, policy);
    MarksAreRuns(qs, policy);
    DownAfterNext(ps, p, policy);
    hide DownAfter;
    hide FailMark;
    hide OkMark;
  }

  /**
   A transition is reported exactly when the state of the history changes: down when a
   healthy endpoint completes a run of failures, recovered when a failed one completes a
   run of successes. The outage is dated from the probe that began it.
   */
  lemma TransitionsFollowHistory(ps: seq<Probe>, policy: Policy, n: nat)
    requires policy.Fits() && n < |ps|
    ensures var t := TransitionAt(ps, policy, n);
      && (t.WentDown? <==> !DownAfter(ps[..n], policy) && FailMark(ps[..n + 1], policy, n + 1))
      && (t.WentDown? <==> !DownAfter(ps[..n], policy) && DownAfter(ps[..n + 1], policy))
      && (t.Recovered? <==> DownAfter(ps[..n], policy) && OkMark(ps[..n + 1], policy, n + 1))
      && (t.Recovered? <==> DownAfter(ps[..n], policy) && !DownAfter(ps[..n + 1], policy))
    ensures var t := TransitionAt(ps, policy, n);
      && (t.WentDown? ==> Some(t.error) == TrailingError(ps[..n + 1]) || (t.error == "unknown error" && TrailingError(ps[..n + 1]) == None))
      && (t.WentDown? ==> Trailing(ps[..n + 1], false) == if policy.failThreshold > 1 then policy.failThreshold else 1)
      && (t.Recovered? ==> Trailing(ps[..n + 1], true) == if policy.recoverThreshold > 1 then policy.recoverThreshold else 1)
      && (t.Recovered? ==> exists k: nat :: Outage(ps[..n], policy, k) && t.downtime == if ps[n].now > ps[k].now then ps[n].now - ps[k].now else 0)
  {
    assert ps[..n] + [ps[n]] == ps[..n + 1];
    HealthIsHistory(ps[..n], policy);
    StepFollowsHistory(ps[..n], ps[n], policy);
    DownAfterNext(ps[..n], ps[n], policy);
    ReachedExactly(ps[..n], ps[n], policy);
    if TransitionAt(ps, policy, n).Recovered? {
      OutageDated(ps[..n], policy);
      var k: nat :| Outage(ps[..n], policy, k) && Run(ps[..n], policy).downSince == Some(ps[..n][k].now);
      assert ps[..n][k] == ps[k];
    }
  }

  lemma ReachedExactly(ps: seq<Probe>, p: Probe, policy: Policy)
    ensures !DownAfter(ps, policy) && FailMark(ps + [p], policy, |ps| + 1) ==>
      Trailing(ps + [p], false) == Needed(policy.failThreshold)
    ensures DownAfter(ps, policy) && OkMark(ps + [p], policy, |ps| + 1) ==>
      Trailing(ps + [p], true) == Needed(policy.recoverThreshold)
  {
    MarksAreRuns(ps, policy);
    MarksAreRuns(ps + [p], policy);
    assert (ps + [p])[..|ps|] == ps;
    if FailMark(ps, policy, |ps|) {
      assert DownAfter(ps, policy);
    }
    if OkMark(ps, policy, |ps|) {
      assert !DownAfter(ps, policy);
    }
  }

  /** While down, the outage date is the time of the probe that began it; while up there is none. */
  lemma {:induction false} OutageDated(ps: seq<Probe>, policy: Policy)
    requires policy.Fits()
    ensures Run(ps, policy).downSince.Some? <==> DownAfter(ps, policy)
    ensures DownAfter(ps, policy) ==>
      exists k: nat :: Outage(ps, policy, k) && Run(ps, policy).downSince == Some(ps[k].now)
    decreases |ps|
  {
    hide DownAfter, Observed;
    HealthIsHistory(ps, policy);
    RunTracks(ps, policy);
    if DownAfter(ps, policy) {
      var n := |ps| - 1;
      var init := ps[..n];
      HealthIsHistory(init, policy);
      RunTracks(init, policy);
      DateKept(Run(init, policy), ps[n], policy);
      assert ps[..|ps|] == ps;
      if DownAfter(init, policy) {
        OutageDated(init, policy);
        var k: nat :| Outage(init, policy, k) && Run(init, policy).downSince == Some(init[k].now);
        forall j | k < j <= |ps|
          ensures DownAfter(ps[..j], policy)
        {
          if j <= n {
            assert init[..j] == ps[..j];
          }
        }
        assert init[..k] == ps[..k];
        assert Outage(ps, policy, k);
      } else {
        assert Outage(ps, policy, n);
      }
    }
  }

  /** Going down sets the date, staying down keeps it. */
  lemma DateKept(s: State, p: Probe, policy: Policy)
    ensures var s' := Observed(s, p, policy).0;
      s'.health.Down? ==> s'.downSince == if s.health.Down? then s.downSince else Some(p.now)
  {
  }

  lemma OutageUnique(ps: seq<Probe>, policy: Policy, a: nat, b: nat)
    requires Outage(ps, policy, a) && Outage(ps, policy, b)
    ensures a == b
  {
  }

  // --------------------------------------------------------------- alternation

  /** The reported transitions of a history, in order. */
  function Reported(ps: seq<Probe>, policy: Policy): seq<Transition>
    decreases |ps|
  {
    if ps == [] then []
    else
      var t := TransitionAt(ps, policy, |ps| - 1);
      Reported(ps[..|ps| - 1], policy) + (if t.NoChange? then [] else [t])
  }

  /** A reported transition changes the health, and nothing else does. */
  lemma TransitionToggles(s: State, p: Probe, policy: Policy)
    ensures var t := Applied(s, p, policy).1; var s' := Observed(s, p, policy).0;
      && (t.NoChange? ==> s'.health == s.health)
      && (t.WentDown? ==> s.health.Up? && s'.health.Down?)
      && (t.Recovered? ==> s.health.Down? && s'.health.Up?)
  {
  }

  /** Reports alternate between down and recovered, starting with down. */
  lemma {:induction false} ReportsAlternate(ps: seq<Probe>, policy: Policy)
    ensures forall i | 0 <= i < |Reported(ps, policy)| ::
      if i % 2 == 0 then Reported(ps, policy)[i].WentDown? else Reported(ps, policy)[i].Recovered?
    ensures Run(ps, policy).health.Down? <==> |Reported(ps, policy)| % 2 == 1
    decreases |ps|
  {
    if ps != [] {
      hide Applied, Observed;
      var init, p := ps[..|ps| - 1], ps[|ps| - 1];
      ReportsAlternate(init, policy);
      TransitionToggles(Run(init, policy), p, policy);
    }
  }

  // --------------------------------------------------------------------- alerts

  ghost predicate Monotone(ps: seq<Probe>) {
    forall i, j | 0 <= i <= j < |ps| :: ps[i].now <= ps[j].now
  }

  /** Alert `m` is the latest before position `n`. */
  ghost predicate LastAlert(ps: seq<Probe>, policy: Policy, n: nat, m: nat) {
    m < n <= |ps| && AlertAt(ps, policy, m) && forall i | m < i < n :: !AlertAt(ps, policy, i)
  }

  lemma {:induction false} NotifiedLast(ps: seq<Probe>, policy: Policy, n: nat)
    requires n <= |ps|
    ensures match Run(ps[..n], policy).lastNotify
      case None => forall i | 0 <= i < n :: !AlertAt(ps, policy, i)
      case Some(t) => exists m: nat :: LastAlert(ps, policy, n, m) && t == ps[m].now
  {
    hide Run, AlertAt;
    if n == 0 {
      NeverNotified(policy);
      assert ps[..n] == [];
    } else {
      NotifiedLast(ps, policy, n - 1);
      var s := Run(ps[..n - 1], policy);
      NotifiedNext(ps, policy, n);
      if AlertAt(ps, policy, n - 1) {
        assert LastAlert(ps, policy, n, n - 1);
      } else if s.lastNotify.Some? {
        var m: nat :| LastAlert(ps, policy, n - 1, m) && s.lastNotify.value == ps[m].now;
        assert LastAlert(ps, policy, n, m);
      }
    }
  }

  lemma NeverNotified(policy: Policy)
    ensures Run([], policy).lastNotify == None
  {
  }

  lemma NotifiedNext(ps: seq<Probe>, policy: Policy, n: nat)
    requires 0 < n <= |ps|
    ensures Run(ps[..n], policy).lastNotify ==
      if AlertAt(ps, policy, n - 1) then Some(ps[n - 1].now) else Run(ps[..n - 1], policy).lastNotify
  {
    assert ps[..n][..n - 1] == ps[..n - 1];
    hide Observed;
  }

  /**
   An alert goes out exactly for a reportable transition that is at least the cooldown away
   from every earlier alert.
   */
  lemma AlertsExactly(ps: seq<Probe>, policy: Policy, n: nat)
    requires n < |ps| && Monotone(ps)
    ensures var t := TransitionAt(ps, policy, n); AlertAt(ps, policy, n) <==>
      && (t.WentDown? || (t.Recovered? && policy.notifyRecovery))
      && forall m | 0 <= m < n && AlertAt(ps, policy, m) :: ps[n].now - ps[m].now >= policy.cooldown
  {
    NotifiedLast(ps, policy, n);
    var s := Run(ps[..n], policy);
    assert Applied(s, ps[n], policy).0.lastNotify == s.lastNotify;
    if s.lastNotify.Some? {
      var m: nat :| LastAlert(ps, policy, n, m) && s.lastNotify.value == ps[m].now;
      assert forall i | 0 <= i < n && AlertAt(ps, policy, i) :: i <= m;
    }
  }

  /** Any two alerts of one endpoint are at least the cooldown apart. */
  lemma AlertsSpaced(ps: seq<Probe>, policy: Policy, m: nat, n: nat)
    requires m < n < |ps| && Monotone(ps)
    ensures AlertAt(ps, policy, m) && AlertAt(ps, policy, n) ==> ps[n].now - ps[m].now >= policy.cooldown
  {
    AlertsExactly(ps, policy, n);
  }

  // ---------------------------------------------------------------- the program

  class ProfileState {
    var health: Health
    var consecutiveFails: nat
    var consecutiveOks: nat
    var lastError: Option<string>
    var lastNotify: Option<nat>
    var downSince: Option<nat>

    function Value(): State
      reads this
    {
      State(health, consecutiveFails, consecutiveOks, lastError, lastNotify, downSince)
    }

    constructor ()
      ensures Value() == Initial
    {
      health, consecutiveFails, consecutiveOks := Up, 0, 0;
      lastError, lastNotify, downSince := None, None, None;
    }

    method ApplyProbeResult(ok: bool, error: Option<string>, policy: Policy, now: nat) returns (t: Transition)
      modifies this
      ensures (Value(), t) == Applied(old(Value()), Probe(ok, error, now), policy)
    {
      t := NoChange;
      if ok {
        consecutiveOks := SaturatingNext(consecutiveOks);
        consecutiveFails := 0;
        lastError := None;
        if health == Down && consecutiveOks >= policy.OksNeeded() {
          var downtime := match downSince case Some(since) => Since(now, since) case None => 0;
          health := Up;
          downSince := None;
          consecutiveOks := 0;
          t := Recovered(downtime);
        }
      } else {
        consecutiveFails := SaturatingNext(consecutiveFails);
        consecutiveOks := 0;
        if error.Some? {
          lastError := error;
        }
        if health == Up && consecutiveFails >= policy.FailsNeeded() {
          health := Down;
          downSince := Some(now);
          consecutiveFails := 0;
          t := WentDown(ErrorText(lastError));
        }
      }
    }

    /** The loop's treatment of one probe result. */
    method Observe(probe: Probe, policy: Policy) returns (alert: bool)
      modifies this
      ensures (Value(), alert) == Observed(old(Value()), probe, policy)
    {
      var t := ApplyProbeResult(probe.ok, probe.error, policy, probe.now);
      alert := Notifies(t, policy) && CooledDown(Value(), policy.cooldown, probe.now);
      if alert {
        lastNotify := Some(probe.now);
      }
    }
  }

  datatype Checked = Checked(key: string, probe: Probe)

  /** The probes of one endpoint, out of the interleaved history of all of them. */
  function ProbesOf(history: seq<Checked>, key: string): seq<Probe>
    decreases |history|
  {
    if history == [] then []
    else
      var last := history[|history| - 1];
      ProbesOf(history[..|history| - 1], key) + (if last.key == key then [last.probe] else [])
  }

  /** The state of one endpoint after the interleaved history. */
  function RunOf(history: seq<Checked>, key: string, policy: Policy): State {
    Run(ProbesOf(history, key), policy)
  }

  /** The latest probe of one endpoint in the interleaved history raised an alert. */
  predicate LastAlerts(history: seq<Checked>, key: string, policy: Policy) {
    var ps := ProbesOf(history, key);
    |ps| > 0 && AlertAt(ps, policy, |ps| - 1)
  }

  /** One more probe of an endpoint moves that endpoint and no other. */
  lemma HistoryNext(history: seq<Checked>, key: string, p: Probe, policy: Policy)
    ensures var h' := history + [Checked(key, p)];
      && (forall k | k != key :: ProbesOf(h', k) == ProbesOf(history, k) && RunOf(h', k, policy) == RunOf(history, k, policy))
      && Observed(RunOf(history, key, policy), p, policy) == (RunOf(h', key, policy), LastAlerts(h', key, policy))
  {
    hide Observed;
    forall k
      ensures ProbesOf(history + [Checked(key, p)], k) == ProbesOf(history, k) + (if k == key then [p] else [])
    {
      assert (history + [Checked(key, p)])[..|history|] == history;
    }
    var ps := ProbesOf(history, key);
    assert (ps + [p])[..|ps|] == ps;
  }

  class Monitor {
    const policy: Policy
    var states: map<string, ProfileState>
    ghost var history: seq<Checked>

    /** Each endpoint has its own state, and it is that of the endpoint's own history. */
    ghost predicate Valid()
      reads this, states.Values
    {
      && (forall a, b | a in states && b in states && states[a] == states[b] :: a == b)
      && (forall k | k in states :: states[k].Value() == RunOf(history, k, policy))
      && (forall k :: k !in states ==> ProbesOf(history, k) == [])
    }

    constructor (policy: Policy)
      ensures Valid() && this.policy == policy && history == [] && states == map[]
    {
      this.policy := policy;
      states := map[];
      history := [];
    }

    /** The state of an endpoint, created when it is first seen. */
    method Entry(key: string) returns (state: ProfileState)
      requires Valid()
      modifies this`states
      ensures Valid()
      ensures key in states && state == states[key]
      ensures states.Keys == old(states.Keys) + {key}
      ensures fresh(states.Values - old(states.Values))
    {
      if key !in states {
        var created := new ProfileState();
        assert created !in states.Values;
        states := states[key := created];
      }
      state := states[key];
    }

    /** What the loop does with one probe result: the alert follows the endpoint's own history. */
    method Observe(key: string, probe: Probe) returns (alert: bool)
      requires Valid()
      modifies this, states.Values
      ensures Valid()
      ensures history == old(history) + [Checked(key, probe)]
      ensures states.Keys == old(states.Keys) + {key}
      ensures fresh(states.Values - old(states.Values))
      ensures alert == LastAlerts(history, key, policy)
    {
      hide Observed, ProbesOf, RunOf, LastAlerts, ProfileState.Value;
      var state := Entry(key);
      HistoryNext(history, key, probe, policy);
      label changed:
      alert := state.Observe(probe, policy);
      assert forall k | k in states && k != key :: states[k] != state && unchanged@changed(states[k]);
      history := history + [Checked(key, probe)];
    }
  }
}
