/**
 What the limiter answers, from the history alone: the bytes and admissions of a day decide
 every verdict of that day, through day changes, saves and restarts.
 */
module DomainUsage {
  import opened Wrappers
  import opened DomainLimiter

  /** The bytes a run accounts to a key on a day. */
  ghost function Accounted(keys: set<string>, events: seq<Event>, key: string, day: nat): nat {
    if events == [] then 0
    else AccountedBy(keys, events[0], key, day) + Accounted(keys, events[1..], key, day)
  }

  ghost function AccountedBy(keys: set<string>, e: Event, key: string, day: nat): nat {
    if e.op.Account? && e.day == day && LimitKey(keys, e.op.domain) == Some(key) then e.op.n else 0
  }

  /** The bytes a key shows on a day. */
  ghost function ShownBytes(s: State, key: string, day: nat): nat
    requires key in s.counters
  {
    if s.counters[key].day == day then s.counters[key].bytes else 0
  }

  ghost predicate Metered(cfg: Config, key: string) {
    key in cfg.limits && cfg.limits[key].bandwidth.Some?
  }

  // ------------------------------------------------------- what one event adds

  lemma CheckAdds(cfg: Config, s: State, k: string, today: nat, key: string, day: nat)
    ensures Keyed(cfg, s) && k in cfg.limits && key in cfg.limits && s.counters[key].day <= today <= day ==>
      ShownBytes(CheckKey(cfg.limits[k], cfg.persistent, s, k, today).0, key, day) == ShownBytes(s, key, day)
  {
  }

  lemma AccountAdds(cfg: Config, s: State, k: string, n: nat, today: nat, key: string, day: nat)
    requires Keyed(cfg, s) && k in cfg.limits && Metered(cfg, key) && Counted(s.counters[key], today) && today <= day
    ensures var s' := AccountKey(cfg.limits[k], cfg.persistent, s, k, n, today).0;
            ShownBytes(s', key, day)
            == (ShownBytes(s, key, day) + if k == key && today == day then n else 0) % 0x1_0000_0000_0000_0000
  {
  }

  lemma RestartAdds(s: State, keys: set<string>, today: nat, key: string, day: nat)
    ensures s.counters.Keys == keys && key in keys && s.counters[key].day <= today <= day && Agreed(s, today) && Agreed(s, day) ==>
      ShownBytes(LoadState(keys, s.disk, today), key, day) == ShownBytes(s, key, day)
  {
  }

  /** Up to a day, the bytes a key shows for it move only by those accounted to it. */
  lemma OpAdds(cfg: Config, s: State, e: Event, now: nat, key: string, day: nat)
    requires Inv(cfg, s, now) && now <= e.day <= day && Metered(cfg, key)
    requires e.op.Restart? ==> cfg.persistent && !s.dirty
    ensures ShownBytes(Apply(cfg, s, e.op, e.day).0, key, day)
         == (ShownBytes(s, key, day) + AccountedBy(cfg.limits.Keys, e, key, day)) % 0x1_0000_0000_0000_0000
  {
    hide IsBest, LimitKey, CheckKey, AccountKey, Loaded;
    match e.op {
      case Check(domain) =>
        KeyIsConfigured(cfg.limits.Keys, domain);
        var k := LimitKey(cfg.limits.Keys, domain);
        if k.Some? {
          CheckAdds(cfg, s, k.value, e.day, key, day);
        }
      case Account(domain, n) =>
        KeyIsConfigured(cfg.limits.Keys, domain);
        var k := LimitKey(cfg.limits.Keys, domain);
        if k.Some? {
          AccountAdds(cfg, s, k.value, n, e.day, key, day);
        }
      case Restart =>
        RestartAdds(s, cfg.limits.Keys, e.day, key, day);
      case _ =>
    }
  }

  // --------------------------------------------------------------- whole runs

  lemma {:induction false} NoEarlierDay(events: seq<Event>, now: nat)
    requires Monotone(events, now)
    ensures now <= LastDay(events, now)
    decreases events
  {
    if events != [] {
      NoEarlierDay(events[1..], events[0].day);
    }
  }

  /**
   Conservation of usage: with a clock that never goes back, and restarts only after a
   flush, the bytes a key shows for the day are those it showed at the start and those
   accounted to it since, in 64 bits; its connections are those shown at the start and the
   sessions admitted since. (A day after `now` starts with none of either.)
   */
  lemma {:induction false} UsageIsHistory(cfg: Config, s: State, events: seq<Event>, now: nat, key: string, day: nat)
    requires Inv(cfg, s, now) && Monotone(events, now) && CleanRestarts(cfg, s, events)
    requires key in cfg.limits && LastDay(events, now) <= day
    ensures cfg.limits[key].bandwidth.Some? ==>
      ShownBytes(RunAll(cfg, s, events), key, day)
      == (ShownBytes(s, key, day) + Accounted(cfg.limits.Keys, events, key, day)) % 0x1_0000_0000_0000_0000
    ensures cfg.limits[key].connections.Some? ==>
      Shown(RunAll(cfg, s, events), key, day) == Shown(s, key, day) + Admissions(cfg, s, events, key, day)
    ensures now < day ==> ShownBytes(s, key, day) == Shown(s, key, day) == 0
    decreases events
  {
    hide Apply, LimitKey, Admits, AccountedBy, Readable;
    if events != [] {
      var e := events[0];
      NoEarlierDay(events[1..], e.day);
      OpKeepsInv(cfg, s, e.op, now, e.day);
      UsageIsHistory(cfg, Apply(cfg, s, e.op, e.day).0, events[1..], e.day, key, day);
      if cfg.limits[key].bandwidth.Some? {
        OpAdds(cfg, s, e, now, key, day);
        Wraps(ShownBytes(s, key, day) + AccountedBy(cfg.limits.Keys, e, key, day), Accounted(cfg.limits.Keys, events[1..], key, day));
      }
      if cfg.limits[key].connections.Some? {
        OpCounts(cfg, s, e, now, key, day);
      }
    }
  }

  /** The answers in one state. */
  lemma AnswersOf(cfg: Config, r: State, domain: string, n: nat, day: nat)
    requires Keyed(cfg, r)
    ensures var account, check := Apply(cfg, r, Account(domain, n), day).1, Apply(cfg, r, Check(domain), day).1;
            match LimitKey(cfg.limits.Keys, domain)
            case None => account == check == Allowed
            case Some(key) =>
              key in cfg.limits &&
              var limit := cfg.limits[key];
              && account == (if n > 0 && limit.bandwidth.Some? && (ShownBytes(r, key, day) + n) % 0x1_0000_0000_0000_0000 > limit.bandwidth.value
                             then DailyBandwidth else Allowed)
              && check == (if limit.bandwidth.Some? && ShownBytes(r, key, day) >= limit.bandwidth.value then DailyBandwidth
                           else if limit.connections.Some? && Shown(r, key, day) >= limit.connections.value then DailyConnections
                           else Allowed)
  {
    hide LimitKey, IsBest;
    KeyIsConfigured(cfg.limits.Keys, domain);
  }

  lemma Wraps(a: nat, b: nat)
    ensures (a % 0x1_0000_0000_0000_0000 + b) % 0x1_0000_0000_0000_0000 == (a + b) % 0x1_0000_0000_0000_0000
  {
  }

  /**
   Every verdict, in both directions. Accounting `n` bytes reports the bandwidth limit
   exactly when there are bytes to account and the day's total, with them, exceeds it. A
   session is refused for bandwidth exactly when the day's total has reached the limit, for
   connections exactly when it has not and the day's admissions have reached theirs, and is
   admitted otherwise. A host under no key is never held up.
   */
  lemma VerdictsExactly(cfg: Config, s: State, events: seq<Event>, now: nat, domain: string, n: nat, day: nat)
    requires Inv(cfg, s, now) && Monotone(events, now) && CleanRestarts(cfg, s, events) && LastDay(events, now) <= day
    ensures var r := RunAll(cfg, s, events);
            var account, check := Apply(cfg, r, Account(domain, n), day).1, Apply(cfg, r, Check(domain), day).1;
            match LimitKey(cfg.limits.Keys, domain)
            case None => account == check == Allowed
            case Some(key) =>
              key in cfg.limits &&
              var limit := cfg.limits[key];
              var bytes := ShownBytes(s, key, day) + Accounted(cfg.limits.Keys, events, key, day);
              var sessions := Shown(s, key, day) + Admissions(cfg, s, events, key, day);
              && account == (if n > 0 && limit.bandwidth.Some? && (bytes + n) % 0x1_0000_0000_0000_0000 > limit.bandwidth.value
                             then DailyBandwidth else Allowed)
              && check == (if limit.bandwidth.Some? && bytes % 0x1_0000_0000_0000_0000 >= limit.bandwidth.value then DailyBandwidth
                           else if limit.connections.Some? && sessions >= limit.connections.value then DailyConnections
                           else Allowed)
  {
    hide Apply, LimitKey, IsBest, Shown, ShownBytes, RunAll, Monotone, CleanRestarts, Accounted, Admissions, Agreed, Readable, LastDay;
    KeyIsConfigured(cfg.limits.Keys, domain);
    var k := LimitKey(cfg.limits.Keys, domain);
    var r := RunAll(cfg, s, events);
    AnswersOf(cfg, r, domain, n, day);
    if k.Some? {
      UsageIsHistory(cfg, s, events, now, k.value, day);
      Wraps(ShownBytes(s, k.value, day) + Accounted(cfg.limits.Keys, events, k.value, day), n);
    }
  }

  /**
   After a successful flush nothing is lost in a crash: whatever ran before it, a restart
   shows for every later day the bytes and connections that memory showed for it.
   */
  lemma FlushThenCrash(cfg: Config, s: State, events: seq<Event>, now: nat, today: nat, key: string, day: nat)
    requires Inv(cfg, s, now) && Monotone(events, now) && LastDay(events, now) <= today <= day
    requires cfg.persistent && key in cfg.limits
    ensures var ran := RunAll(cfg, s, events);
            var flushed := Apply(cfg, ran, Flush(Done), today).0;
            var loaded := Apply(cfg, flushed, Restart, day).0;
            && !flushed.dirty
            && ShownBytes(loaded, key, day) == ShownBytes(ran, key, day)
            && Shown(loaded, key, day) == Shown(ran, key, day)
  {
    hide LimitKey, Monotone, SavedFor;
    RunKeepsInv(cfg, s, events, now);
    var ran := RunAll(cfg, s, events);
    OpKeepsInv(cfg, ran, Flush(Done), LastDay(events, now), today);
    var flushed := Apply(cfg, ran, Flush(Done), today).0;
    assert Agreed(flushed, day);
  }
}
