/**
 The per-domain limiter run by one caller at a time: which key a host is charged to, how
 the counters roll over with the day, and how they survive a restart in the state file.
 (Module DomainQuota has the same counters under concurrency.)
 */
module DomainLimiter {
  import opened Wrappers
  import opened Text

  const U64: nat := 0x1_0000_0000_0000_0000
  const STATE_VERSION: nat := 1

  datatype Limit = Limit(bandwidth: Option<nat>, connections: Option<nat>)

  /** The configured limits under lowercased keys, and whether there is a state file. */
  datatype Config = Config(limits: map<string, Limit>, persistent: bool)

  datatype Counters = Counters(day: nat, bytes: nat, connections: nat) {
    /** `refresh_if_new_day`, undisturbed. */
    function Refreshed(today: nat): Counters {
      if day == today then this else Counters(today, 0, 0)
    }
  }

  /** The state file, after parsing. */
  datatype Saved = Saved(version: nat, domains: map<string, Counters>)

  datatype Verdict = Allowed | DailyBandwidth | DailyConnections

  // ------------------------------------------------------------- the limit key

  /** `key` is the host or a parent domain of it. */
  ghost predicate Matches(key: string, host: string) {
    host == key || exists labels :: host == labels + "." + key
  }

  ghost predicate IsBest(keys: set<string>, host: string, key: string) {
    key in keys && Matches(key, host) && forall k | k in keys && Matches(k, host) :: |k| <= |key|
  }

  /** The longest configured key that covers a host name. */
  ghost function LimitKey(keys: set<string>, sni: string): Option<string> {
    if exists k :: IsBest(keys, Lower(sni), k) then
      var k :| IsBest(keys, Lower(sni), k);
      Some(k)
    else None
  }

  lemma SameLengthSameKey(host: string, a: string, b: string)
    requires Matches(a, host) && Matches(b, host) && |a| == |b|
    ensures a == b
  {
    assert host[|host| - |a|..] == a by { MatchIsSuffix(host, a); }
    assert host[|host| - |b|..] == b by { MatchIsSuffix(host, b); }
  }

  lemma MatchIsSuffix(host: string, key: string)
    ensures Matches(key, host) ==> |key| <= |host| && host[|host| - |key|..] == key
    ensures Matches(key, host) <==> host == key || EndsWith(host, "." + key)
  {
    if EndsWith(host, "." + key) {
      assert host == host[..|host| - |key| - 1] + "." + key;
    }
  }

  /** The key is the unique longest match, and there is one whenever anything matches. */
  lemma LimitKeyIsBest(keys: set<string>, sni: string)
    ensures LimitKey(keys, sni).None? <==> forall k | k in keys :: !Matches(k, Lower(sni))
    ensures forall k :: LimitKey(keys, sni) == Some(k) <==> IsBest(keys, Lower(sni), k)
  {
    var host := Lower(sni);
    if k :| k in keys && Matches(k, host) {
      LongestExists(keys, host, k);
    }
    forall a, b | IsBest(keys, host, a) && IsBest(keys, host, b)
      ensures a == b
    {
      SameLengthSameKey(host, a, b);
    }
  }

  lemma KeyIsConfigured(keys: set<string>, sni: string)
    ensures LimitKey(keys, sni).Some? ==> LimitKey(keys, sni).value in keys
  {
    LimitKeyIsBest(keys, sni);
  }

  lemma {:induction false} LongestExists(keys: set<string>, host: string, k: string)
    requires k in keys && Matches(k, host)
    ensures exists b :: IsBest(keys, host, b)
    decreases |host| - |k|
  {
    MatchIsSuffix(host, k);
    if j :| j in keys && Matches(j, host) && |j| > |k| {
      MatchIsSuffix(host, j);
      LongestExists(keys, host, j);
    } else {
      assert IsBest(keys, host, k);
    }
  }

  // ---------------------------------------------------- the limiter on values

  datatype State = State(counters: map<string, Counters>, dirty: bool, disk: Option<Saved>)

  /** What the file holds for a key; names in it are lowercased. */
  ghost function SavedFor(disk: Option<Saved>, key: string): Option<Counters> {
    if disk.Some? && disk.value.version == 1 && exists d :: d in disk.value.domains && Lower(d) == key then
      var d :| d in disk.value.domains && Lower(d) == key;
      Some(disk.value.domains[d])
    else None
  }

  /** The counters a restart on `today` gives a key. */
  ghost function Loaded(disk: Option<Saved>, key: string, today: nat): Counters {
    match SavedFor(disk, key)
    case None => Counters(today, 0, 0)
    case Some(c) => c.Refreshed(today)
  }

  ghost function LoadState(keys: set<string>, disk: Option<Saved>, today: nat): State {
    State(map k | k in keys :: Loaded(disk, k, today), false, disk)
  }

  function RefreshKey(s: State, key: string, today: nat): State
    requires key in s.counters
  {
    s.(counters := s.counters[key := s.counters[key].Refreshed(today)])
  }

  /** The verdict of `check_connection` on refreshed counters. */
  function Judge(limit: Limit, c: Counters): Verdict {
    if limit.bandwidth.Some? && c.bytes >= limit.bandwidth.value then DailyBandwidth
    else if limit.connections.Some? && c.connections >= limit.connections.value then DailyConnections
    else Allowed
  }

  function CheckKey(limit: Limit, persistent: bool, s: State, key: string, today: nat): (State, Verdict)
    requires key in s.counters
  {
    var r := RefreshKey(s, key, today);
    var c := r.counters[key];
    var verdict := Judge(limit, c);
    if verdict == Allowed && limit.connections.Some?
    then (r.(counters := r.counters[key := c.(connections := c.connections + 1)], dirty := s.dirty || persistent), verdict)
    else (r, verdict)
  }

  function AccountKey(limit: Limit, persistent: bool, s: State, key: string, n: nat, today: nat): (State, Verdict)
    requires key in s.counters
  {
    if n == 0 || limit.bandwidth.None? then (s, Allowed)
    else
      var c := s.counters[key].Refreshed(today);
      var used := (c.bytes + n) % U64;
      (s.(counters := s.counters[key := c.(bytes := used)], dirty := s.dirty || persistent),
       if used > limit.bandwidth.value then DailyBandwidth else Allowed)
  }

  function RefreshAll(counters: map<string, Counters>, today: nat): map<string, Counters> {
    map k | k in counters :: counters[k].Refreshed(today)
  }

  /** How writing the file goes: its directory cannot be made, the write or renaming fails, or it is done. */
  datatype Write = NoDirectory | Failed | Done

  /**
   Without a directory nothing happens. The snapshot refreshes every counter; the file
   changes and the flag clears only if the write succeeds.
   */
  function PersistState(s: State, today: nat, write: Write): State {
    var counters := RefreshAll(s.counters, today);
    match write
    case NoDirectory => s
    case Failed => s.(counters := counters)
    case Done => State(counters, false, Some(Saved(STATE_VERSION, counters)))
  }

  // ------------------------------------------------------------- serial runs

  datatype Op = Check(domain: string) | Account(domain: string, n: nat) | Persist(write: Write) | Flush(write: Write) | Restart

  datatype Event = Event(op: Op, day: nat)

  ghost predicate Keyed(cfg: Config, s: State) {
    s.counters.Keys == cfg.limits.Keys
  }

  /** One operation on a given day. */
  ghost function Apply(cfg: Config, s: State, op: Op, today: nat): (r: (State, Verdict))
    requires Keyed(cfg, s)
    ensures Keyed(cfg, r.0)
  {
    match op
    case Check(domain) =>
      LimitKeyIsBest(cfg.limits.Keys, domain);
      (match LimitKey(cfg.limits.Keys, domain)
       case None => (s, Allowed)
       case Some(k) => CheckKey(cfg.limits[k], cfg.persistent, s, k, today))
    case Account(domain, n) =>
      LimitKeyIsBest(cfg.limits.Keys, domain);
      (match LimitKey(cfg.limits.Keys, domain)
       case None => (s, Allowed)
       case Some(k) => AccountKey(cfg.limits[k], cfg.persistent, s, k, n, today))
    case Persist(w) => (if cfg.persistent then PersistState(s, today, w) else s, Allowed)
    case Flush(w) => (if cfg.persistent && s.dirty then PersistState(s, today, w) else s, Allowed)
    case Restart => (LoadState(cfg.limits.Keys, if cfg.persistent then s.disk else None, today).(disk := s.disk), Allowed)
  }

  ghost function RunAll(cfg: Config, s: State, events: seq<Event>): (r: State)
    requires Keyed(cfg, s)
    ensures Keyed(cfg, r)
    decreases events
  {
    if events == [] then s
    else RunAll(cfg, Apply(cfg, s, events[0].op, events[0].day).0, events[1..])
  }

  /** The clock never goes back. */
  ghost predicate Monotone(events: seq<Event>, from: nat) {
    events == [] || (from <= events[0].day && Monotone(events[1..], events[0].day))
  }

  function LastDay(events: seq<Event>, from: nat): nat {
    if events == [] then from else LastDay(events[1..], events[0].day)
  }

  /** Reloading on `t` would give every key the usage that memory has on `t`. */
  ghost predicate Agreed(s: State, t: nat) {
    forall k | k in s.counters :: Loaded(s.disk, k, t) == s.counters[k].Refreshed(t)
  }

  ghost predicate NamesApart(domains: map<string, Counters>) {
    forall a, b | a in domains && b in domains && Lower(a) == Lower(b) :: a == b
  }

  /** A day not after `now`, and bytes that fit their 64 bits. */
  ghost predicate Counted(c: Counters, now: nat) {
    c.day <= now && c.bytes < 0x1_0000_0000_0000_0000
  }

  /** A file whose names stay apart when lowercased, with no day after `now`. */
  ghost predicate Readable(disk: Option<Saved>, now: nat) {
    disk.Some? ==> NamesApart(disk.value.domains) && forall d | d in disk.value.domains :: Counted(disk.value.domains[d], now)
  }

  ghost predicate Inv(cfg: Config, s: State, now: nat) {
    && Keyed(cfg, s)
    && (forall k | k in cfg.limits :: Lower(k) == k)
    && Readable(s.disk, now)
    && (forall k | k in s.counters :: Counted(s.counters[k], now))
    && (cfg.persistent && !s.dirty ==> forall t | t >= now :: Agreed(s, t))
  }

  /** A change to one key keeps the agreement of the others. */
  lemma KeyChangeKeeps(cfg: Config, s: State, s': State, key: string, now: nat, today: nat)
    requires Inv(cfg, s, now) && now <= today && key in s.counters
    requires key in s'.counters && s'.disk == s.disk && s'.counters == s.counters[key := s'.counters[key]]
    requires Counted(s'.counters[key], today)
    requires !cfg.persistent || s'.dirty || (!s.dirty && s'.counters[key] == s.counters[key].Refreshed(today)) || s' == s
    ensures Inv(cfg, s', today)
  {
    if cfg.persistent && !s'.dirty {
      forall t | t >= today
        ensures Agreed(s', t)
      {
        assert Agreed(s, t);
        assert s.counters[key].Refreshed(today).Refreshed(t) == s.counters[key].Refreshed(t);
      }
    }
  }

  lemma LoadAgrees(cfg: Config, disk: Option<Saved>, today: nat)
    requires forall k | k in cfg.limits :: Lower(k) == k
    requires Readable(disk, today)
    ensures Inv(cfg, LoadState(cfg.limits.Keys, disk, today), today)
  {
    var s := LoadState(cfg.limits.Keys, disk, today);
    forall t, k | t >= today && k in s.counters
      ensures Loaded(disk, k, t) == s.counters[k].Refreshed(t)
    {
      var c := SavedFor(disk, k);
      assert c.Some? ==> Counted(c.value, today);
    }
    assert forall t | t >= today :: Agreed(s, t);
  }

  lemma PersistAgrees(cfg: Config, s: State, now: nat, today: nat, write: Write)
    requires cfg.persistent && Inv(cfg, s, now) && now <= today
    ensures Inv(cfg, PersistState(s, today, write), today)
  {
    if write == Done {
      FreshFileAgrees(RefreshAll(s.counters, today), today);
    } else if write == Failed && !s.dirty {
      var s' := PersistState(s, today, write);
      forall t | t >= today
        ensures Agreed(s', t)
      {
        assert Agreed(s, t);
        assert forall k | k in s.counters :: s.counters[k].Refreshed(today).Refreshed(t) == s.counters[k].Refreshed(t);
      }
    }
  }

  lemma FreshFileAgrees(counters: map<string, Counters>, today: nat)
    requires forall k | k in counters :: Lower(k) == k && counters[k].day == today && Counted(counters[k], today)
    ensures var disk := Some(Saved(STATE_VERSION, counters));
            forall t | t >= today :: Agreed(State(counters, false, disk), t)
    ensures Readable(Some(Saved(STATE_VERSION, counters)), today)
  {
  }

  /** Every operation keeps the agreement between memory and file. */
  lemma OpKeepsInv(cfg: Config, s: State, op: Op, now: nat, today: nat)
    requires Inv(cfg, s, now) && now <= today
    ensures Inv(cfg, Apply(cfg, s, op, today).0, today)
  {
    hide LimitKey, IsBest;
    match op {
      case Check(domain) =>
        KeyIsConfigured(cfg.limits.Keys, domain);
        var k := LimitKey(cfg.limits.Keys, domain);
        if k.Some? {
          KeyChangeKeeps(cfg, s, CheckKey(cfg.limits[k.value], cfg.persistent, s, k.value, today).0, k.value, now, today);
        }
      case Account(domain, n) =>
        KeyIsConfigured(cfg.limits.Keys, domain);
        var k := LimitKey(cfg.limits.Keys, domain);
        if k.Some? {
          KeyChangeKeeps(cfg, s, AccountKey(cfg.limits[k.value], cfg.persistent, s, k.value, n, today).0, k.value, now, today);
        }
      case Persist(write) =>
        if cfg.persistent {
          PersistAgrees(cfg, s, now, today, write);
        }
      case Flush(write) =>
        if cfg.persistent {
          PersistAgrees(cfg, s, now, today, write);
        }
      case Restart =>
        LoadAgrees(cfg, s.disk, today);
    }
  }

  lemma {:induction false} RunKeepsInv(cfg: Config, s: State, events: seq<Event>, now: nat)
    requires Inv(cfg, s, now) && Monotone(events, now)
    ensures Inv(cfg, RunAll(cfg, s, events), LastDay(events, now))
    decreases events
  {
    if events != [] {
      OpKeepsInv(cfg, s, events[0].op, now, events[0].day);
      RunKeepsInv(cfg, Apply(cfg, s, events[0].op, events[0].day).0, events[1..], events[0].day);
    }
  }

  /**
   Crash agreement: after any serial run from any readable file, whenever the dirty flag
   is down, a crash loses nothing: reloading on any later day gives exactly the usage that
   memory, refreshed to that day, would show.
   */
  lemma CrashAgreement(cfg: Config, disk: Option<Saved>, start: nat, events: seq<Event>, day: nat)
    requires cfg.persistent && (forall k | k in cfg.limits :: Lower(k) == k)
    requires Readable(disk, start) && Monotone(events, start) && LastDay(events, start) <= day
    ensures var s := RunAll(cfg, LoadState(cfg.limits.Keys, disk, start), events);
            !s.dirty ==> LoadState(cfg.limits.Keys, s.disk, day).counters == RefreshAll(s.counters, day)
  {
    LoadAgrees(cfg, disk, start);
    var s0 := LoadState(cfg.limits.Keys, disk, start);
    RunKeepsInv(cfg, s0, events, start);
    var s := RunAll(cfg, s0, events);
    assert !s.dirty ==> Agreed(s, day);
  }

  // ----------------------------------------------------- the limit of a day

  /** An operation that admits a session of `key` on `day`. */
  ghost predicate Admits(cfg: Config, s: State, e: Event, key: string, day: nat)
    requires Keyed(cfg, s)
  {
    && e.op.Check? && e.day == day && LimitKey(cfg.limits.Keys, e.op.domain) == Some(key)
    && Apply(cfg, s, e.op, e.day).1 == Allowed
  }

  /** How many sessions of `key` a run admits on `day`. */
  ghost function Admissions(cfg: Config, s: State, events: seq<Event>, key: string, day: nat): nat
    requires Keyed(cfg, s)
    decreases events
  {
    if events == [] then 0
    else
      (if Admits(cfg, s, events[0], key, day) then 1 else 0)
      + Admissions(cfg, Apply(cfg, s, events[0].op, events[0].day).0, events[1..], key, day)
  }

  /** Restarts happen only when everything is on disk: there is a file, and nothing is dirty. */
  ghost predicate CleanRestarts(cfg: Config, s: State, events: seq<Event>)
    requires Keyed(cfg, s)
    decreases events
  {
    events != [] ==>
      && (events[0].op.Restart? ==> cfg.persistent && !s.dirty)
      && CleanRestarts(cfg, Apply(cfg, s, events[0].op, events[0].day).0, events[1..])
  }

  /** The connections a key shows on a day. */
  ghost function Shown(s: State, key: string, day: nat): nat
    requires key in s.counters
  {
    if s.counters[key].day == day then s.counters[key].connections else 0
  }

  /** Up to a day, what a key shows for it moves only by its admissions, and not past the limit. */
  lemma OpCounts(cfg: Config, s: State, e: Event, now: nat, key: string, day: nat)
    requires Inv(cfg, s, now) && now <= e.day <= day
    requires key in cfg.limits && cfg.limits[key].connections.Some?
    requires e.op.Restart? ==> cfg.persistent && !s.dirty
    ensures var s' := Apply(cfg, s, e.op, e.day).0;
            && Shown(s', key, day) == Shown(s, key, day) + (if Admits(cfg, s, e, key, day) then 1 else 0)
            && (Admits(cfg, s, e, key, day) ==> Shown(s', key, day) <= cfg.limits[key].connections.value)
  {
    hide IsBest, LimitKey;
    match e.op {
      case Check(domain) =>
        KeyIsConfigured(cfg.limits.Keys, domain);
        var k := LimitKey(cfg.limits.Keys, domain);
        if k.Some? {
          CheckCounts(cfg, s, k.value, e.day, key, day);
        }
      case Account(domain, n) =>
        KeyIsConfigured(cfg.limits.Keys, domain);
        var k := LimitKey(cfg.limits.Keys, domain);
        if k.Some? {
          AccountCounts(cfg, s, k.value, n, e.day, key, day);
        }
      case Restart =>
        RestartCounts(s, cfg.limits.Keys, e.day, key, day);
      case _ =>
    }
  }

  lemma CheckCounts(cfg: Config, s: State, k: string, today: nat, key: string, day: nat)
    requires Keyed(cfg, s) && k in cfg.limits && key in cfg.limits && cfg.limits[key].connections.Some?
    requires today <= day && s.counters[key].day <= today
    ensures var (s', verdict) := CheckKey(cfg.limits[k], cfg.persistent, s, k, today);
            var admitted := k == key && today == day && verdict == Allowed;
            && Shown(s', key, day) == Shown(s, key, day) + (if admitted then 1 else 0)
            && (admitted ==> Shown(s', key, day) <= cfg.limits[key].connections.value)
  {
  }

  lemma AccountCounts(cfg: Config, s: State, k: string, n: nat, today: nat, key: string, day: nat)
    ensures Keyed(cfg, s) && k in cfg.limits && key in cfg.limits && today <= day && s.counters[key].day <= today ==>
      Shown(AccountKey(cfg.limits[k], cfg.persistent, s, k, n, today).0, key, day) == Shown(s, key, day)
  {
  }

  lemma RestartCounts(s: State, keys: set<string>, today: nat, key: string, day: nat)
    ensures s.counters.Keys == keys && key in keys && s.counters[key].day <= today <= day && Agreed(s, today) && Agreed(s, day) ==>
      Shown(LoadState(keys, s.disk, today), key, day) == Shown(s, key, day)
  {
  }

  lemma {:induction false} NoneBefore(cfg: Config, s: State, events: seq<Event>, now: nat, key: string, day: nat)
    requires Keyed(cfg, s) && Monotone(events, now) && day < now
    ensures Admissions(cfg, s, events, key, day) == 0
    decreases events
  {
    if events != [] {
      NoneBefore(cfg, Apply(cfg, s, events[0].op, events[0].day).0, events[1..], events[0].day, key, day);
    }
  }

  /**
   The daily connection limit, run serially: with a clock that never goes back, and
   restarts only after a flush, a key is never charged more admissions on a day than its
   limit, counting those it already shows for that day at the start.
   */
  lemma {:induction false} DailyConnectionLimit(cfg: Config, s: State, events: seq<Event>, now: nat, key: string, day: nat)
    requires Inv(cfg, s, now) && Monotone(events, now) && CleanRestarts(cfg, s, events)
    requires key in cfg.limits && cfg.limits[key].connections.Some?
    ensures var n := Admissions(cfg, s, events, key, day);
            n > 0 ==> Shown(s, key, day) + n <= cfg.limits[key].connections.value
    decreases events
  {
    if day < now {
      NoneBefore(cfg, s, events, now, key, day);
    } else if events != [] {
      var e := events[0];
      var s' := Apply(cfg, s, e.op, e.day).0;
      OpKeepsInv(cfg, s, e.op, now, e.day);
      DailyConnectionLimit(cfg, s', events[1..], e.day, key, day);
      if e.day <= day {
        OpCounts(cfg, s, e, now, key, day);
      } else {
        NoneBefore(cfg, s', events[1..], e.day, key, day);
      }
    }
  }

  // ----------------------------------------------------------------- the class

  /** The entries a restart looks at. */
  function Usable(persistent: bool, disk: Option<Saved>): map<string, Counters> {
    if persistent && disk.Some? && disk.value.version == 1 then disk.value.domains else map[]
  }

  /** A key has the counters of one of the entries for it that are of today, or none if there is no such entry. */
  ghost predicate RestoredFrom(domains: map<string, Counters>, names: set<string>, key: string, today: nat, c: Counters) {
    || (c == Counters(today, 0, 0) && forall d | d in names && d in domains && Lower(d) == key :: domains[d].day != today)
    || (exists d :: d in names && d in domains && Lower(d) == key && domains[d].day == today && c == domains[d])
  }

  ghost predicate RestoredAs(domains: map<string, Counters>, key: string, today: nat, c: Counters) {
    RestoredFrom(domains, domains.Keys, key, today, c)
  }

  lemma NothingRestored(today: nat)
    ensures forall k :: RestoredAs(map[], k, today, Counters(today, 0, 0))
  {
  }

  /** If names stay apart the restored counters are determined. */
  lemma LoadedExactly(keys: set<string>, disk: Option<Saved>, today: nat, counters: map<string, Counters>)
    requires counters.Keys == keys && NamesApart(Usable(true, disk))
    requires forall k | k in counters :: RestoredAs(Usable(true, disk), k, today, counters[k])
    ensures counters == LoadState(keys, disk, today).counters
  {
    forall k | k in counters
      ensures counters[k] == Loaded(disk, k, today)
    {
      assert RestoredAs(Usable(true, disk), k, today, counters[k]);
      var saved := SavedFor(disk, k);
      if saved.Some? {
        var d :| d in disk.value.domains && Lower(d) == k && saved.value == disk.value.domains[d];
      }
    }
  }

  /** The same limits under lowercased keys; where keys meet, one of the limits stays. */
  ghost predicate Lowercased(raw: map<string, Limit>, limits: map<string, Limit>) {
    && (forall k | k in raw :: Lower(k) in limits)
    && (forall k | k in limits :: exists r :: r in raw && Lower(r) == k && limits[k] == raw[r])
  }

  method LowerKeys(raw: map<string, Limit>) returns (limits: map<string, Limit>)
    ensures Lowercased(raw, limits) && forall k | k in limits :: Lower(k) == k
  {
    hide Lower;
    limits := map[];
    var todo := raw.Keys;
    while todo != {}
      invariant todo <= raw.Keys
      invariant forall k | k in raw.Keys - todo :: Lower(k) in limits
      invariant forall k | k in limits :: exists r :: r in raw && Lower(r) == k && limits[k] == raw[r]
      decreases todo
    {
      var k :| k in todo;
      limits := limits[Lower(k) := raw[k]];
      todo := todo - {k};
    }
    assert forall k | k in raw :: k in raw.Keys - todo;
    forall k | k in limits
      ensures Lower(k) == k
    {
      var r :| r in raw && Lower(r) == k && limits[k] == raw[r];
      LowerTwice(r);
    }
  }

  class DomainLimiter {
    const cfg: Config
    var counters: map<string, Counters>
    var dirty: bool
    /** The state file, which outlives the object. */
    var disk: Option<Saved>

    ghost function Model(): State
      reads this
    {
      State(counters, dirty, disk)
    }

    ghost predicate Valid()
      reads this
    {
      Keyed(cfg, Model()) && forall k | k in cfg.limits :: Lower(k) == k
    }

    /** Limits under lowercased keys; fresh counters, then those of the state file that are from today. */
    constructor Load(limits: map<string, Limit>, persistent: bool, disk: Option<Saved>, today: nat)
      ensures Valid() && cfg.persistent == persistent && Lowercased(limits, cfg.limits)
      ensures !dirty && this.disk == disk
      ensures forall k | k in counters :: RestoredAs(Usable(persistent, disk), k, today, counters[k])
      ensures NamesApart(Usable(persistent, disk)) ==>
        Model() == LoadState(cfg.limits.Keys, if persistent then disk else None, today).(disk := disk)
    {
      hide RestoredFrom, Lowercased, Lower, NamesApart;
      var lowered := LowerKeys(limits);
      this.cfg := Config(lowered, persistent);
      this.disk := disk;
      dirty := false;
      counters := map k | k in lowered :: Counters(today, 0, 0);
      new;
      NothingRestored(today);
      if cfg.persistent && disk.Some? && disk.value.version == STATE_VERSION {
        LoadFromDisk(disk.value.domains, today);
      }
      if NamesApart(Usable(persistent, disk)) {
        LoadedExactly(cfg.limits.Keys, if persistent then disk else None, today, counters);
      }
    }

    /** The loop over the file's entries, in whatever order the map yields them. */
    method LoadFromDisk(domains: map<string, Counters>, today: nat)
      requires forall k | k in counters :: counters[k] == Counters(today, 0, 0)
      modifies this`counters
      ensures counters.Keys == old(counters.Keys)
      ensures forall k | k in counters :: RestoredAs(domains, k, today, counters[k])
    {
      var todo := domains.Keys;
      while todo != {}
        invariant todo <= domains.Keys && counters.Keys == old(counters.Keys)
        invariant forall k | k in counters :: RestoredFrom(domains, domains.Keys - todo, k, today, counters[k])
        decreases todo
      {
        var domain :| domain in todo;
        var entry := domains[domain];
        var key := Lower(domain);
        todo := todo - {domain};
        if key in counters && entry.day == today {
          counters := counters[key := entry];
        }
      }
    }

    /** The exact key if there is one, else the longest of the matching ones. */
    method ResolveLimitKey(sni: string) returns (r: Option<string>)
      ensures r == LimitKey(cfg.limits.Keys, sni) && (r.Some? ==> r.value in cfg.limits)
    {
      var host := Lower(sni);
      LimitKeyIsBest(cfg.limits.Keys, sni);
      if host in cfg.limits {
        forall k | Matches(k, host)
          ensures |k| <= |host|
        {
          MatchIsSuffix(host, k);
        }
        assert IsBest(cfg.limits.Keys, host, host);
        return Some(host);
      }
      r := None;
      var todo := cfg.limits.Keys;
      while todo != {}
        invariant todo <= cfg.limits.Keys
        invariant r.None? ==> forall k | k in cfg.limits.Keys - todo :: !Matches(k, host)
        invariant r.Some? ==> IsBest(cfg.limits.Keys - todo, host, r.value)
        decreases todo
      {
        var key :| key in todo;
        todo := todo - {key};
        MatchIsSuffix(host, key);
        if (host == key || EndsWith(host, "." + key)) && (r.None? || |key| > |r.value|) {
          r := Some(key);
        }
      }
      assert cfg.limits.Keys - todo == cfg.limits.Keys;
    }

    method RefreshIfNewDay(key: string, today: nat)
      requires key in counters
      modifies this`counters
      ensures counters == RefreshKey(old(Model()), key, today).counters
    {
      var c := counters[key];
      if c.day != today {
        counters := counters[key := Counters(today, 0, 0)];
      } else {
        assert counters == counters[key := c];
      }
    }

    method MarkDirty()
      modifies this`dirty
      ensures dirty == (old(dirty) || cfg.persistent)
    {
      if cfg.persistent {
        dirty := true;
      }
    }

    method CheckConnection(domain: string, today: nat) returns (verdict: Verdict)
      requires Valid()
      modifies this
      ensures Valid() && (Model(), verdict) == Apply(cfg, old(Model()), Check(domain), today)
    {
      LimitKeyIsBest(cfg.limits.Keys, domain);
      hide LimitKey;
      hide IsBest;
      var key := ResolveLimitKey(domain);
      if key == None {
        return Allowed;
      }
      var limit := cfg.limits[key.value];
      RefreshIfNewDay(key.value, today);
      var c := counters[key.value];
      if limit.bandwidth.Some? && c.bytes >= limit.bandwidth.value {
        return DailyBandwidth;
      }
      if limit.connections.Some? {
        if c.connections >= limit.connections.value {
          return DailyConnections;
        }
        counters := counters[key.value := c.(connections := c.connections + 1)];
        MarkDirty();
      }
      return Allowed;
    }

    method AccountBytes(domain: string, bytes: nat, today: nat) returns (verdict: Verdict)
      requires Valid()
      modifies this
      ensures Valid() && (Model(), verdict) == Apply(cfg, old(Model()), Account(domain, bytes), today)
    {
      LimitKeyIsBest(cfg.limits.Keys, domain);
      hide LimitKey;
      hide IsBest;
      if bytes == 0 {
        return Allowed;
      }
      var key := ResolveLimitKey(domain);
      if key == None {
        return Allowed;
      }
      var limit := cfg.limits[key.value];
      if limit.bandwidth == None {
        return Allowed;
      }
      RefreshIfNewDay(key.value, today);
      var c := counters[key.value];
      var used := (c.bytes + bytes) % U64;
      counters := counters[key.value := c.(bytes := used)];
      assert counters == old(counters)[key.value := c.(bytes := used)];
      MarkDirty();
      return if used > limit.bandwidth.value then DailyBandwidth else Allowed;
    }

    /** Refreshes every counter and collects what goes into the file. */
    method BuildSnapshot(today: nat) returns (saved: Saved)
      modifies this`counters
      ensures counters == RefreshAll(old(counters), today)
      ensures saved == Saved(STATE_VERSION, counters)
    {
      var domains: map<string, Counters> := map[];
      var todo := counters.Keys;
      while todo != {}
        invariant todo <= counters.Keys == old(counters).Keys && domains.Keys == counters.Keys - todo
        invariant forall k | k in domains :: domains[k] == counters[k] == old(counters)[k].Refreshed(today)
        invariant forall k | k in todo :: counters[k] == old(counters)[k]
        decreases todo
      {
        var key :| key in todo;
        RefreshIfNewDay(key, today);
        domains := domains[key := counters[key]];
        todo := todo - {key};
      }
      assert domains == counters;
      return Saved(STATE_VERSION, domains);
    }

    /** The write to a temporary file and its renaming either happen or leave the file alone. */
    method PersistNow(today: nat, write: Write) returns (ok: bool)
      requires Valid()
      modifies this
      ensures Valid() && Model() == Apply(cfg, old(Model()), Persist(write), today).0
      ensures ok == (!cfg.persistent || write == Done)
    {
      if !cfg.persistent {
        return true;
      }
      if write == NoDirectory {
        return false;
      }
      var saved := BuildSnapshot(today);
      if write == Failed {
        return false;
      }
      disk := Some(saved);
      dirty := false;
      return true;
    }

    method FlushIfDirty(today: nat, write: Write) returns (ok: bool)
      requires Valid()
      modifies this
      ensures Valid() && Model() == Apply(cfg, old(Model()), Flush(write), today).0
    {
      if !dirty {
        return true;
      }
      ok := PersistNow(today, write);
    }
  }
}
