/**
 The daily quota of one limited domain, shared by any number of concurrent sessions and by
 the tasks that save the counters.

 Every atomic load, store, compare-exchange and fetch-add that the program makes on the
 domain's counters and on the dirty flag is one action here, and so is every read of the
 clock, so a run is any interleaving of the sessions and the savers. A session holds one of
 the connection slots from its acceptance to its end. With a state file there are two
 savers: the task that flushes the counters now and then if they are dirty, and the last
 save when the service stops, which may overlap a flush and the sessions still running.
 */
module DomainQuota {
  import opened Wrappers
  import opened Sums

  const U64: nat := 0x1_0000_0000_0000_0000
  const CHUNK: nat := 64 * 1024

  /**
   The limits of the domain, the usage restored from disk at the start, whether there is a
   state file, and whether other domains are limited too, which share the dirty flag.
   */
  datatype Config = Config(
    slots: nat,
    bandwidth: Option<nat>,
    connections: Option<nat>,
    restoredBytes: nat,
    restoredConnections: nat,
    persistent: bool,
    otherDomains: bool)

  /** The steps of `refresh_if_new_day`, each about to be taken, with the day read from the clock. */
  datatype Refresh =
    | ReadClock
    | LoadDay(today: nat)
    | SwapDay(today: nat, stored: nat)
    | ZeroBytes(today: nat)
    | ZeroConnections(today: nat)
    | Fresh(today: nat)

  /**
   One direction of a splice: about to copy a chunk, accounting one already written, or
   about to set the dirty flag after it and then to end if it went over the limit.
   */
  datatype Direction = Copying | Accounting(n: nat, refresh: Refresh) | Marking(over: bool) | Ended

  datatype Session =
    | Vacant
    | Checking(refresh: Refresh)
    | LoadingConnections(today: nat)
    | Admitting(today: nat, current: nat)
    | MarkingDirty
    | Admitted
    | Splicing(up: Direction, down: Direction)

  /**
   What has happened, for the properties only: bytes written for the domain in all;
   bytes added and sessions admitted since the counter was last zeroed, with its value
   then; and all admissions, by the day their check read from the clock and by the day it
   was when they were counted.
   */
  datatype Ledger = Ledger(
    spliced: nat,
    added: nat, baseBytes: nat,
    admitted: nat, baseConnections: nat,
    byRead: multiset<nat>, byClock: multiset<nat>)

  /** A saver: refreshing the domain's counters, taking them one by one, writing them out. */
  datatype Saver =
    | Asleep
    | Refreshing(refresh: Refresh)
    | TakingBytes(day: nat)
    | TakingConnections(day: nat, bytes: nat)
    | Writing(day: nat, bytes: nat, connections: nat)
    | Gone

  datatype State = State(
    clock: nat, day: nat, bytes: nat, connections: nat, dirty: bool,
    sessions: seq<Session>, flusher: Saver, closer: Saver, ledger: Ledger)

  /** For savers `last` tells the last save from the flushing task. */
  datatype Action =
    | Tick(now: nat)
    | OtherDirties
    | StartSave(last: bool)
    | SaveRefresh(last: bool)
    | SaveLoad(last: bool)
    | SaveWrite(last: bool, ok: bool)
    | Arrive(i: nat)
    | CheckRefresh(i: nat)
    | CheckBytes(i: nat)
    | LoadConnections(i: nat)
    | TryAdmit(i: nat, spurious: bool)
    | MarkAdmission(i: nat)
    | Connect(i: nat)
    | Copy(i: nat, up: bool, n: nat)
    | AccountRefresh(i: nat, up: bool)
    | AddBytes(i: nat, up: bool)
    | MarkBytes(i: nat, up: bool)
    | EndDirection(i: nat, up: bool)
    | Leave(i: nat)
  {
    predicate BySaver() {
      StartSave? || SaveRefresh? || SaveLoad? || SaveWrite?
    }

    predicate BySession() {
      !Tick? && !OtherDirties? && !BySaver()
    }
  }

  function Init(cfg: Config, clock: nat): State {
    State(clock, clock, cfg.restoredBytes, cfg.restoredConnections, false, seq(cfg.slots, _ => Vacant), Asleep, Asleep,
          Ledger(0, 0, cfg.restoredBytes, 0, cfg.restoredConnections, multiset{}, multiset{}))
  }

  // -------------------------------------------------------------------- actions

  function RefreshStep(s: State, r: Refresh): (State, Refresh) {
    match r
    case ReadClock => (s, LoadDay(s.clock))
    case LoadDay(today) => (s, if s.day == today then Fresh(today) else SwapDay(today, s.day))
    case SwapDay(today, stored) =>
      if s.day == stored then (s.(day := today), ZeroBytes(today)) else (s, Fresh(today))
    case ZeroBytes(today) =>
      (s.(bytes := 0, ledger := s.ledger.(added := 0, baseBytes := 0)), ZeroConnections(today))
    case ZeroConnections(today) =>
      (s.(connections := 0, ledger := s.ledger.(admitted := 0, baseConnections := 0)), Fresh(today))
    case Fresh(_) => (s, r)
  }

  function Put(s: State, i: nat, x: Session): State
    requires i < |s.sessions|
  {
    s.(sessions := s.sessions[i := x])
  }

  function GetDirection(x: Session, up: bool): Direction
    requires x.Splicing?
  {
    if up then x.up else x.down
  }

  function PutDirection(x: Session, up: bool, d: Direction): Session
    requires x.Splicing?
  {
    if up then x.(up := d) else x.(down := d)
  }

  function Admit(l: Ledger, read: nat, clock: nat): Ledger {
    l.(admitted := l.admitted + 1, byRead := l.byRead + multiset{read}, byClock := l.byClock + multiset{clock})
  }

  /** The state after an action, or `None` when the action cannot be taken. */
  function Next(cfg: Config, s: State, a: Action): Option<State> {
    if a.Tick? then Some(s.(clock := a.now))
    else if a.OtherDirties? then (if cfg.persistent && cfg.otherDomains then Some(s.(dirty := true)) else None)
    else if a.BySaver() then SaverNext(cfg, s, a, GetSaver(s, a.last))
    else if a.i >= |s.sessions| then None
    else SessionNext(cfg, s, a, s.sessions[a.i])
  }

  /** Without a state file there is no flag to set. */
  function AfterAdding(cfg: Config, over: bool): Direction {
    if cfg.persistent then Marking(over) else if over then Ended else Copying
  }

  function GetSaver(s: State, last: bool): Saver {
    if last then s.closer else s.flusher
  }

  function PutSaver(s: State, last: bool, v: Saver): State {
    if last then s.(closer := v) else s.(flusher := v)
  }

  /** The flushing task starts when it finds the flag up, and not any more once the last save has started. */
  function SaverNext(cfg: Config, s: State, a: Action, v: Saver): Option<State>
    requires a.BySaver()
  {
    match a
    case StartSave(last) =>
      if cfg.persistent && v == Asleep && (last || (s.dirty && s.closer == Asleep))
      then Some(PutSaver(s, last, Refreshing(ReadClock))) else None
    case SaveRefresh(last) =>
      if v.Refreshing? && !v.refresh.Fresh? then
        var (s', r) := RefreshStep(s, v.refresh);
        Some(PutSaver(s', last, Refreshing(r)))
      else None
    case SaveLoad(last) =>
      (match v
       case Refreshing(Fresh(_)) => Some(PutSaver(s, last, TakingBytes(s.day)))
       case TakingBytes(day) => Some(PutSaver(s, last, TakingConnections(day, s.bytes)))
       case TakingConnections(day, bytes) => Some(PutSaver(s, last, Writing(day, bytes, s.connections)))
       case _ => None)
    case SaveWrite(last, ok) =>
      if v.Writing? then Some(PutSaver(s, last, if last then Gone else Asleep).(dirty := s.dirty && !ok)) else None
  }

  function SessionNext(cfg: Config, s: State, a: Action, x: Session): Option<State>
    requires a.BySession() && a.i < |s.sessions|
  {
    match a
    case Arrive(i) =>
      if x == Vacant then Some(Put(s, i, Checking(ReadClock))) else None
    case CheckRefresh(i) =>
      if x.Checking? && !x.refresh.Fresh? then
        var (s', r) := RefreshStep(s, x.refresh);
        Some(Put(s', i, Checking(r)))
      else None
    case CheckBytes(i) =>
      if x.Checking? && x.refresh.Fresh? then
        if cfg.bandwidth.Some? && s.bytes >= cfg.bandwidth.value then Some(Put(s, i, Vacant))
        else Some(Put(s, i, if cfg.connections.Some? then LoadingConnections(x.refresh.today) else Admitted))
      else None
    case LoadConnections(i) =>
      if x.LoadingConnections? then Some(Put(s, i, Admitting(x.today, s.connections))) else None
    case TryAdmit(i, spurious) =>
      if !x.Admitting? || cfg.connections.None? then None
      else if x.current >= cfg.connections.value then Some(Put(s, i, Vacant))
      else if s.connections == x.current && !spurious then
        Some(Put(s.(connections := x.current + 1, ledger := Admit(s.ledger, x.today, s.clock)), i,
                 if cfg.persistent then MarkingDirty else Admitted))
      else Some(Put(s, i, Admitting(x.today, s.connections)))
    case MarkAdmission(i) =>
      if x == MarkingDirty then Some(Put(s.(dirty := true), i, Admitted)) else None
    case Connect(i) =>
      if x == Admitted then Some(Put(s, i, Splicing(Copying, Copying))) else None
    case Copy(i, up, n) =>
      if x.Splicing? && GetDirection(x, up) == Copying && 1 <= n <= CHUNK then
        var d := if cfg.bandwidth.Some? then Accounting(n, ReadClock) else Copying;
        var l := s.ledger.(spliced := s.ledger.spliced + n);
        Some(Put(s.(ledger := l), i, PutDirection(x, up, d)))
      else None
    case AccountRefresh(i, up) =>
      if x.Splicing? && GetDirection(x, up).Accounting? && !GetDirection(x, up).refresh.Fresh? then
        var d := GetDirection(x, up);
        var (s', r) := RefreshStep(s, d.refresh);
        Some(Put(s', i, PutDirection(x, up, d.(refresh := r))))
      else None
    case AddBytes(i, up) =>
      if x.Splicing? && GetDirection(x, up).Accounting? && GetDirection(x, up).refresh.Fresh? && cfg.bandwidth.Some? then
        var n := GetDirection(x, up).n;
        var used := (s.bytes + n) % U64;
        var l := s.ledger.(added := s.ledger.added + n);
        var d := AfterAdding(cfg, used > cfg.bandwidth.value);
        Some(Put(s.(bytes := used, ledger := l), i, PutDirection(x, up, d)))
      else None
    case MarkBytes(i, up) =>
      if x.Splicing? && GetDirection(x, up).Marking? then
        Some(Put(s.(dirty := true), i, PutDirection(x, up, if GetDirection(x, up).over then Ended else Copying)))
      else None
    case EndDirection(i, up) =>
      if x.Splicing? && GetDirection(x, up) == Copying then Some(Put(s, i, PutDirection(x, up, Ended))) else None
    case Leave(i) =>
      if x == Admitted || x == Splicing(Ended, Ended) then Some(Put(s, i, Vacant)) else None
  }

  /** The state at the end of an interleaving, or `None` when some action cannot be taken. */
  function Run(cfg: Config, s: State, actions: seq<Action>): Option<State>
    decreases actions
  {
    if actions == [] then Some(s)
    else match Next(cfg, s, actions[0])
      case None => None
      case Some(s') => Run(cfg, s', actions[1..])
  }

  // ------------------------------------------------------------------ invariant

  function Max(a: nat, b: nat): nat {
    if a > b then a else b
  }

  function DirectionPotential(d: Direction): nat {
    if d == Ended || d == Marking(true) then 0 else CHUNK
  }

  /** How many more bytes a session may still add once the limit is passed. */
  function Potential(x: Session): nat {
    match x
    case Vacant => 0
    case Checking(_) => 0
    case Splicing(up, down) => DirectionPotential(up) + DirectionPotential(down)
    case _ => 2 * CHUNK
  }

  function DirectionPending(d: Direction): nat {
    if d.Accounting? then d.n else 0
  }

  /** Bytes a session has written and not yet accounted. */
  function Pending(x: Session): nat {
    if x.Splicing? then DirectionPending(x.up) + DirectionPending(x.down) else 0
  }

  /** The most the byte counter can ever show. */
  function Ceiling(cfg: Config): nat
    requires cfg.bandwidth.Some?
  {
    Max(cfg.bandwidth.value, cfg.restoredBytes) + 2 * 65536 * cfg.slots
  }

  /** No direction has more than one chunk in flight. */
  predicate Bounded(x: Session) {
    x.Splicing? ==> DirectionPending(x.up) <= CHUNK && DirectionPending(x.down) <= CHUNK
  }

  ghost predicate Inv(cfg: Config, s: State) {
    && |s.sessions| == cfg.slots
    && (forall x | x in s.sessions :: Bounded(x))
    && (cfg.bandwidth.Some? ==> BytesInv(cfg, s))
    && ConnectionsInv(cfg, s)
  }

  ghost predicate BytesInv(cfg: Config, s: State)
    requires cfg.bandwidth.Some?
  {
    && s.bytes == s.ledger.baseBytes + s.ledger.added
    && s.ledger.baseBytes <= cfg.restoredBytes
    && (s.bytes <= cfg.bandwidth.value || s.bytes + SumSeq(s.sessions, Potential) <= Ceiling(cfg))
  }

  ghost predicate ConnectionsInv(cfg: Config, s: State) {
    && s.connections == s.ledger.baseConnections + s.ledger.admitted
    && (s.ledger.admitted > 0 ==> cfg.connections.Some? && s.connections <= cfg.connections.value)
  }

  lemma InitInv(cfg: Config, clock: nat)
    ensures Inv(cfg, Init(cfg, clock))
    ensures SumSeq(Init(cfg, clock).sessions, Pending) == 0
  {
    var sessions := Init(cfg, clock).sessions;
    SumBounded(sessions, Potential, 0);
    SumBounded(sessions, Pending, 0);
  }

  lemma SlotUpdated(cfg: Config, s: State, a: Action, s': State)
    requires a.BySession() && Next(cfg, s, a) == Some(s')
    ensures |s'.sessions| == |s.sessions| && s'.sessions == s.sessions[a.i := s'.sessions[a.i]]
    ensures Bounded(s.sessions[a.i]) ==> Bounded(s'.sessions[a.i])
  {
    SlotReplaced(cfg, s, a, s');
    SlotBounded(cfg, s, a, s');
    hide Next;
  }

  lemma SlotReplaced(cfg: Config, s: State, a: Action, s': State)
    requires a.BySession() && Next(cfg, s, a) == Some(s')
    ensures a.i < |s.sessions| == |s'.sessions| && s'.sessions == s.sessions[a.i := s'.sessions[a.i]]
  {
    hide GetDirection, PutDirection, RefreshStep;
    RefreshedSlots(s);
  }

  /** The refresh inside an action of a session leaves the sessions to that action. */
  lemma RefreshedSlots(s: State)
    ensures forall r: Refresh :: RefreshStep(s, r).0.sessions == s.sessions
  {
  }

  lemma SlotBounded(cfg: Config, s: State, a: Action, s': State)
    requires a.BySession() && Next(cfg, s, a) == Some(s')
    ensures |s'.sessions| == |s.sessions|
    ensures Bounded(s.sessions[a.i]) ==> Bounded(s'.sessions[a.i])
  {
    hide RefreshStep;
    RefreshedSlots(s);
  }

  /** What one action of a session does to its own slot and to the sums over all slots. */
  lemma SlotChanges(cfg: Config, s: State, a: Action, s': State)
    requires a.BySession() && Next(cfg, s, a) == Some(s')
    requires forall x | x in s.sessions :: Bounded(x)
    ensures |s'.sessions| == |s.sessions|
    ensures forall x | x in s'.sessions :: Bounded(x)
    ensures SumSeq(s'.sessions, Potential) + Potential(s.sessions[a.i]) == SumSeq(s.sessions, Potential) + Potential(s'.sessions[a.i])
    ensures SumSeq(s'.sessions, Pending) + Pending(s.sessions[a.i]) == SumSeq(s.sessions, Pending) + Pending(s'.sessions[a.i])
  {
    SlotUpdated(cfg, s, a, s');
    hide Next;
    var x' := s'.sessions[a.i];
    SumUpdate(s.sessions, a.i, x', Potential);
    SumUpdate(s.sessions, a.i, x', Pending);
  }

  /** Only a passed bandwidth check makes room for more bytes, and only below the limit. */
  lemma PotentialGrows(cfg: Config, s: State, a: Action, s': State)
    requires a.BySession() && Next(cfg, s, a) == Some(s')
    ensures Potential(s'.sessions[a.i]) > Potential(s.sessions[a.i]) ==>
              a.CheckBytes? && (cfg.bandwidth.Some? ==> s.bytes < cfg.bandwidth.value)
  {
    hide RefreshStep;
    RefreshedSlots(s);
  }

  lemma BytesStay(cfg: Config, s: State, a: Action, s': State)
    requires a.BySession() && Next(cfg, s, a) == Some(s')
    ensures !a.AddBytes? ==>
              || (s'.bytes, s'.ledger.added, s'.ledger.baseBytes) == (s.bytes, s.ledger.added, s.ledger.baseBytes)
              || (s'.bytes, s'.ledger.added, s'.ledger.baseBytes) == (0, 0, 0)
  {
    hide GetDirection, PutDirection;
  }

  lemma StepKeepsBytes(cfg: Config, s: State, a: Action, s': State)
    requires a.BySession() && Inv(cfg, s) && Next(cfg, s, a) == Some(s')
    requires cfg.bandwidth.Some? && Ceiling(cfg) < U64
    ensures BytesInv(cfg, s')
  {
    SlotChanges(cfg, s, a, s');
    if a.AddBytes? {
      AddBytesKeeps(cfg, s, a, s');
    } else {
      PotentialGrows(cfg, s, a, s');
      BytesStay(cfg, s, a, s');
    }
  }

  lemma AddBytesEffect(cfg: Config, s: State, a: Action, s': State)
    requires a.AddBytes? && Next(cfg, s, a) == Some(s')
    ensures cfg.bandwidth.Some? && s.sessions[a.i].Splicing? && GetDirection(s.sessions[a.i], a.up).Accounting?
    ensures s'.sessions[a.i] ==
      PutDirection(s.sessions[a.i], a.up, AfterAdding(cfg, s'.bytes > cfg.bandwidth.value))
    ensures var n := GetDirection(s.sessions[a.i], a.up).n;
      && s'.bytes == (s.bytes + n) % U64 && s'.ledger.added == s.ledger.added + n
      && s'.ledger.baseBytes == s.ledger.baseBytes
  {
  }

  lemma AddBytesKeeps(cfg: Config, s: State, a: Action, s': State)
    requires a.AddBytes? && Inv(cfg, s) && Next(cfg, s, a) == Some(s')
    requires cfg.bandwidth.Some? && Ceiling(cfg) < U64
    ensures BytesInv(cfg, s')
    ensures s'.bytes == s.bytes + GetDirection(s.sessions[a.i], a.up).n
  {
    hide Next, SumSeq, Potential, AfterAdding, Bounded;
    SlotReplaced(cfg, s, a, s');
    var x := s.sessions[a.i];
    SlotChanges(cfg, s, a, s');
    AddBytesEffect(cfg, s, a, s');
    assert x in s.sessions;
    EndingUsesPotential(cfg, x, a.up);
    PotentialBounds(s, a.i);
    assert s.bytes + GetDirection(x, a.up).n <= Ceiling(cfg);
  }

  /** A direction that accounts a chunk has room for it, and gives the room up when it ends. */
  lemma EndingUsesPotential(cfg: Config, x: Session, up: bool)
    requires x.Splicing? && GetDirection(x, up).Accounting? && Bounded(x)
    ensures GetDirection(x, up).n <= CHUNK <= Potential(x)
    ensures Potential(PutDirection(x, up, AfterAdding(cfg, true))) == Potential(x) - CHUNK
    ensures Potential(PutDirection(x, up, AfterAdding(cfg, false))) == Potential(x)
  {
  }

  lemma PotentialBounds(s: State, i: nat)
    requires i < |s.sessions|
    ensures Potential(s.sessions[i]) <= SumSeq(s.sessions, Potential) <= 2 * CHUNK * |s.sessions|
  {
    SumBounded(s.sessions, Potential, 2 * CHUNK);
    SumUpdate(s.sessions, i, Vacant, Potential);
  }

  lemma StepKeepsConnections(cfg: Config, s: State, a: Action, s': State)
    requires ConnectionsInv(cfg, s) && Next(cfg, s, a) == Some(s')
    ensures ConnectionsInv(cfg, s')
  {
    if a.BySession() {
      SessionBooks(cfg, s, a, s');
    } else {
      OthersBooks(cfg, s, a, s');
    }
    hide Next;
  }

  /** The connection counter with its base and the admissions since it was zeroed. */
  function Books(s: State): (nat, nat, nat) {
    (s.connections, s.ledger.baseConnections, s.ledger.admitted)
  }

  lemma SessionBooks(cfg: Config, s: State, a: Action, s': State)
    requires a.BySession() && Next(cfg, s, a) == Some(s')
    ensures || Books(s') == Books(s)
            || Books(s') == (0, 0, 0)
            || (&& cfg.connections.Some? && s.connections < cfg.connections.value
                && Books(s') == (s.connections + 1, s.ledger.baseConnections, s.ledger.admitted + 1))
  {
    hide GetDirection, PutDirection;
  }

  lemma OthersBooks(cfg: Config, s: State, a: Action, s': State)
    requires !a.BySession() && Next(cfg, s, a) == Some(s')
    ensures Books(s') == Books(s) || Books(s') == (0, 0, 0)
  {
    hide RefreshStep;
    if a.SaveRefresh? && GetSaver(s, a.last).Refreshing? {
      RefreshEffects(s, GetSaver(s, a.last).refresh);
    }
  }

  lemma StepKeepsInv(cfg: Config, s: State, a: Action, s': State)
    requires Inv(cfg, s) && Next(cfg, s, a) == Some(s')
    requires cfg.bandwidth.Some? ==> Ceiling(cfg) < U64
    ensures Inv(cfg, s')
  {
    StepKeepsConnections(cfg, s, a, s');
    if a.BySession() {
      SlotChanges(cfg, s, a, s');
      if cfg.bandwidth.Some? {
        StepKeepsBytes(cfg, s, a, s');
      }
    } else {
      OthersLeaveSessions(cfg, s, a, s');
    }
  }

  /** The clock, other domains and the savers leave the sessions alone, and zero the bytes or leave them too. */
  lemma OthersLeaveSessions(cfg: Config, s: State, a: Action, s': State)
    requires !a.BySession() && Next(cfg, s, a) == Some(s')
    ensures s'.sessions == s.sessions && s'.ledger.spliced == s.ledger.spliced
    ensures s'.ledger.byRead == s.ledger.byRead && s'.ledger.byClock == s.ledger.byClock
    ensures || (s'.bytes, s'.ledger.added, s'.ledger.baseBytes) == (s.bytes, s.ledger.added, s.ledger.baseBytes)
            || (s'.bytes, s'.ledger.added, s'.ledger.baseBytes) == (0, 0, 0)
  {
    hide RefreshStep;
    if a.SaveRefresh? && GetSaver(s, a.last).Refreshing? {
      RefreshEffects(s, GetSaver(s, a.last).refresh);
    }
  }

  /** A step of a refresh touches the day and the counters only, and these only to zero them. */
  lemma RefreshEffects(s: State, r: Refresh)
    ensures var s' := RefreshStep(s, r).0;
      && s' == s.(day := s'.day, bytes := s'.bytes, connections := s'.connections, ledger := s'.ledger)
      && s'.ledger.spliced == s.ledger.spliced
      && s'.ledger.byRead == s.ledger.byRead && s'.ledger.byClock == s.ledger.byClock
      && (Books(s') == Books(s) || Books(s') == (0, 0, 0))
      && (|| (s'.bytes, s'.ledger.added, s'.ledger.baseBytes) == (s.bytes, s.ledger.added, s.ledger.baseBytes)
          || (s'.bytes, s'.ledger.added, s'.ledger.baseBytes) == (0, 0, 0))
  {
  }

  /** What every allowed action keeps holds at the end of every run of allowed actions. */
  lemma {:induction false} RunKeeps(cfg: Config, s: State, actions: seq<Action>, allowed: Action -> bool, p: State -> bool)
    requires p(s) && forall a | a in actions :: allowed(a)
    requires forall s, a, s' | p(s) && allowed(a) && Next(cfg, s, a) == Some(s') :: p(s')
    ensures Run(cfg, s, actions).Some? ==> p(Run(cfg, s, actions).value)
    decreases actions
  {
    hide Next;
    if actions != [] && Next(cfg, s, actions[0]).Some? {
      RunKeeps(cfg, Next(cfg, s, actions[0]).value, actions[1..], allowed, p);
    }
  }

  // --------------------------------------------------------------- a fixed day

  ghost predicate SameDay(actions: seq<Action>, day: nat) {
    forall a | a in actions :: a.Tick? ==> a.now == day
  }

  /** A refresh that sees the counters as today's, so zeroes nothing. */
  predicate Calm(r: Refresh, day: nat) {
    r == ReadClock || r == LoadDay(day) || r.Fresh?
  }

  predicate CalmDirection(d: Direction, day: nat) {
    d.Accounting? ==> Calm(d.refresh, day)
  }

  predicate CalmSession(x: Session, day: nat) {
    match x
    case Checking(r) => Calm(r, day)
    case Splicing(up, down) => CalmDirection(up, day) && CalmDirection(down, day)
    case _ => true
  }

  predicate CalmSaver(v: Saver, day: nat) {
    v.Refreshing? ==> Calm(v.refresh, day)
  }

  ghost predicate CalmSavers(s: State) {
    CalmSaver(s.flusher, s.clock) && CalmSaver(s.closer, s.clock)
  }

  /** Every byte written on the day is in the counter or waits in one direction. */
  ghost predicate DayInv(cfg: Config, s: State) {
    && Inv(cfg, s)
    && s.day == s.clock && CalmSavers(s)
    && (forall x | x in s.sessions :: CalmSession(x, s.clock))
    && cfg.restoredBytes + s.ledger.spliced == s.bytes + SumSeq(s.sessions, Pending)
  }

  lemma CalmRefresh(s: State, r: Refresh)
    ensures s.day == s.clock && Calm(r, s.clock) ==> RefreshStep(s, r).0 == s && Calm(RefreshStep(s, r).1, s.clock)
  {
  }

  lemma CalmStep(cfg: Config, s: State, a: Action, s': State)
    requires a.BySession() && Next(cfg, s, a) == Some(s') && s.day == s.clock
    requires CalmSession(s.sessions[a.i], s.clock)
    ensures s'.day == s.day && s'.clock == s.clock && CalmSession(s'.sessions[a.i], s.clock)
    ensures s'.sessions == s.sessions[a.i := s'.sessions[a.i]]
    ensures s'.flusher == s.flusher && s'.closer == s.closer
  {
    hide RefreshStep;
    var x := s.sessions[a.i];
    if a.CheckRefresh? && x.Checking? {
      CalmRefresh(s, x.refresh);
    } else if a.AccountRefresh? && x.Splicing? && GetDirection(x, a.up).Accounting? {
      CalmRefresh(s, GetDirection(x, a.up).refresh);
    }
  }

  lemma CalmOther(cfg: Config, s: State, a: Action, s': State)
    requires !a.BySession() && Next(cfg, s, a) == Some(s') && s.day == s.clock && CalmSavers(s)
    requires a.Tick? ==> a.now == s.clock
    ensures s'.day == s.day && s'.clock == s.clock && CalmSavers(s')
    ensures s'.bytes == s.bytes && s'.sessions == s.sessions && s'.ledger == s.ledger
  {
  }

  /** Copying a chunk and accounting it move it between the three totals. */
  lemma ChunkMoves(cfg: Config, s: State, a: Action, s': State)
    requires a.BySession() && Next(cfg, s, a) == Some(s') && cfg.bandwidth.Some? && s.day == s.clock
    requires CalmSession(s.sessions[a.i], s.clock)
    requires a.AddBytes? ==> s'.bytes == s.bytes + GetDirection(s.sessions[a.i], a.up).n
    ensures a.i < |s.sessions| == |s'.sessions|
    ensures s'.ledger.spliced - s.ledger.spliced ==
            s'.bytes - s.bytes + Pending(s'.sessions[a.i]) - Pending(s.sessions[a.i])
  {
    SlotReplaced(cfg, s, a, s');
    if a.AddBytes? {
      AddBytesEffect(cfg, s, a, s');
    } else if !a.Copy? {
      NothingMoves(cfg, s, a, s');
      hide Next;
    }
  }

  lemma NothingMoves(cfg: Config, s: State, a: Action, s': State)
    requires a.BySession() && !a.AddBytes? && !a.Copy? && Next(cfg, s, a) == Some(s') && s.day == s.clock
    requires CalmSession(s.sessions[a.i], s.clock)
    ensures |s'.sessions| == |s.sessions|
    ensures s'.ledger.spliced == s.ledger.spliced && s'.bytes == s.bytes
    ensures Pending(s'.sessions[a.i]) == Pending(s.sessions[a.i])
  {
    hide RefreshStep;
    var x := s.sessions[a.i];
    if a.CheckRefresh? && x.Checking? {
      CalmRefresh(s, x.refresh);
    } else if a.AccountRefresh? && x.Splicing? && GetDirection(x, a.up).Accounting? {
      CalmRefresh(s, GetDirection(x, a.up).refresh);
    }
  }

  lemma StepKeepsDayInv(cfg: Config, s: State, a: Action, s': State)
    requires DayInv(cfg, s) && Next(cfg, s, a) == Some(s') && (a.Tick? ==> a.now == s.clock)
    requires cfg.bandwidth.Some? && Ceiling(cfg) < U64
    ensures DayInv(cfg, s') && s'.clock == s.clock
  {
    hide Next, SumSeq, BytesInv, ConnectionsInv, Potential, Pending, Calm;
    StepKeepsInv(cfg, s, a, s');
    if a.BySession() {
      SlotReplaced(cfg, s, a, s');
      assert s.sessions[a.i] in s.sessions;
      CalmStep(cfg, s, a, s');
      if a.AddBytes? {
        AddBytesKeeps(cfg, s, a, s');
      }
      ChunkMoves(cfg, s, a, s');
      SlotChanges(cfg, s, a, s');
    } else {
      CalmOther(cfg, s, a, s');
    }
  }

  /** Bytes in flight only add to a counter that has room for them below the ceiling. */
  lemma PendingFits(cfg: Config, s: State)
    requires Inv(cfg, s) && cfg.bandwidth.Some?
    ensures s.bytes + SumSeq(s.sessions, Pending) <= Ceiling(cfg)
  {
    forall x | x in s.sessions
      ensures Pending(x) <= Potential(x) <= 2 * CHUNK
    {
      assert Bounded(x);
    }
    SumMonotone(s.sessions, Pending, Potential);
    SumBounded(s.sessions, Potential, 2 * CHUNK);
  }

  // ------------------------------------------------------------- main theorems

  /** The bytes written for the domain, with the usage restored at the start, are within the ceiling. */
  ghost predicate WithinCeiling(cfg: Config, day: nat, actions: seq<Action>)
    requires cfg.bandwidth.Some?
  {
    var r := Run(cfg, Init(cfg, day), actions);
    r.Some? ==> cfg.restoredBytes + r.value.ledger.spliced <= Ceiling(cfg)
  }

  /** Nothing can be spliced at all, or the ceiling fits the 64-bit counter. */
  predicate Enforceable(cfg: Config)
    requires cfg.bandwidth.Some?
  {
    cfg.restoredBytes >= cfg.bandwidth.value || cfg.slots == 0 || Ceiling(cfg) < 0x1_0000_0000_0000_0000
  }

  /**
   Bounded overshoot: on a fixed day, however the sessions interleave, the bytes written
   for the domain, with the usage restored at the start, stay within the limit (or the
   restored usage) plus two chunks for every connection slot.
   */
  lemma BoundedOvershoot(cfg: Config, day: nat, actions: seq<Action>)
    requires SameDay(actions, day)
    requires cfg.bandwidth.Some? && Enforceable(cfg)
    ensures WithinCeiling(cfg, day, actions)
  {
    var s := Init(cfg, day);
    var allowed := (a: Action) => a.Tick? ==> a.now == day;
    InitInv(cfg, day);
    assert forall x | x in s.sessions :: CalmSession(x, day);
    if Ceiling(cfg) < U64 {
      var p := s => DayInv(cfg, s) && s.clock == day;
      forall s, a, s' | p(s) && allowed(a) && Next(cfg, s, a) == Some(s')
        ensures p(s')
      {
        StepKeepsDayInv(cfg, s, a, s');
      }
      hide Next, DayInv, Shut;
      RunKeeps(cfg, s, actions, allowed, p);
      DayFits(cfg, day, actions);
    } else {
      var p := s => Shut(cfg, s) && s.clock == day;
      forall s, a, s' | p(s) && allowed(a) && Next(cfg, s, a) == Some(s')
        ensures p(s')
      {
        StepStaysShut(cfg, s, a);
      }
      RunKeeps(cfg, s, actions, allowed, p);
    }
  }

  lemma DayFits(cfg: Config, day: nat, actions: seq<Action>)
    requires cfg.bandwidth.Some?
    ensures var r := Run(cfg, Init(cfg, day), actions);
      r.Some? && DayInv(cfg, r.value) ==> WithinCeiling(cfg, day, actions)
  {
    var r := Run(cfg, Init(cfg, day), actions);
    if r.Some? && DayInv(cfg, r.value) {
      PendingFits(cfg, r.value);
    }
  }

  /** With the limit used up at the start no session gets past the check on that day. */
  ghost predicate Shut(cfg: Config, s: State) {
    && cfg.bandwidth.Some? && s.day == s.clock && CalmSavers(s) && s.ledger.spliced == 0
    && (s.bytes >= cfg.bandwidth.value || |s.sessions| == 0)
    && forall x | x in s.sessions :: x.Vacant? || (x.Checking? && Calm(x.refresh, s.clock))
  }

  lemma StepStaysShut(cfg: Config, s: State, a: Action)
    requires Shut(cfg, s) && (a.Tick? ==> a.now == s.clock)
    ensures forall s' :: Next(cfg, s, a) == Some(s') ==> Shut(cfg, s') && s'.clock == s.clock
  {
    if Next(cfg, s, a).Some? {
      var s' := Next(cfg, s, a).value;
      if a.BySession() {
        var x := s.sessions[a.i];
        assert x in s.sessions;
        var y := s'.sessions[a.i];
        assert s'.sessions == s.sessions[a.i := y];
      } else {
        CalmOther(cfg, s, a, s');
      }
      assert Shut(cfg, s') && s'.clock == s.clock;
    }
  }

  /**
   Whatever the clock does, the bytes accounted since the counter was last zeroed obey the
   same ceiling, and the counter shows exactly them: no wrap-around, no lost update.
   */
  lemma BytesBetweenZeroings(cfg: Config, clock: nat, actions: seq<Action>)
    requires cfg.bandwidth.Some? && Ceiling(cfg) < U64
    ensures var r := Run(cfg, Init(cfg, clock), actions);
            r.Some? ==>
              && r.value.bytes == r.value.ledger.baseBytes + r.value.ledger.added
              && r.value.bytes <= Ceiling(cfg)
  {
    InitInv(cfg, clock);
    var p := s => Inv(cfg, s);
    forall s, a, s' | p(s) && Next(cfg, s, a) == Some(s')
      ensures p(s')
    {
      StepKeepsInv(cfg, s, a, s');
    }
    RunKeeps(cfg, Init(cfg, clock), actions, _ => true, p);
    var r := Run(cfg, Init(cfg, clock), actions);
    if r.Some? {
      PendingFits(cfg, r.value);
    }
  }

  /**
   Admission safety: in every interleaving, the sessions admitted since the connection
   counter was last zeroed are exactly its increase, and never take it over the limit.
   (Which day those admissions fall on is the subject of DomainQuotaDays.)
   */
  lemma AdmissionSafety(cfg: Config, clock: nat, actions: seq<Action>, limit: nat)
    requires cfg.connections == Some(limit)
    ensures var r := Run(cfg, Init(cfg, clock), actions);
            r.Some? ==>
              var l := r.value.ledger;
              && r.value.connections == l.baseConnections + l.admitted
              && (l.admitted > 0 ==> l.baseConnections + l.admitted <= limit)
  {
    var p := s => ConnectionsInv(cfg, s);
    forall s, a, s' | p(s) && Next(cfg, s, a) == Some(s')
      ensures p(s')
    {
      StepKeepsConnections(cfg, s, a, s');
    }
    RunKeeps(cfg, Init(cfg, clock), actions, _ => true, p);
  }
}
