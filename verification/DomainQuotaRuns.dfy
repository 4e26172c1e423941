/**
 Runs built on purpose: when the ceiling of a bandwidth limit does not fit the 64-bit
 counter, the counter can be driven round, and nothing bounds the bytes of a day.
 */
module DomainQuotaRuns {
  import opened Wrappers
  import opened DomainQuota

  // --------------------------------------------------------------- putting runs together

  predicate TickFree(actions: seq<Action>) {
    forall a | a in actions :: !a.Tick?
  }

  /** Some run without a tick of the clock leads from one state to the other. */
  ghost predicate Reaches(cfg: Config, s: State, t: State) {
    exists actions :: TickFree(actions) && Run(cfg, s, actions) == Some(t)
  }

  lemma {:induction false} RunAppend(cfg: Config, s: State, a: seq<Action>, b: seq<Action>)
    ensures Run(cfg, s, a + b) ==
            match Run(cfg, s, a) case None => None case Some(s') => Run(cfg, s', b)
    decreases a
  {
    if a == [] {
      assert a + b == b;
    } else {
      assert (a + b)[1..] == a[1..] + b;
      if Next(cfg, s, a[0]).Some? {
        RunAppend(cfg, Next(cfg, s, a[0]).value, a[1..], b);
      }
    }
  }

  lemma Taken(cfg: Config, s: State, actions: seq<Action>, states: seq<State>)
    requires |states| == |actions| + 1 && states[0] == s
    requires forall k | 0 <= k < |actions| :: Next(cfg, states[k], actions[k]) == Some(states[k + 1])
    ensures Run(cfg, s, actions) == Some(states[|actions|])
    decreases actions
  {
    if actions != [] {
      Taken(cfg, states[1], actions[1..], states[1..]);
    }
  }

  lemma Steps(cfg: Config, s: State, actions: seq<Action>, states: seq<State>)
    requires |states| == |actions| + 1 && states[0] == s && TickFree(actions)
    requires forall k | 0 <= k < |actions| :: Next(cfg, states[k], actions[k]) == Some(states[k + 1])
    ensures Reaches(cfg, s, states[|actions|])
  {
    Taken(cfg, s, actions, states);
  }

  lemma Stays(cfg: Config, s: State)
    ensures Reaches(cfg, s, s)
  {
    assert TickFree([]) && Run(cfg, s, []) == Some(s);
  }

  lemma Onwards(cfg: Config, s: State, t: State, u: State)
    requires Reaches(cfg, s, t) && Reaches(cfg, t, u)
    ensures Reaches(cfg, s, u)
  {
    var a :| TickFree(a) && Run(cfg, s, a) == Some(t);
    var b :| TickFree(b) && Run(cfg, t, b) == Some(u);
    RunAppend(cfg, s, a, b);
    assert TickFree(a + b);
  }

  // ------------------------------------------------------------------- single sessions

  const OPEN: Session := Splicing(Copying, Copying)

  /** Only the bandwidth is limited, and the counters are of today. */
  ghost predicate Ready(cfg: Config, s: State) {
    cfg.bandwidth.Some? && cfg.connections.None? && cfg.bandwidth.value < U64 && s.day == s.clock
  }

  lemma OpenSlot(cfg: Config, s: State, i: nat)
    requires Ready(cfg, s) && s.bytes < cfg.bandwidth.value
    requires i < |s.sessions| && s.sessions[i] == Vacant
    ensures Reaches(cfg, s, Put(s, i, OPEN))
  {
    var s1 := Put(s, i, Checking(ReadClock));
    var s2 := Put(s1, i, Checking(LoadDay(s.clock)));
    var s3 := Put(s2, i, Checking(Fresh(s.clock)));
    var s4 := Put(s3, i, Admitted);
    var t := Put(s4, i, OPEN);
    Steps(cfg, s, [Arrive(i), CheckRefresh(i), CheckRefresh(i), CheckBytes(i), Connect(i)], [s, s1, s2, s3, s4, t]);
    assert t.sessions == s.sessions[i := OPEN];
  }

  /** The state after a direction has accounted `n` bytes. */
  function AfterChunk(cfg: Config, s: State, i: nat, up: bool, n: nat): State
    requires cfg.bandwidth.Some? && i < |s.sessions| && s.sessions[i].Splicing?
  {
    var used := Used(s, n);
    Put(s, i, PutDirection(s.sessions[i], up, if used > cfg.bandwidth.value then Ended else Copying)).(
      bytes := used, dirty := s.dirty || cfg.persistent, ledger := s.ledger.(added := s.ledger.added + n))
  }

  /** The counter after adding `n`. */
  function Used(s: State, n: nat): nat {
    (s.bytes + n) % U64
  }

  lemma SameUsed(s: State, t: State, n: nat)
    ensures s.bytes == t.bytes ==> Used(s, n) == Used(t, n)
  {
  }

  /** One direction copies a chunk and accounts it. */
  lemma PassChunk(cfg: Config, s: State, i: nat, up: bool, n: nat) returns (t: State)
    requires Ready(cfg, s) && 1 <= n <= CHUNK
    requires i < |s.sessions| && s.sessions[i].Splicing? && GetDirection(s.sessions[i], up) == Copying
    ensures Reaches(cfg, s, t) && t == AfterChunk(cfg, s, i, up, n).(ledger := t.ledger)
    ensures t.ledger.spliced == s.ledger.spliced + n
  {
    hide Reaches, Run, Next, Used;
    CopyChunk(cfg, s, i, up, n);
    var s1 := Copied(s, i, up, n);
    SetTwice(s.sessions[i], up, Accounting(n, Fresh(s.clock)), if Used(s, n) > cfg.bandwidth.value then Ended else Copying);
    hide PutDirection, GetDirection;
    SameUsed(s1, s, n);
    AddChunk(cfg, s1, i, up, n);
    t := AfterChunk(cfg, s1, i, up, n);
    Onwards(cfg, s, s1, t);
    assert t.sessions == s.sessions[i := t.sessions[i]];
  }

  /** The state when a direction is about to account `n` bytes it has copied. */
  function Copied(s: State, i: nat, up: bool, n: nat): State
    requires i < |s.sessions| && s.sessions[i].Splicing?
  {
    Put(s, i, PutDirection(s.sessions[i], up, Accounting(n, Fresh(s.clock)))).(ledger := s.ledger.(spliced := s.ledger.spliced + n))
  }

  lemma CopyChunk(cfg: Config, s: State, i: nat, up: bool, n: nat)
    requires Ready(cfg, s) && 1 <= n <= CHUNK
    requires i < |s.sessions| && s.sessions[i].Splicing? && GetDirection(s.sessions[i], up) == Copying
    ensures Reaches(cfg, s, Copied(s, i, up, n))
  {
    var x := s.sessions[i];
    var l := s.ledger.(spliced := s.ledger.spliced + n);
    var s1 := Put(s.(ledger := l), i, PutDirection(x, up, Accounting(n, ReadClock)));
    var s2 := Put(s1, i, PutDirection(x, up, Accounting(n, LoadDay(s.clock))));
    var t := Put(s2, i, PutDirection(x, up, Accounting(n, Fresh(s.clock))));
    Steps(cfg, s, [Copy(i, up, n), AccountRefresh(i, up), AccountRefresh(i, up)], [s, s1, s2, t]);
    assert t.sessions == s.sessions[i := PutDirection(x, up, Accounting(n, Fresh(s.clock)))];
  }

  lemma AddChunk(cfg: Config, s: State, i: nat, up: bool, n: nat)
    requires Ready(cfg, s) && i < |s.sessions| && s.sessions[i].Splicing?
    requires GetDirection(s.sessions[i], up) == Accounting(n, Fresh(s.clock))
    ensures Reaches(cfg, s, AfterChunk(cfg, s, i, up, n))
  {
    var x := s.sessions[i];
    var over := Used(s, n) > cfg.bandwidth.value;
    var added := s.(bytes := Used(s, n), ledger := s.ledger.(added := s.ledger.added + n));
    var s1 := Put(added, i, PutDirection(x, up, AfterAdding(cfg, over)));
    Steps(cfg, s, [AddBytes(i, up)], [s, s1]);
    hide Reaches, Run, Next, Used;
    if cfg.persistent {
      var next: Direction := if over then Ended else Copying;
      SetTwice(x, up, Marking(over), next);
      hide PutDirection, GetDirection;
      MarkChunk(cfg, s1, i, up, next);
      var t := Put(s1, i, PutDirection(s1.sessions[i], up, next)).(dirty := true);
      Onwards(cfg, s, s1, t);
      assert t.sessions == s.sessions[i := PutDirection(x, up, next)];
    }
  }

  lemma SetTwice(x: Session, up: bool, d: Direction, e: Direction)
    ensures x.Splicing? ==> PutDirection(PutDirection(x, up, d), up, e) == PutDirection(x, up, e)
    ensures x.Splicing? ==> GetDirection(PutDirection(x, up, d), up) == d
  {
  }

  lemma MarkChunk(cfg: Config, s: State, i: nat, up: bool, next: Direction)
    requires i < |s.sessions| && s.sessions[i].Splicing? && GetDirection(s.sessions[i], up).Marking?
    requires next == if GetDirection(s.sessions[i], up).over then Ended else Copying
    ensures Reaches(cfg, s, Put(s, i, PutDirection(s.sessions[i], up, next)).(dirty := true))
  {
    var t := Put(s.(dirty := true), i, PutDirection(s.sessions[i], up, next));
    Steps(cfg, s, [MarkBytes(i, up)], [s, t]);
  }

  predicate Idle(x: Session) {
    x.Splicing? && (x.up == Copying || x.up == Ended) && (x.down == Copying || x.down == Ended)
  }

  lemma CloseDirection(cfg: Config, s: State, i: nat, up: bool)
    requires i < |s.sessions| && Idle(s.sessions[i])
    ensures Reaches(cfg, s, Put(s, i, PutDirection(s.sessions[i], up, Ended)))
  {
    var x := s.sessions[i];
    var t := Put(s, i, PutDirection(x, up, Ended));
    if GetDirection(x, up) == Ended {
      assert t.sessions == s.sessions;
      Stays(cfg, s);
    } else {
      Steps(cfg, s, [EndDirection(i, up)], [s, t]);
    }
  }

  lemma CloseSlot(cfg: Config, s: State, i: nat)
    requires i < |s.sessions| && Idle(s.sessions[i])
    ensures Reaches(cfg, s, Put(s, i, Vacant))
  {
    CloseDirection(cfg, s, i, true);
    var s1 := Put(s, i, PutDirection(s.sessions[i], true, Ended));
    CloseDirection(cfg, s1, i, false);
    var s2 := Put(s1, i, PutDirection(s1.sessions[i], false, Ended));
    assert s2.sessions[i] == Splicing(Ended, Ended);
    var t := Put(s2, i, Vacant);
    Steps(cfg, s2, [Leave(i)], [s2, t]);
    hide Reaches, Run;
    Onwards(cfg, s, s1, s2);
    Onwards(cfg, s, s2, t);
    assert t.sessions == s.sessions[i := Vacant];
  }

  // --------------------------------------------------------------------- all of them

  ghost predicate AllVacant(s: State) {
    forall x | x in s.sessions :: x == Vacant
  }

  function Everywhere(s: State, x: Session): (t: State)
    ensures |t.sessions| == |s.sessions| && forall y | y in t.sessions :: y == x
  {
    s.(sessions := seq(|s.sessions|, _ => x))
  }

  lemma {:induction false} OpenAll(cfg: Config, s: State, k: nat)
    requires Ready(cfg, s) && s.bytes < cfg.bandwidth.value && k <= |s.sessions|
    requires (forall i | 0 <= i < k :: s.sessions[i] == OPEN) && forall i | k <= i < |s.sessions| :: s.sessions[i] == Vacant
    ensures Reaches(cfg, s, Everywhere(s, OPEN))
    decreases |s.sessions| - k
  {
    hide Reaches, Run, Next;
    if k == |s.sessions| {
      assert s == Everywhere(s, OPEN);
      Stays(cfg, s);
    } else {
      OpenSlot(cfg, s, k);
      var s1 := Put(s, k, OPEN);
      OpenAll(cfg, s1, k + 1);
      Onwards(cfg, s, s1, Everywhere(s, OPEN));
    }
  }

  lemma {:induction false} CloseAll(cfg: Config, s: State, k: nat)
    requires k <= |s.sessions|
    requires (forall i | 0 <= i < k :: s.sessions[i] == Vacant) && forall i | k <= i < |s.sessions| :: Idle(s.sessions[i])
    ensures Reaches(cfg, s, Everywhere(s, Vacant))
    decreases |s.sessions| - k
  {
    hide Reaches, Run, Next;
    if k == |s.sessions| {
      assert s == Everywhere(s, Vacant);
      Stays(cfg, s);
    } else {
      CloseSlot(cfg, s, k);
      var s1 := Put(s, k, Vacant);
      CloseAll(cfg, s1, k + 1);
      Onwards(cfg, s, s1, Everywhere(s, Vacant));
    }
  }

  /** One direction copies until the counter stands at the limit. */
  lemma {:induction false} Fill(cfg: Config, s: State) returns (t: State)
    requires Ready(cfg, s) && s.bytes <= cfg.bandwidth.value
    requires |s.sessions| > 0 && s.sessions[0] == OPEN
    ensures Reaches(cfg, s, t) && t == s.(bytes := cfg.bandwidth.value, ledger := t.ledger, dirty := t.dirty)
    ensures t.ledger.spliced == s.ledger.spliced + (t.bytes - s.bytes)
    decreases cfg.bandwidth.value - s.bytes
  {
    hide Reaches, Run, Next;
    var gap := cfg.bandwidth.value - s.bytes;
    if gap == 0 {
      t := s;
      Stays(cfg, s);
    } else {
      var s1 := PassChunk(cfg, s, 0, true, if gap < CHUNK then gap else CHUNK);
      assert s1.sessions == s.sessions;
      t := Fill(cfg, s1);
      Onwards(cfg, s, s1, t);
    }
  }

  /** The directions in order are those of slot 0, then those of slot 1, and so on; the `j`th is copying. */
  predicate CopyingAt(s: State, j: nat) {
    j / 2 < |s.sessions| && s.sessions[j / 2].Splicing? && GetDirection(s.sessions[j / 2], j % 2 == 0) == Copying
  }

  /** The first `k` directions have ended above the limit, the others are still copying. */
  ghost predicate Overshooting(cfg: Config, s: State, k: nat) {
    && Ready(cfg, s) && s.bytes == cfg.bandwidth.value + k * CHUNK < U64
    && cfg.bandwidth.value + 2 * |s.sessions| * CHUNK >= U64
    && (forall x | x in s.sessions :: Idle(x))
    && forall j | k <= j < 2 * |s.sessions| :: CopyingAt(s, j)
  }

  lemma RoomForMore(limit: nat, n: nat, k: nat)
    requires limit + k * CHUNK < U64 <= limit + 2 * n * CHUNK
    ensures k < 2 * n
  {
    assert (k - 2 * n) * CHUNK == k * CHUNK - 2 * n * CHUNK;
  }

  /** Direction after direction adds its last chunk, until the counter is back at zero. */
  lemma {:induction false} WrapAround(cfg: Config, s: State, k: nat) returns (t: State)
    requires Overshooting(cfg, s, k)
    ensures Reaches(cfg, s, t) && t == s.(bytes := 0, sessions := t.sessions, ledger := t.ledger, dirty := t.dirty)
    ensures |t.sessions| == |s.sessions| && t.ledger.spliced == s.ledger.spliced + (U64 - s.bytes)
    ensures forall x | x in t.sessions :: Idle(x)
    decreases U64 - s.bytes
  {
    hide Reaches, Run, Next;
    var room := U64 - s.bytes;
    RoomForMore(cfg.bandwidth.value, |s.sessions|, k);
    var i, up := k / 2, k % 2 == 0;
    assert s.sessions[i] in s.sessions && CopyingAt(s, k);
    var n := if room < CHUNK then room else CHUNK;
    var s1 := PassChunk(cfg, s, i, up, n);
    forall x | x in s1.sessions
      ensures Idle(x)
    {
      assert x == s1.sessions[i] || x in s.sessions;
    }
    if n == room {
      t := s1;
    } else {
      forall j | k + 1 <= j < 2 * |s.sessions|
        ensures CopyingAt(s1, j)
      {
        assert CopyingAt(s, j);
        assert j / 2 == i ==> j % 2 != k % 2;
      }
      assert s1.bytes == cfg.bandwidth.value + (k + 1) * CHUNK;
      t := WrapAround(cfg, s1, k + 1);
      Onwards(cfg, s, s1, t);
    }
  }

  /** One round of the counter: open every slot, fill to the limit, overshoot to zero, close. */
  lemma Lap(cfg: Config, s: State) returns (t: State)
    requires Ready(cfg, s) && s.bytes < cfg.bandwidth.value && AllVacant(s)
    requires |s.sessions| > 0 && cfg.bandwidth.value + 2 * |s.sessions| * CHUNK >= U64
    ensures Reaches(cfg, s, t) && t == s.(bytes := 0, sessions := t.sessions, ledger := t.ledger, dirty := t.dirty)
    ensures AllVacant(t) && |t.sessions| == |s.sessions|
    ensures t.ledger.spliced == s.ledger.spliced + (U64 - s.bytes)
  {
    assert forall i | 0 <= i < |s.sessions| :: s.sessions[i] in s.sessions;
    OpenAll(cfg, s, 0);
    var s1 := Everywhere(s, OPEN);
    var s2 := Fill(cfg, s1);
    var s3 := WrapAround(cfg, s2, 0);
    CloseAll(cfg, s3, 0);
    t := Everywhere(s3, Vacant);
    Onwards(cfg, s, s1, s2);
    Onwards(cfg, s, s2, s3);
    Onwards(cfg, s, s3, t);
  }

  lemma {:induction false} Laps(cfg: Config, s: State, n: nat) returns (t: State)
    requires Ready(cfg, s) && s.bytes < cfg.bandwidth.value && AllVacant(s)
    requires |s.sessions| > 0 && cfg.bandwidth.value + 2 * |s.sessions| * CHUNK >= U64
    ensures Reaches(cfg, s, t) && t.ledger.spliced >= s.ledger.spliced + n
    decreases n
  {
    if n == 0 {
      t := s;
      Stays(cfg, s);
    } else {
      var s1 := Lap(cfg, s);
      t := Laps(cfg, s1, n - 1);
      Onwards(cfg, s, s1, t);
    }
  }

  // ------------------------------------------------------------------------ theorems

  /** Without an enforceable limit nothing bounds the bytes of a day. */
  lemma NoBoundAtAll(cfg: Config, day: nat, n: nat) returns (actions: seq<Action>)
    requires cfg.bandwidth.Some? && cfg.bandwidth.value < U64 && cfg.connections.None? && !Enforceable(cfg)
    ensures SameDay(actions, day)
    ensures var r := Run(cfg, Init(cfg, day), actions); r.Some? && r.value.ledger.spliced >= n
  {
    var s := Init(cfg, day);
    var t := Laps(cfg, s, n);
    actions :| TickFree(actions) && Run(cfg, s, actions) == Some(t);
  }

  /**
   For a domain with a bandwidth limit only, the ceiling holds in every run of a day if and
   only if the limit is used up at the start, there are no slots, or the ceiling fits the
   counter.
   */
  lemma OvershootExactly(cfg: Config, day: nat)
    requires cfg.bandwidth.Some? && cfg.bandwidth.value < U64 && cfg.connections.None?
    ensures (forall actions | SameDay(actions, day) :: WithinCeiling(cfg, day, actions)) <==> Enforceable(cfg)
  {
    if Enforceable(cfg) {
      forall actions | SameDay(actions, day)
        ensures WithinCeiling(cfg, day, actions)
      {
        BoundedOvershoot(cfg, day, actions);
      }
    } else {
      var actions := NoBoundAtAll(cfg, day, Ceiling(cfg) + 1);
      assert !WithinCeiling(cfg, day, actions);
    }
  }
}
