/** The batching loop in front of the traffic tables. */
module TrafficAggregator {
  import opened Traffic

  /** What the loop's select can yield; a flush happens on a given day and may fail to commit. */
  datatype Event =
    | Received(sample: Sample, day: string, commits: bool)
    | Tick(day: string, commits: bool)
    | Closed(day: string, commits: bool)

  datatype Flush = Flush(samples: seq<Sample>, day: string, ok: bool)

  datatype Loop = Loop(open: bool, buf: seq<Sample>, flushes: seq<Flush>) {
    function Flushed(day: string, commits: bool): Loop {
      if buf == [] then this else Loop(open, [], flushes + [Flush(buf, day, commits)])
    }

    function Next(e: Event): Loop {
      if !open then this
      else match e
        case Received(s, day, commits) =>
          var pushed := this.(buf := buf + [s]);
          if |pushed.buf| >= FLUSH_AT then pushed.Flushed(day, commits) else pushed
        case Tick(day, commits) => Flushed(day, commits)
        case Closed(day, commits) => Flushed(day, commits).(open := false)
    }
  }

  const Started: Loop := Loop(true, [], [])

  function Run(events: seq<Event>): Loop
    decreases |events|
  {
    if events == [] then Started else Run(events[..|events| - 1]).Next(events[|events| - 1])
  }

  /** The samples received before the channel closed. */
  function Accepted(events: seq<Event>): seq<Sample>
    decreases |events|
  {
    if events == [] then []
    else
      var init, e := events[..|events| - 1], events[|events| - 1];
      if e.Received? && Run(init).open then Accepted(init) + [e.sample] else Accepted(init)
  }

  function Samples(fs: seq<Flush>): seq<Sample>
    decreases |fs|
  {
    if fs == [] then [] else Samples(fs[..|fs| - 1]) + fs[|fs| - 1].samples
  }

  /** What the committed flushes recorded. */
  function Recorded(fs: seq<Flush>): seq<Entry>
    decreases |fs|
  {
    if fs == [] then []
    else
      var f := fs[|fs| - 1];
      Recorded(fs[..|fs| - 1]) + (if f.ok then Dated(f.day, f.samples) else [])
  }

  /** The loop's state on its own: a short buffer, and flushes that are neither empty nor long. */
  ghost predicate WellFormed(l: Loop) {
    && |l.buf| < 500
    && (!l.open ==> l.buf == [])
    && forall f | f in l.flushes :: 0 < |f.samples| <= 500
  }

  lemma NextConserves(l: Loop, e: Event)
    requires WellFormed(l)
    ensures WellFormed(l.Next(e))
    ensures Samples(l.Next(e).flushes) + l.Next(e).buf ==
      Samples(l.flushes) + l.buf + (if e.Received? && l.open then [e.sample] else [])
  {
  }

  /** A batch goes out with its five hundredth sample, on a tick and at the end, and never empty. */
  lemma FlushesWhen(l: Loop, e: Event)
    requires WellFormed(l) && l.open
    ensures var l' := l.Next(e);
            && l'.open == !e.Closed?
            && if (if e.Received? then |l.buf| == 499 else l.buf != [])
               then l'.buf == [] && l'.flushes == l.flushes + [Flush(if e.Received? then l.buf + [e.sample] else l.buf, e.day, e.commits)]
               else l'.buf == (if e.Received? then l.buf + [e.sample] else l.buf) && l'.flushes == l.flushes
  {
  }

  /** Nothing is lost or repeated between the channel and the flushes: they cut the accepted samples into batches. */
  lemma {:induction false} BatchesCutTheStream(events: seq<Event>)
    ensures WellFormed(Run(events))
    ensures Samples(Run(events).flushes) + Run(events).buf == Accepted(events)
    decreases |events|
  {
    if events != [] {
      var init, e := events[..|events| - 1], events[|events| - 1];
      BatchesCutTheStream(init);
      hide Loop.Next;
      NextConserves(Run(init), e);
    }
  }

  lemma DatedConcat(day: string, a: seq<Sample>, b: seq<Sample>)
    ensures Dated(day, a + b) == Dated(day, a) + Dated(day, b)
  {
  }

  lemma {:induction false} SameDayRecorded(fs: seq<Flush>, day: string)
    requires forall f | f in fs :: f.ok && f.day == day
    ensures Recorded(fs) == Dated(day, Samples(fs))
    decreases |fs|
  {
    if fs != [] {
      var init, f := fs[..|fs| - 1], fs[|fs| - 1];
      assert fs == init + [f] && f in fs;
      assert forall g | g in init :: g in fs;
      SameDayRecorded(init, day);
      DatedConcat(day, Samples(init), f.samples);
      hide Dated;
    }
  }

  lemma {:induction false} FlushesFollow(events: seq<Event>, day: string)
    requires forall e | e in events :: e.commits && e.day == day
    ensures forall f | f in Run(events).flushes :: f.ok && f.day == day
    decreases |events|
  {
    if events != [] {
      var init := events[..|events| - 1];
      assert events == init + [events[|events| - 1]];
      FlushesFollow(init, day);
    }
  }

  /**
   On one day and without failed commits, once the loop has ended the tables are those of
   what they held before and the accepted samples: when and how these were flushed leaves
   no trace.
   */
  lemma ScheduleDoesNotMatter(before: seq<Entry>, events: seq<Event>, day: string)
    requires forall e | e in events :: e.commits && e.day == day
    ensures !Run(events).open ==>
      TablesOf(before + Recorded(Run(events).flushes)) == TablesOf(before + Dated(day, Accepted(events)))
  {
    BatchesCutTheStream(events);
    FlushesFollow(events, day);
    var l := Run(events);
    SameDayRecorded(l.flushes, day);
    if !l.open {
      assert Samples(l.flushes) + [] == Samples(l.flushes);
    }
  }

  /** So two runs that accepted the same samples, in any order, leave the same tables. */
  lemma SchedulesAgree(before: seq<Entry>, a: seq<Event>, b: seq<Event>, day: string)
    requires forall e | e in a + b :: e.commits && e.day == day
    requires !Run(a).open && !Run(b).open && multiset(Accepted(a)) == multiset(Accepted(b))
    ensures TablesOf(before + Recorded(Run(a).flushes)) == TablesOf(before + Recorded(Run(b).flushes))
  {
    hide *;
    assert forall e | e in a :: e in a + b;
    assert forall e | e in b :: e in a + b;
    ScheduleDoesNotMatter(before, a, day);
    ScheduleDoesNotMatter(before, b, day);
    DatedPermuted(day, Accepted(a), Accepted(b));
    var x, y := Dated(day, Accepted(a)), Dated(day, Accepted(b));
    assert multiset(before + x) == multiset(before + y);
    OrderDoesNotMatter(before + x, before + y);
  }

  lemma {:induction false} DatedPermuted(day: string, a: seq<Sample>, b: seq<Sample>)
    requires multiset(a) == multiset(b)
    ensures multiset(Dated(day, a)) == multiset(Dated(day, b))
    decreases |a|
  {
    hide Dated;
    if a == [] {
      assert |multiset(b)| == 0;
    } else {
      var init, s := a[..|a| - 1], a[|a| - 1];
      assert a == init + [s];
      assert s in multiset(b);
      var i :| 0 <= i < |b| && b[i] == s;
      var before, after := b[..i], b[i + 1..];
      assert b == before + [s] + after;
      SameWithout(init, s, before, after);
      DatedPermuted(day, init, before + after);
      DatedConcat(day, init, [s]);
      DatedConcat(day, before, after);
      DatedConcat(day, before + [s], after);
      DatedConcat(day, before, [s]);
    }
  }

  /** The samples of the batches that failed to commit. */
  function Lost(fs: seq<Flush>): seq<Sample>
    decreases |fs|
  {
    if fs == [] then []
    else Lost(fs[..|fs| - 1]) + (if fs[|fs| - 1].ok then [] else fs[|fs| - 1].samples)
  }

  function Undated(h: seq<Entry>): seq<Sample> {
    seq(|h|, i requires 0 <= i < |h| => h[i].sample)
  }

  lemma UndatedConcat(a: seq<Entry>, b: seq<Entry>)
    ensures Undated(a + b) == Undated(a) + Undated(b)
  {
  }

  lemma UndatedDated(day: string, samples: seq<Sample>)
    ensures Undated(Dated(day, samples)) == samples
  {
  }

  lemma {:induction false} FlushesAccounted(fs: seq<Flush>)
    ensures multiset(Undated(Recorded(fs))) + multiset(Lost(fs)) == multiset(Samples(fs))
    decreases |fs|
  {
    if fs != [] {
      var init, f := fs[..|fs| - 1], fs[|fs| - 1];
      FlushesAccounted(init);
      UndatedConcat(Recorded(init), Dated(f.day, f.samples));
      UndatedDated(f.day, f.samples);
      hide Undated;
      assert Recorded(init) + [] == Recorded(init);
      assert Lost(init) + [] == Lost(init);
    }
  }

  /** At every point each accepted sample is in exactly one place: recorded, lost with a failed batch, or buffered. */
  lemma SamplesConserved(events: seq<Event>)
    ensures var l := Run(events);
      multiset(Undated(Recorded(l.flushes))) + multiset(Lost(l.flushes)) + multiset(l.buf) == multiset(Accepted(events))
  {
    hide *;
    BatchesCutTheStream(events);
    FlushesAccounted(Run(events).flushes);
    assert multiset(Accepted(events)) == multiset(Samples(Run(events).flushes)) + multiset(Run(events).buf);
  }

  // ---------------------------------------------------------------- the program

  /** The statements of one transaction: each row goes into both tables. */
  method UpsertAll(byIp: map<IpKey, Row>, byDomain: map<DomainKey, Row>, rows: seq<Sample>, day: string, ghost h: seq<Entry>)
      returns (ips: map<IpKey, Row>, domains: map<DomainKey, Row>)
    requires Tables(byIp, byDomain) == TablesOf(h)
    ensures Tables(ips, domains) == TablesOf(h + Dated(day, rows))
  {
    hide TablesOf;
    ips, domains := byIp, byDomain;
    assert h + Dated(day, rows[..0]) == h;
    for i := 0 to |rows|
      invariant Tables(ips, domains) == TablesOf(h + Dated(day, rows[..i]))
    {
      var s := rows[i];
      var worth := Row(s.up, s.down, 1);
      var ipKey, domainKey := IpKey(day, s.ip), DomainKey(day, s.ip, s.domain);
      ips := ips[ipKey := if ipKey in ips then ips[ipKey].Plus(worth) else worth];
      domains := domains[domainKey := if domainKey in domains then domains[domainKey].Plus(worth) else worth];
      ghost var before := h + Dated(day, rows[..i]);
      TablesNext(before, Entry(day, s));
      assert h + Dated(day, rows[..i + 1]) == before + [Entry(day, s)];
    }
    assert rows[..|rows|] == rows;
  }

  class PanelDb {
    var byIp: map<IpKey, Row>
    var byDomain: map<DomainKey, Row>
    ghost var history: seq<Entry>

    ghost predicate Valid()
      reads this
    {
      Tables(byIp, byDomain) == TablesOf(history)
    }

    constructor ()
      ensures Valid() && history == []
    {
      byIp, byDomain, history := map[], map[], [];
    }

    /** Adds a batch to both tables in one transaction: all of it, or nothing if it does not commit. */
    method ApplyTrafficBatch(rows: seq<Sample>, day: string, commits: bool) returns (ok: bool)
      requires Valid()
      modifies this
      ensures Valid()
      ensures ok == (commits || rows == [])
      ensures history == old(history) + (if ok then Dated(day, rows) else [])
    {
      if rows == [] {
        assert Dated(day, rows) == [];
        return true;
      }
      var ips, domains := UpsertAll(byIp, byDomain, rows, day, history);
      if !commits {
        return false;
      }
      byIp, byDomain := ips, domains;
      history := history + Dated(day, rows);
      return true;
    }
  }

  lemma JoinEntries(a: seq<Entry>, b: seq<Entry>, c: seq<Entry>)
    ensures a + b + c == a + (b + c)
  {
  }

  class Aggregator {
    const db: PanelDb
    var buf: seq<Sample>
    ghost var flushes: seq<Flush>
    /** What the database held when the loop was started. */
    ghost const before: seq<Entry>

    ghost predicate Valid()
      reads this, db
    {
      db.Valid() && db.history == before + Recorded(flushes)
    }

    ghost function Value(open: bool): Loop
      reads this
    {
      Loop(open, buf, flushes)
    }

    constructor (db: PanelDb)
      requires db.Valid()
      ensures Valid() && Value(true) == Started && this.db == db && before == db.history
    {
      this.db := db;
      before := db.history;
      buf, flushes := [], [];
    }

    method FlushBuf(day: string, commits: bool)
      requires Valid()
      modifies this, db
      ensures Valid()
      ensures forall open :: Value(open) == old(Value(open)).Flushed(day, commits)
    {
      if buf == [] {
        return;
      }
      hide Recorded, Dated, TablesOf;
      var batch := buf;
      buf := [];
      JoinEntries(before, Recorded(flushes), if commits then Dated(day, batch) else []);
      var ok := db.ApplyTrafficBatch(batch, day, commits);
      flushes := flushes + [Flush(batch, day, commits)];
    }

    /** The loop over what select yields, until the channel closes or the events given run out. */
    method Serve(events: seq<Event>) returns (open: bool)
      requires Valid() && Value(true) == Started
      modifies this, db
      ensures Valid()
      ensures Value(open) == Run(events)
    {
      open := true;
      var i := 0;
      while i < |events| && open
        invariant 0 <= i <= |events|
        invariant Valid() && Value(open) == Run(events[..i])
      {
        assert events[..i + 1][..i] == events[..i];
        match events[i] {
          case Received(s, day, commits) =>
            buf := buf + [s];
            if |buf| >= FLUSH_AT {
              FlushBuf(day, commits);
            }
          case Tick(day, commits) =>
            FlushBuf(day, commits);
          case Closed(day, commits) =>
            FlushBuf(day, commits);
            open := false;
        }
        i := i + 1;
      }
      StaysClosed(events, i);
    }
  }

  lemma {:induction false} StaysClosed(events: seq<Event>, i: nat)
    requires i <= |events|
    ensures !Run(events[..i]).open || i == |events| ==> Run(events) == Run(events[..i])
    decreases |events|
  {
    if i < |events| {
      var init := events[..|events| - 1];
      StaysClosed(init, i);
      assert init[..i] == events[..i];
    } else {
      assert events[..i] == events;
    }
  }
}
