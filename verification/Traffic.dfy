/**
 Traffic accounting: finished sessions are buffered, flushed in batches, and added to two
 tables, one by (day, address) and one by (day, address, domain).
 */
module Traffic {
  import opened Sums

  const FLUSH_AT: nat := 500

  datatype Sample = Sample(ip: string, domain: string, up: nat, down: nat)

  /** A sample as recorded: with the day of the batch it was part of. */
  datatype Entry = Entry(day: string, sample: Sample)

  datatype Row = Row(up: nat, down: nat, sessions: nat) {
    function Plus(r: Row): Row {
      Row(up + r.up, down + r.down, sessions + r.sessions)
    }
  }

  const Zero: Row := Row(0, 0, 0)

  datatype IpKey = IpKey(day: string, ip: string)

  datatype DomainKey = DomainKey(day: string, ip: string, domain: string)

  datatype Tables = Tables(byIp: map<IpKey, Row>, byDomain: map<DomainKey, Row>)

  const Empty: Tables := Tables(map[], map[])

  function Worth(s: Sample): Row {
    Row(s.up, s.down, 1)
  }

  function IpOf(e: Entry): IpKey {
    IpKey(e.day, e.sample.ip)
  }

  function DomainOf(e: Entry): DomainKey {
    DomainKey(e.day, e.sample.ip, e.sample.domain)
  }

  /** Insert the row, or add to the one with the same key. */
  function Upserted<K>(m: map<K, Row>, k: K, r: Row): map<K, Row> {
    m[k := if k in m then m[k].Plus(r) else r]
  }

  function Added(t: Tables, e: Entry): Tables {
    Tables(Upserted(t.byIp, IpOf(e), Worth(e.sample)), Upserted(t.byDomain, DomainOf(e), Worth(e.sample)))
  }

  /** The tables after a history of recorded samples. */
  function TablesOf(h: seq<Entry>): Tables
    decreases |h|
  {
    if h == [] then Empty else Added(TablesOf(h[..|h| - 1]), h[|h| - 1])
  }

  function Dated(day: string, samples: seq<Sample>): seq<Entry> {
    seq(|samples|, i requires 0 <= i < |samples| => Entry(day, samples[i]))
  }

  // -------------------------------------------------------------------- sums

  lemma PlusLaws(a: Row, b: Row, c: Row)
    ensures a.Plus(b) == b.Plus(a) && a.Plus(b).Plus(c) == a.Plus(b.Plus(c)) && a.Plus(Zero) == a
  {
  }

  function If(selected: bool, r: Row): Row {
    if selected then r else Zero
  }

  /** The sum of the rows whose key is selected, as a query over a table. */
  ghost function SumWhere<K(!new)>(m: map<K, Row>, p: K -> bool): Row
    decreases m.Keys
  {
    if m == map[] then Zero
    else
      var k :| k in m;
      SumWhere(m - {k}, p).Plus(If(p(k), m[k]))
  }

  lemma SumStep<K(!new)>(m: map<K, Row>, p: K -> bool) returns (k: K)
    requires m != map[]
    ensures k in m && SumWhere(m, p) == SumWhere(m - {k}, p).Plus(If(p(k), m[k]))
  {
    hide Row.Plus;
    hide If;
    k :| k in m && SumWhere(m, p) == SumWhere(m - {k}, p).Plus(If(p(k), m[k]));
  }

  lemma {:induction false} SumWithout<K(!new)>(m: map<K, Row>, p: K -> bool, k: K)
    requires k in m
    ensures SumWhere(m, p) == SumWhere(m - {k}, p).Plus(If(p(k), m[k]))
    decreases m.Keys
  {
    hide *;
    var j := SumStep(m, p);
    if j != k {
      var both := m - {j} - {k};
      assert both == m - {k} - {j};
      SumWithout(m - {j}, p, k);
      SumWithout(m - {k}, p, j);
      var s, rj, rk := SumWhere(both, p), If(p(j), m[j]), If(p(k), m[k]);
      PlusLaws(s, rk, rj);
      PlusLaws(s, rj, rk);
      PlusLaws(rj, rk, s);
    }
  }

  lemma SumUpserted<K(!new)>(m: map<K, Row>, p: K -> bool, k: K, r: Row)
    ensures SumWhere(Upserted(m, k, r), p) == SumWhere(m, p).Plus(If(p(k), r))
  {
    hide SumWhere;
    var m' := Upserted(m, k, r);
    SumWithout(m', p, k);
    assert m' - {k} == m - {k};
    if k in m {
      SumWithout(m, p, k);
    } else {
      assert m - {k} == m;
    }
  }

  function UpIf(p: Entry -> bool): Entry -> nat {
    (e: Entry) => if p(e) then e.sample.up else 0
  }

  function DownIf(p: Entry -> bool): Entry -> nat {
    (e: Entry) => if p(e) then e.sample.down else 0
  }

  function OneIf(p: Entry -> bool): Entry -> nat {
    (e: Entry) => if p(e) then 1 else 0
  }

  /** The bytes up, the bytes down and the number of the recorded samples that are selected. */
  function CountWhere(h: seq<Entry>, p: Entry -> bool): Row {
    Row(SumSeq(h, UpIf(p)), SumSeq(h, DownIf(p)), SumSeq(h, OneIf(p)))
  }

  lemma CountNext(h: seq<Entry>, e: Entry, p: Entry -> bool)
    ensures CountWhere(h + [e], p) == CountWhere(h, p).Plus(If(p(e), Worth(e.sample)))
  {
    hide SumSeq;
    SumAppend(h, e, UpIf(p));
    SumAppend(h, e, DownIf(p));
    SumAppend(h, e, OneIf(p));
  }

  lemma CountSame(h: seq<Entry>, p: Entry -> bool, q: Entry -> bool)
    requires forall e :: p(e) == q(e)
    ensures CountWhere(h, p) == CountWhere(h, q)
  {
    hide SumSeq;
    SumSame(h, UpIf(p), UpIf(q));
    SumSame(h, DownIf(p), DownIf(q));
    SumSame(h, OneIf(p), OneIf(q));
  }

  /** Taking one sample out of the middle of a history. */
  lemma {:induction false} CountOut(a: seq<Entry>, e: Entry, b: seq<Entry>, p: Entry -> bool)
    ensures CountWhere(a + [e] + b, p) == CountWhere(a + b, p).Plus(If(p(e), Worth(e.sample)))
    decreases |b|
  {
    hide *;
    if b == [] {
      assert a + [e] + b == a + [e] && a + b == a;
      CountNext(a, e, p);
    } else {
      var init, last := b[..|b| - 1], b[|b| - 1];
      CountOut(a, e, init, p);
      assert a + [e] + b == (a + [e] + init) + [last] && a + b == (a + init) + [last];
      CountNext(a + [e] + init, last, p);
      CountNext(a + init, last, p);
      var s, x, y := CountWhere(a + init, p), If(p(e), Worth(e.sample)), If(p(last), Worth(last.sample));
      PlusLaws(s, x, y);
      PlusLaws(s, y, x);
      PlusLaws(x, y, s);
    }
  }

  lemma {:induction false} CountPermuted(a: seq<Entry>, b: seq<Entry>, p: Entry -> bool)
    requires multiset(a) == multiset(b)
    ensures CountWhere(a, p) == CountWhere(b, p)
    decreases |a|
  {
    hide *;
    if a == [] {
      assert |multiset(b)| == 0;
    } else {
      var n := |a| - 1;
      var init, e := a[..n], a[n];
      assert a == init + [e];
      assert e in multiset(b);
      var i :| 0 <= i < |b| && b[i] == e;
      var before, after := b[..i], b[i + 1..];
      assert b == before + [e] + after;
      SameWithout(init, e, before, after);
      CountPermuted(init, before + after, p);
      CountOut(before, e, after, p);
      CountNext(init, e, p);
    }
  }

  lemma SameWithout<T>(a: seq<T>, e: T, b: seq<T>, c: seq<T>)
    requires multiset(a + [e]) == multiset(b + [e] + c)
    ensures multiset(a) == multiset(b + c)
  {
    assert multiset(b + c) == multiset(b) + multiset(c);
    assert multiset(b + [e] + c) == multiset(b) + multiset{e} + multiset(c);
    assert multiset(a + [e]) == multiset(a) + multiset{e};
    assert multiset(a) == multiset(a) + multiset{e} - multiset{e};
  }

  // ---------------------------------------------------------------- the tables

  lemma TablesNext(h: seq<Entry>, e: Entry)
    ensures TablesOf(h + [e]) == Added(TablesOf(h), e)
  {
  }

  function ByIp(p: IpKey -> bool): Entry -> bool {
    (e: Entry) => p(IpKey(e.day, e.sample.ip))
  }

  function ByDomain(q: DomainKey -> bool): Entry -> bool {
    (e: Entry) => q(DomainKey(e.day, e.sample.ip, e.sample.domain))
  }

  /**
   Any selection of rows by key adds up to the bytes up, the bytes down and the number of the
   recorded samples with such keys.
   */
  lemma {:induction false} QueriesCount(h: seq<Entry>, p: IpKey -> bool, q: DomainKey -> bool)
    ensures SumWhere(TablesOf(h).byIp, p) == CountWhere(h, ByIp(p))
    ensures SumWhere(TablesOf(h).byDomain, q) == CountWhere(h, ByDomain(q))
    decreases |h|
  {
    var f, g := ByIp(p), ByDomain(q);
    if h == [] {
      SumEmpty(TablesOf(h).byIp, p);
      SumEmpty(TablesOf(h).byDomain, q);
    } else {
      hide SumWhere, CountWhere, TablesOf, Row.Plus, If, Upserted;
      var init, e := h[..|h| - 1], h[|h| - 1];
      assert h == init + [e];
      QueriesCount(init, p, q);
      var t := TablesOf(init);
      TablesNext(init, e);
      SumUpserted(t.byIp, p, IpOf(e), Worth(e.sample));
      SumUpserted(t.byDomain, q, DomainOf(e), Worth(e.sample));
      CountNext(init, e, f);
      CountNext(init, e, g);
    }
  }

  lemma {:induction false} KeysRecorded(h: seq<Entry>)
    ensures forall k :: k in TablesOf(h).byIp <==> exists e :: e in h && IpOf(e) == k
    ensures forall k :: k in TablesOf(h).byDomain <==> exists e :: e in h && DomainOf(e) == k
    decreases |h|
  {
    if h != [] {
      var init, last := h[..|h| - 1], h[|h| - 1];
      KeysRecorded(init);
      assert h == init + [last];
    }
  }

  lemma RowAlone<K(!new)>(m: map<K, Row>, p: K -> bool, k: K)
    requires k in m && forall j :: p(j) <==> j == k
    ensures SumWhere(m, p) == m[k]
  {
    hide SumWhere;
    SumWithout(m, p, k);
    SumNone(m - {k}, p);
  }

  lemma PlusNothing(a: Row, r: Row)
    ensures a.Plus(If(false, r)) == a
  {
  }

  lemma SumEmpty<K(!new)>(m: map<K, Row>, p: K -> bool)
    ensures m == map[] ==> SumWhere(m, p) == Zero
  {
  }

  lemma {:induction false} SumNone<K(!new)>(m: map<K, Row>, p: K -> bool)
    requires forall k | k in m :: !p(k)
    ensures SumWhere(m, p) == Zero
    decreases m.Keys
  {
    hide *;
    if m == map[] {
      SumEmpty(m, p);
    } else {
      var k := SumStep(m, p);
      var rest := m - {k};
      SumNone(rest, p);
      assert If(p(k), m[k]) == If(false, m[k]);
      PlusNothing(SumWhere(rest, p), m[k]);
    }
  }

  function InDay(day: string): IpKey -> bool {
    (k: IpKey) => k.day == day
  }

  function DomainInDay(day: string): DomainKey -> bool {
    (k: DomainKey) => k.day == day
  }

  function OfAddress(day: string, ip: string): DomainKey -> bool {
    (k: DomainKey) => k.day == day && k.ip == ip
  }

  function RecordedOn(day: string): Entry -> bool {
    (e: Entry) => e.day == day
  }

  /** The row of an address equals the sum of its per-domain rows, and one exists when the other does. */
  lemma TablesAgree(h: seq<Entry>, day: string, ip: string)
    ensures var t := TablesOf(h); var k := IpKey(day, ip);
      && (k in t.byIp <==> exists d :: DomainKey(day, ip, d) in t.byDomain)
      && (k in t.byIp ==> t.byIp[k] == SumWhere(t.byDomain, OfAddress(day, ip)))
  {
    hide SumWhere, CountWhere, TablesOf;
    var t, k := TablesOf(h), IpKey(day, ip);
    var p: IpKey -> bool := j => j == k;
    var q := OfAddress(day, ip);
    var f, g := ByIp(p), ByDomain(q);
    QueriesCount(h, p, q);
    forall e
      ensures f(e) == g(e)
    {
      assert f(e) == p(IpOf(e)) && g(e) == q(DomainOf(e));
      assert p(IpOf(e)) == (IpOf(e) == k);
    }
    CountSame(h, f, g);
    KeysRecorded(h);
    if k in t.byIp {
      RowAlone(t.byIp, p, k);
      var e :| e in h && IpOf(e) == k;
      assert DomainOf(e) == DomainKey(day, ip, e.sample.domain);
    }
    if d :| DomainKey(day, ip, d) in t.byDomain {
      var e :| e in h && DomainOf(e) == DomainKey(day, ip, d);
      assert IpOf(e) == k;
    }
  }

  /** A day's total is the same over either table, and is what was recorded that day. */
  lemma DailyTotal(h: seq<Entry>, day: string)
    ensures SumWhere(TablesOf(h).byIp, InDay(day)) == CountWhere(h, RecordedOn(day))
    ensures SumWhere(TablesOf(h).byDomain, DomainInDay(day)) == CountWhere(h, RecordedOn(day))
  {
    hide SumWhere, CountWhere, TablesOf;
    var p, q, r := InDay(day), DomainInDay(day), RecordedOn(day);
    QueriesCount(h, p, q);
    var f, g := ByIp(p), ByDomain(q);
    forall e
      ensures f(e) == r(e) && g(e) == r(e)
    {
      assert f(e) == p(IpOf(e)) && g(e) == q(DomainOf(e));
      assert IpOf(e).day == e.day && DomainOf(e).day == e.day;
    }
    CountSame(h, f, r);
    CountSame(h, g, r);
  }

  /** The tables depend only on which samples were recorded on which day, not on their order. */
  lemma OrderDoesNotMatter(a: seq<Entry>, b: seq<Entry>)
    requires multiset(a) == multiset(b)
    ensures TablesOf(a) == TablesOf(b)
  {
    hide TablesOf;
    var s, t := TablesOf(a), TablesOf(b);
    KeysRecorded(a);
    KeysRecorded(b);
    assert forall e :: e in a <==> e in b by {
      forall e
        ensures e in a <==> e in b
      {
        assert e in a <==> e in multiset(a);
        assert e in b <==> e in multiset(b);
      }
    }
    assert s.byIp.Keys == t.byIp.Keys && s.byDomain.Keys == t.byDomain.Keys;
    forall k | k in s.byIp
      ensures s.byIp[k] == t.byIp[k]
    {
      SameIpRow(a, b, k);
    }
    forall k | k in s.byDomain
      ensures s.byDomain[k] == t.byDomain[k]
    {
      SameDomainRow(a, b, k);
    }
    assert s.byIp == t.byIp && s.byDomain == t.byDomain;
  }

  lemma SameIpRow(a: seq<Entry>, b: seq<Entry>, k: IpKey)
    requires multiset(a) == multiset(b) && k in TablesOf(a).byIp && k in TablesOf(b).byIp
    ensures TablesOf(a).byIp[k] == TablesOf(b).byIp[k]
  {
    hide SumWhere, CountWhere, TablesOf;
    var p: IpKey -> bool := j => j == k;
    RowAlone(TablesOf(a).byIp, p, k);
    RowAlone(TablesOf(b).byIp, p, k);
    QueriesCount(a, p, _ => false);
    QueriesCount(b, p, _ => false);
    CountPermuted(a, b, ByIp(p));
  }

  lemma SameDomainRow(a: seq<Entry>, b: seq<Entry>, k: DomainKey)
    requires multiset(a) == multiset(b) && k in TablesOf(a).byDomain && k in TablesOf(b).byDomain
    ensures TablesOf(a).byDomain[k] == TablesOf(b).byDomain[k]
  {
    hide SumWhere, CountWhere, TablesOf;
    var q: DomainKey -> bool := j => j == k;
    RowAlone(TablesOf(a).byDomain, q, k);
    RowAlone(TablesOf(b).byDomain, q, k);
    QueriesCount(a, _ => false, q);
    QueriesCount(b, _ => false, q);
    CountPermuted(a, b, ByDomain(q));
  }
}
