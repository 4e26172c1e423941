/**
 The DNS query log: each query is a row, and a later answer line, which names only the
 domain, is joined to the query it answers through a map of pending rows.
 */
module QueryLog {
  import opened Wrappers
  import opened Text

  const MAX_PENDING: nat := 50_000

  /** A parsed log line. Answers carry no client, and their query type is taken to be "A". */
  datatype Event =
    | Query(ts: string, client: string, qtype: string, domain: string)
    | Answer(ts: string, kind: string, domain: string, answer: string)

  datatype Row = Row(ts: string, client: string, qtype: string, domain: string, action: string, answer: string)

  /** The table, whose row numbers are the ids, and the pending map. */
  datatype State = State(rows: seq<Row>, pending: map<string, nat>)

  const Empty: State := State([], map[])

  /** What happens to the state: a line is ingested, or the pending map is emptied. */
  datatype Item = Seen(event: Event) | Cleared

  function FullKey(client: string, qtype: string, domain: string): string {
    client + "|" + qtype + "|" + domain
  }

  function AnswerKey(domain: string): string {
    FullKey("", "A", domain)
  }

  /** The keys, letter by letter. */
  lemma KeysAre(client: string, qtype: string, domain: string)
    ensures FullKey(client, qtype, domain) == client + ("|" + (qtype + ("|" + domain))) && AnswerKey(domain) == "|A|" + domain
  {
  }

  function QueryRow(e: Event): Row
    requires e.Query?
  {
    Row(e.ts, e.client, e.qtype, e.domain, "query", "")
  }

  function AnswerRow(e: Event): Row
    requires e.Answer?
  {
    Row(e.ts, "", "A", e.domain, e.kind, e.answer)
  }

  function Resolved(r: Row, e: Event): Row
    requires e.Answer?
  {
    r.(action := e.kind, answer := e.answer)
  }

  /** The row an answer is joined to, if any. */
  function Match(pending: map<string, nat>, domain: string): Option<nat> {
    if AnswerKey(domain) in pending then Some(pending[AnswerKey(domain)])
    else if domain in pending then Some(pending[domain])
    else None
  }

  function Without(pending: map<string, nat>, id: nat): map<string, nat> {
    map k | k in pending && pending[k] != id :: pending[k]
  }

  function Ingested(s: State, e: Event): State {
    match e
    case Query(_, client, qtype, domain) =>
      var id := |s.rows|;
      State(s.rows + [QueryRow(e)], s.pending[FullKey(client, qtype, domain) := id][domain := id])
    case Answer(_, _, domain, _) =>
      match Match(s.pending, domain)
      case Some(id) =>
        State(if id < |s.rows| then s.rows[id := Resolved(s.rows[id], e)] else s.rows, Without(s.pending, id))
      case None => State(s.rows + [AnswerRow(e)], s.pending)
  }

  function Next(s: State, item: Item): State {
    match item
    case Seen(e) => Ingested(s, e)
    case Cleared => s.(pending := map[])
  }

  function Run(h: seq<Item>): State
    decreases |h|
  {
    if h == [] then Empty else Next(Run(h[..|h| - 1]), h[|h| - 1])
  }

  // -------------------------------------------------------------- the history view

  predicate About(item: Item, d: string) {
    item.Seen? && item.event.domain == d
  }

  predicate QueryAt(h: seq<Item>, j: nat) {
    j < |h| && h[j].Seen? && h[j].event.Query?
  }

  predicate AnswerAt(h: seq<Item>, i: nat) {
    i < |h| && h[i].Seen? && h[i].event.Answer?
  }

  /** The latest event about a domain since the map was last emptied, if that is a query. */
  function Unanswered(h: seq<Item>, d: string): Option<nat>
    decreases |h|
  {
    if h == [] then None
    else
      var n := |h| - 1;
      if h[n].Cleared? then None
      else if h[n].event.domain == d then (if h[n].event.Query? then Some(n) else None)
      else Unanswered(h[..n], d)
  }

  /** Event `i` makes a row of its own. */
  predicate Inserts(h: seq<Item>, i: nat) {
    QueryAt(h, i) || (AnswerAt(h, i) && Unanswered(h[..i], h[i].event.domain).None?)
  }

  function Rows(h: seq<Item>): nat
    decreases |h|
  {
    if h == [] then 0 else Rows(h[..|h| - 1]) + (if Inserts(h, |h| - 1) then 1 else 0)
  }

  /** The row number of an event that makes a row. */
  function RowOf(h: seq<Item>, i: nat): nat
    requires i <= |h|
  {
    Rows(h[..i])
  }

  /** Answer `i` is joined to query `j`. */
  predicate Resolves(h: seq<Item>, i: nat, j: nat) {
    AnswerAt(h, i) && Unanswered(h[..i], h[i].event.domain) == Some(j)
  }

  /** The row in which answer `i` is recorded. */
  function RecordedAt(h: seq<Item>, i: nat): nat
    requires AnswerAt(h, i)
  {
    match Unanswered(h[..i], h[i].event.domain)
    case Some(j) => if j < i then RowOf(h, j) else 0
    case None => RowOf(h, i)
  }

  datatype Question = Question(client: string, qtype: string, domain: string) {
    function Key(): string {
      FullKey(client, qtype, domain)
    }
  }

  /** The questions a log may contain, and the domains its answers may be about. */
  datatype Vocabulary = Vocabulary(questions: iset<Question>, answers: iset<string>) {
    predicate Has(item: Item) {
      match item
      case Seen(Query(_, client, qtype, domain)) => Question(client, qtype, domain) in questions
      case Seen(Answer(_, _, domain, _)) => domain in answers
      case Cleared => true
    }

    ghost predicate Covers(h: seq<Item>) {
      forall item | item in h :: Has(item)
    }

    /**
     The keys under which answers are looked up belong to the right queries: no full key is
     an answered domain, and the full key an answer would have is not a queried domain nor
     the full key of a question, except if all questions for that domain have it.
     */
    ghost predicate Unambiguous() {
      forall q, d | q in questions && d in answers ::
        && q.Key() != d && AnswerKey(d) != q.domain
        && (q.Key() == AnswerKey(d) ==> q.domain == d && AllKeyed(d))
    }

    ghost predicate AllKeyed(d: string) {
      forall q | q in questions && q.domain == d :: q.Key() == AnswerKey(d)
    }

    /** Some question has the full key an answer for the domain would have. */
    ghost predicate Shadowed(d: string) {
      exists q :: q in questions && q.Key() == AnswerKey(d)
    }
  }

  // ---------------------------------------------------- facts about the history view

  ghost predicate LatestQuery(h: seq<Item>, d: string, j: nat) {
    && QueryAt(h, j) && h[j].event.domain == d
    && forall k | j < k < |h| :: !h[k].Cleared? && !About(h[k], d)
  }

  /** A domain is unanswered exactly when its last event, with no emptying since, is a query. */
  lemma {:induction false} UnansweredIsLatest(h: seq<Item>, d: string, j: nat)
    ensures Unanswered(h, d) == Some(j) <==> LatestQuery(h, d, j)
    decreases |h|
  {
    if h != [] {
      var n := |h| - 1;
      UnansweredIsLatest(h[..n], d, j);
      if !h[n].Cleared? && h[n].event.domain != d && j != n {
        assert LatestQuery(h, d, j) <==> LatestQuery(h[..n], d, j) by {
          LatestNext(h, d, j);
        }
      }
    }
  }

  lemma LatestNext(h: seq<Item>, d: string, j: nat)
    ensures h != [] && h[|h| - 1].Seen? && h[|h| - 1].event.domain != d ==>
      (LatestQuery(h, d, j) <==> LatestQuery(h[..|h| - 1], d, j))
  {
  }

  lemma {:induction false} RowsGrow(h: seq<Item>, i: nat, k: nat)
    requires i <= k <= |h|
    ensures RowOf(h, i) <= RowOf(h, k)
    ensures Inserts(h, i) && i < k ==> RowOf(h, i) < RowOf(h, k)
    decreases k
  {
    if i < k {
      RowsGrow(h, i, k - 1);
      assert h[..k][..k - 1] == h[..k - 1];
      assert Inserts(h[..k], k - 1) <==> Inserts(h, k - 1);
    }
  }

  lemma RowOfPrefix(h: seq<Item>, n: nat, i: nat)
    requires i <= n <= |h|
    ensures RowOf(h[..n], i) == RowOf(h, i)
  {
    assert h[..n][..i] == h[..i];
  }

  /** Each query is joined to at most one answer, and the answer comes after it. */
  lemma ResolvedOnce(h: seq<Item>, i: nat, k: nat, j: nat)
    requires Resolves(h, i, j) && Resolves(h, k, j)
    ensures i == k && j < i && QueryAt(h, j) && h[j].event.domain == h[i].event.domain
  {
    hide Unanswered;
    UnansweredIsLatest(h[..i], h[i].event.domain, j);
    UnansweredIsLatest(h[..k], h[k].event.domain, j);
    assert forall m | 0 <= m < k :: h[..k][m] == h[m];
    assert forall m | 0 <= m < i :: h[..i][m] == h[m];
  }

  /** No two answers are recorded in one row. */
  lemma RecordedOnce(h: seq<Item>, i: nat, k: nat)
    requires AnswerAt(h, i) && AnswerAt(h, k) && i != k
    ensures RecordedAt(h, i) != RecordedAt(h, k)
  {
    var x, y := Unanswered(h[..i], h[i].event.domain), Unanswered(h[..k], h[k].event.domain);
    var a := Source(h, i);
    var b := Source(h, k);
    hide Unanswered;
    if x.Some? && x == y {
      ResolvedOnce(h, i, k, x.value);
    }
    assert a != b;
    if a < b {
      RowsGrow(h, a, b);
    } else {
      RowsGrow(h, b, a);
    }
  }

  /** The event whose row holds answer `i`. */
  lemma Source(h: seq<Item>, i: nat) returns (a: nat)
    requires AnswerAt(h, i)
    ensures a <= i && Inserts(h, a) && RecordedAt(h, i) == RowOf(h, a)
    ensures Unanswered(h[..i], h[i].event.domain) == if a < i then Some(a) else None
    ensures QueryAt(h, a) <==> a < i
  {
    hide Unanswered;
    match Unanswered(h[..i], h[i].event.domain) {
      case Some(j) =>
        UnansweredIsLatest(h[..i], h[i].event.domain, j);
        a := j;
      case None =>
        a := i;
    }
  }

  // ------------------------------------------------------------- the pending map

  /** What the pending map says about one domain is what the history says. */
  ghost predicate PendingAt(v: Vocabulary, h: seq<Item>, pending: map<string, nat>, d: string) {
    && (AnswerKey(d) in pending ==> v.Shadowed(d) && d in pending && pending[AnswerKey(d)] == pending[d])
    && match Unanswered(h, d)
       case None => d !in pending
       case Some(j) => j < |h| && d in pending && pending[d] == RowOf(h, j)
  }

  ghost predicate PendingTracks(v: Vocabulary, h: seq<Item>, pending: map<string, nat>) {
    forall d | d in v.answers :: PendingAt(v, h, pending, d)
  }

  lemma RowsNext(h: seq<Item>, item: Item)
    ensures Rows(h + [item]) == Rows(h) + (if Inserts(h + [item], |h|) then 1 else 0)
    ensures RowOf(h + [item], |h|) == Rows(h)
  {
  }

  lemma PendingStepAt(v: Vocabulary, h: seq<Item>, s: State, item: Item, d: string)
    requires v.Unambiguous() && v.Has(item) && d in v.answers
    requires PendingTracks(v, h, s.pending) && |s.rows| == Rows(h)
    ensures PendingAt(v, h + [item], Next(s, item).pending, d)
  {
    var h' := h + [item];
    RowsNext(h, item);
    assert PendingAt(v, h, s.pending, d);
    if item.Seen? {
      var e := item.event;
      hide Unanswered, Rows, FullKey, AnswerKey;
      match Unanswered(h, d) {
        case Some(j) =>
          RowOfPrefix(h', |h|, j);
          assert h'[..|h|] == h;
        case None =>
      }
      match e {
        case Query(_, client, qtype, domain) =>
          var q := Question(client, qtype, domain);
          assert q in v.questions && q.Key() == FullKey(client, qtype, domain);
          QuestionKeys(v, q, d);
        case Answer(_, _, domain, _) =>
          assert PendingAt(v, h, s.pending, domain);
          OtherDomain(h, domain, d);
      }
    }
  }

  /** What a question's two keys can do to the lookup of one domain. */
  lemma QuestionKeys(v: Vocabulary, q: Question, d: string)
    requires v.Unambiguous() && q in v.questions && d in v.answers
    ensures q.Key() != d && AnswerKey(d) != q.domain
    ensures q.Key() == AnswerKey(d) ==> q.domain == d && v.Shadowed(d)
    ensures q.domain == d && v.Shadowed(d) ==> q.Key() == AnswerKey(d)
  {
    hide FullKey, AnswerKey;
  }

  /** Different unanswered domains have different rows. */
  lemma OtherDomain(h: seq<Item>, a: string, b: string)
    ensures Unanswered(h, a).Some? && Unanswered(h, b).Some? && a != b ==>
      && Unanswered(h, a).value < |h| && Unanswered(h, b).value < |h|
      && RowOf(h, Unanswered(h, a).value) != RowOf(h, Unanswered(h, b).value)
  {
    hide Unanswered, Rows;
    if Unanswered(h, a).Some? && Unanswered(h, b).Some? && a != b {
      var i, j := Unanswered(h, a).value, Unanswered(h, b).value;
      UnansweredIsLatest(h, a, i);
      UnansweredIsLatest(h, b, j);
      if i < j {
        RowsGrow(h, i, j);
      } else {
        RowsGrow(h, j, i);
      }
    }
  }

  // ------------------------------------------------------------------- the table

  /** Answer `i` can be read off its row. */
  ghost predicate AnswerShown(h: seq<Item>, rows: seq<Row>, i: nat) {
    AnswerAt(h, i) ==>
      var id := RecordedAt(h, i); var e := h[i].event;
      && id < |rows| && rows[id].action == e.kind && rows[id].answer == e.answer && rows[id].domain == e.domain
      && (Inserts(h, i) ==> rows[id] == Row(e.ts, "", "A", e.domain, e.kind, e.answer))
  }

  /** Query `j` has its row, untouched unless an answer was joined to it. */
  ghost predicate QueryShown(h: seq<Item>, rows: seq<Row>, j: nat) {
    QueryAt(h, j) ==>
      var id := RowOf(h, j); var e := h[j].event;
      && id < |rows|
      && rows[id] == Row(e.ts, e.client, e.qtype, e.domain, rows[id].action, rows[id].answer)
      && ((forall i :: !Resolves(h, i, j)) ==> rows[id].action == "query" && rows[id].answer == "")
  }

  ghost predicate TableShows(h: seq<Item>, rows: seq<Row>) {
    && |rows| == Rows(h)
    && (forall i: nat :: AnswerShown(h, rows, i))
    && (forall j: nat :: QueryShown(h, rows, j))
  }

  lemma PrefixFacts(h: seq<Item>, item: Item, i: nat)
    requires i < |h|
    ensures var h' := h + [item];
      && (AnswerAt(h', i) <==> AnswerAt(h, i)) && (QueryAt(h', i) <==> QueryAt(h, i))
      && (Inserts(h', i) <==> Inserts(h, i)) && RowOf(h', i) == RowOf(h, i) && h'[i] == h[i]
      && (AnswerAt(h, i) ==> RecordedAt(h', i) == RecordedAt(h, i))
      && forall j :: Resolves(h', i, j) <==> Resolves(h, i, j)
  {
    var h' := h + [item];
    assert h'[..i] == h[..i];
    hide Unanswered, Rows;
    if AnswerAt(h, i) {
      match Unanswered(h[..i], h[i].event.domain) {
        case Some(j) =>
          assert j < i ==> h'[..j] == h[..j];
        case None =>
      }
    }
  }

  /** The row an answer is about to be joined to holds no answer yet. */
  lemma StillFree(h: seq<Item>, d: string, j: nat, i: nat)
    requires Unanswered(h, d) == Some(j) && AnswerAt(h, i)
    ensures j < |h| && RecordedAt(h, i) != RowOf(h, j) && !Resolves(h, i, j)
  {
    hide Rows;
    UnansweredIsLatest(h, d, j);
    var a := Source(h, i);
    if a < i {
      UnansweredIsLatest(h[..i], h[i].event.domain, a);
    }
    hide Unanswered;
    assert a != j;
    if a < j {
      RowsGrow(h, a, j);
    } else {
      RowsGrow(h, j, a);
    }
  }

  lemma {:induction false} RunTracks(v: Vocabulary, h: seq<Item>)
    requires v.Unambiguous() && v.Covers(h)
    ensures PendingTracks(v, h, Run(h).pending)
    ensures TableShows(h, Run(h).rows)
    decreases |h|
  {
    if h != [] {
      var init, item := h[..|h| - 1], h[|h| - 1];
      assert h == init + [item] && item in h;
      assert v.Covers(init) && v.Has(item);
      RunTracks(v, init);
      var s := Run(init);
      hide Next;
      assert Run(h) == Next(s, item);
      hide Run, PendingAt;
      forall d | d in v.answers
        ensures PendingAt(v, h, Next(s, item).pending, d)
      {
        PendingStepAt(v, init, s, item, d);
      }
      TableStep(v, init, s, item);
    }
  }

  lemma TableStep(v: Vocabulary, h: seq<Item>, s: State, item: Item)
    requires v.Has(item) && PendingTracks(v, h, s.pending) && TableShows(h, s.rows)
    ensures TableShows(h + [item], Next(s, item).rows)
  {
    var h', rows' := h + [item], Next(s, item).rows;
    RowsNext(h, item);
    AnswerStep(v, h, s, item);
    QueryStep(v, h, s, item);
    StepRows(v, h, s, item);
  }

  /** What a step does to the table, in terms of the history. */
  ghost predicate RowsAfter(h: seq<Item>, rows: seq<Row>, item: Item, rows': seq<Row>) {
    var own := Inserts(h + [item], |h|);
    match item
    case Cleared => rows' == rows && !own
    case Seen(Query(_, _, _, _)) => rows' == rows + [QueryRow(item.event)] && own
    case Seen(Answer(_, _, d, _)) =>
      match Unanswered(h, d)
      case None => rows' == rows + [AnswerRow(item.event)] && own
      case Some(j) =>
        && j < |h| && RowOf(h, j) < |rows| && !own
        && rows' == rows[RowOf(h, j) := Resolved(rows[RowOf(h, j)], item.event)]
  }

  lemma StepRows(v: Vocabulary, h: seq<Item>, s: State, item: Item)
    requires v.Has(item) && PendingTracks(v, h, s.pending) && |s.rows| == Rows(h)
    ensures RowsAfter(h, s.rows, item, Next(s, item).rows)
    ensures var h' := h + [item];
      h'[|h|] == item && h'[..|h|] == h && RowOf(h', |h|) == |s.rows| && |Next(s, item).rows| == Rows(h')
  {
    RowsNext(h, item);
    hide Rows;
    assert (h + [item])[..|h|] == h;
    if item.Seen? && item.event.Answer? {
      AnswerRows(v, h, s, item.event);
      hide Unanswered, Ingested;
    }
  }

  lemma AnswerRows(v: Vocabulary, h: seq<Item>, s: State, e: Event)
    requires e.Answer? && e.domain in v.answers && PendingTracks(v, h, s.pending) && |s.rows| == Rows(h)
    ensures match Unanswered(h, e.domain)
      case None => Ingested(s, e).rows == s.rows + [AnswerRow(e)]
      case Some(j) =>
        && j < |h| && RowOf(h, j) < |s.rows|
        && Ingested(s, e).rows == s.rows[RowOf(h, j) := Resolved(s.rows[RowOf(h, j)], e)]
  {
    hide Rows, Unanswered, AnswerKey;
    assert PendingAt(v, h, s.pending, e.domain);
    match Unanswered(h, e.domain) {
      case None =>
      case Some(j) =>
        UnansweredIsLatest(h, e.domain, j);
        RowsGrow(h, j, |h|);
        assert h[..|h|] == h;
    }
  }

  lemma AnswerStep(v: Vocabulary, h: seq<Item>, s: State, item: Item)
    requires v.Has(item) && PendingTracks(v, h, s.pending) && TableShows(h, s.rows)
    ensures forall i: nat :: AnswerShown(h + [item], Next(s, item).rows, i)
  {
    var h' := h + [item];
    StepRows(v, h, s, item);
    hide Next;
    hide Rows, Unanswered;
    forall i: nat
      ensures AnswerShown(h', Next(s, item).rows, i)
    {
      if i < |h| {
        assert AnswerShown(h, s.rows, i);
        PrefixFacts(h, item, i);
        if AnswerAt(h, i) && AnswerAt(h', |h|) && Unanswered(h, item.event.domain).Some? {
          StillFree(h, item.event.domain, Unanswered(h, item.event.domain).value, i);
        }
      } else if i == |h| && AnswerAt(h', i) {
        match Unanswered(h, item.event.domain) {
          case None =>
          case Some(j) =>
            UnansweredIsLatest(h, item.event.domain, j);
            assert QueryShown(h, s.rows, j);
            assert h'[..j] == h[..j];
        }
      }
    }
  }

  lemma QueryStep(v: Vocabulary, h: seq<Item>, s: State, item: Item)
    requires v.Has(item) && PendingTracks(v, h, s.pending) && TableShows(h, s.rows)
    ensures forall j: nat :: QueryShown(h + [item], Next(s, item).rows, j)
  {
    var h' := h + [item];
    StepRows(v, h, s, item);
    hide Next;
    hide Rows, Unanswered;
    forall j: nat
      ensures QueryShown(h', Next(s, item).rows, j)
    {
      if j < |h| {
        assert QueryShown(h, s.rows, j);
        PrefixFacts(h, item, j);
        if forall i :: !Resolves(h', i, j) {
          forall i: nat
            ensures !Resolves(h, i, j)
          {
            if i < |h| {
              PrefixFacts(h, item, i);
            }
          }
          assert !Resolves(h', |h|, j);
        }
        if QueryAt(h, j) && AnswerAt(h', |h|) && Unanswered(h, item.event.domain).Some? {
          var k := Unanswered(h, item.event.domain).value;
          UnansweredIsLatest(h, item.event.domain, k);
          assert Resolves(h', |h|, k);
          if k != j {
            RowsApart(h, j, k);
          }
        }
      }
    }
  }

  lemma RowsApart(h: seq<Item>, i: nat, k: nat)
    requires i < |h| && k < |h| && i != k && Inserts(h, i) && Inserts(h, k)
    ensures RowOf(h, i) != RowOf(h, k)
  {
    if i < k {
      RowsGrow(h, i, k);
    } else {
      RowsGrow(h, k, i);
    }
  }

  // ------------------------------------------------------------------- theorems

  /** Every row of the table belongs to one event. */
  lemma {:induction false} RowsCovered(h: seq<Item>, id: nat)
    requires id < Rows(h)
    ensures exists a: nat :: a < |h| && Inserts(h, a) && RowOf(h, a) == id
    decreases |h|
  {
    var n := |h| - 1;
    if id < Rows(h[..n]) {
      RowsCovered(h[..n], id);
      var a: nat :| a < n && Inserts(h[..n], a) && RowOf(h[..n], a) == id;
      assert h[..n] + [h[n]] == h;
      PrefixFacts(h[..n], h[n], a);
    } else {
      assert Inserts(h, n) && RowOf(h, n) == id;
    }
  }

  /**
   Over any history of an unambiguous vocabulary every answer can be read off one row, never shared with another answer
   and never overwritten later; it is the row of the latest query for its domain if that
   is still unanswered, and otherwise a row of its own.
   */
  lemma AnswersRecorded(v: Vocabulary, h: seq<Item>, i: nat)
    requires v.Unambiguous() && v.Covers(h) && AnswerAt(h, i)
    ensures AnswerShown(h, Run(h).rows, i)
    ensures forall k: nat | AnswerAt(h, k) && k != i :: RecordedAt(h, k) != RecordedAt(h, i)
    ensures forall j: nat :: LatestQuery(h[..i], h[i].event.domain, j) ==> RecordedAt(h, i) == RowOf(h, j)
    ensures (forall j: nat :: !LatestQuery(h[..i], h[i].event.domain, j)) ==>
      Inserts(h, i) && RecordedAt(h, i) == RowOf(h, i)
  {
    hide Rows, Unanswered, Run;
    RunTracks(v, h);
    forall k: nat | AnswerAt(h, k) && k != i
      ensures RecordedAt(h, k) != RecordedAt(h, i)
    {
      RecordedOnce(h, k, i);
    }
    forall j: nat
      ensures Unanswered(h[..i], h[i].event.domain) == Some(j) <==> LatestQuery(h[..i], h[i].event.domain, j)
    {
      UnansweredIsLatest(h[..i], h[i].event.domain, j);
    }
    hide AnswerShown, LatestQuery;
    match Unanswered(h[..i], h[i].event.domain) {
      case Some(j) =>
        assert LatestQuery(h[..i], h[i].event.domain, j);
        assert Resolves(h, i, j);
        ResolvedOnce(h, i, i, j);
      case None =>
    }
  }

  /** Vocabularies of non-empty clients and domains without a bar are unambiguous. */
  lemma BarFreeIsUnambiguous(v: Vocabulary)
    requires forall q | q in v.questions :: q.client != "" && '|' !in q.domain
    requires forall d | d in v.answers :: '|' !in d
    ensures v.Unambiguous()
  {
    forall q, d | q in v.questions && d in v.answers
      ensures q.Key() != d && AnswerKey(d) != q.domain && q.Key() != AnswerKey(d)
    {
      KeysApart(q.client, q.qtype, q.domain, d);
    }
  }

  lemma KeysApart(client: string, qtype: string, domain: string, d: string)
    requires client != "" && '|' !in domain && '|' !in d
    ensures FullKey(client, qtype, domain) != AnswerKey(d)
    ensures FullKey(client, qtype, domain) != d && domain != AnswerKey(d)
  {
    var full, answer := FullKey(client, qtype, domain), AnswerKey(d);
    assert full[|client|] == '|' && full[|client|] in full;
    assert answer[0] == '|' && answer[0] in answer;
    assert full == (client + "|" + qtype) + "|" + domain;
    assert answer == ("" + "|" + "A") + "|" + d;
    assert (client + "|" + qtype)[|client|] == '|';
    assert client + "|" + qtype != "" + "|" + "A";
    if full == answer {
      LastBar(client + "|" + qtype, domain, "" + "|" + "A", d);
    }
  }

  function Ask(q: Question): Item {
    Seen(Query("", q.client, q.qtype, q.domain))
  }

  function Tell(d: string): Item {
    Seen(Answer("", "reply", d, ""))
  }

  lemma RunOne(q: Question)
    ensures Run([Ask(q)]) == State([QueryRow(Ask(q).event)], map[q.Key() := 0, q.domain := 0])
    ensures Rows([Ask(q)]) == 1
  {
    assert [Ask(q)][..0] == [];
    assert Run([Ask(q)]) == Next(Empty, Ask(q));
    assert Next(Empty, Ask(q)).pending == map[q.Key() := 0, q.domain := 0];
  }

  lemma KeyLengths(q: Question, d: string)
    ensures |q.Key()| > |q.domain| && |AnswerKey(d)| > |d|
  {
  }

  /** An answer is joined to a query for another domain, whose keys it happens to match. */
  lemma WrongDomain(q: Question, d: string)
    requires q.domain != d && (q.Key() == d || q.domain == AnswerKey(d) || q.Key() == AnswerKey(d))
    ensures !TableShows([Ask(q), Tell(d)], Run([Ask(q), Tell(d)]).rows)
  {
    var h := [Ask(q), Tell(d)];
    assert h[..1] == [Ask(q)];
    RunOne(q);
    KeyLengths(q, d);
    hide FullKey, AnswerKey;
    var s := Run(h[..1]);
    assert Match(s.pending, d) == Some(0);
    assert Run(h) == Next(s, Tell(d)) && |Run(h).rows| == 1;
    assert Unanswered(h[..1], d) == None by {
      assert [Ask(q)][..0] == [];
    }
    assert Rows(h) == Rows(h[..1]) + 1;
  }

  /** An answer is joined to an older query for its domain, whose full key it has. */
  lemma OlderQuery(q: Question, newer: Question, d: string)
    requires q.domain == d == newer.domain && q.Key() == AnswerKey(d) != newer.Key()
    ensures var h := [Ask(q), Ask(newer), Tell(d)]; !TableShows(h, Run(h).rows)
  {
    var h := [Ask(q), Ask(newer), Tell(d)];
    assert h[..2] == [Ask(q), Ask(newer)] && h[..2][..1] == [Ask(q)] == h[..1];
    RunOne(q);
    KeyLengths(q, d);
    KeyLengths(newer, d);
    hide FullKey, AnswerKey;
    var s1, s2 := Run(h[..1]), Run(h[..2]);
    assert s2 == Next(s1, Ask(newer));
    assert s2.pending[AnswerKey(d)] == 0 && Match(s2.pending, d) == Some(0);
    assert Run(h) == Next(s2, Tell(d));
    assert Run(h).rows[1] == QueryRow(Ask(newer).event);
    assert Unanswered(h[..2], d) == Some(1);
    assert AnswerAt(h, 2) && RecordedAt(h, 2) == RowOf(h, 1) == 1;
    assert !AnswerShown(h, Run(h).rows, 2);
  }

  /**
   The correlation works over all histories of a vocabulary if and only if the vocabulary
   is unambiguous.
   */
  lemma CorrelatesExactly(v: Vocabulary)
    ensures (forall h | v.Covers(h) :: TableShows(h, Run(h).rows)) <==> v.Unambiguous()
  {
    hide FullKey, AnswerKey, TableShows, Run;
    if v.Unambiguous() {
      forall h | v.Covers(h)
        ensures TableShows(h, Run(h).rows)
      {
        RunTracks(v, h);
      }
    } else {
      var q, d :| q in v.questions && d in v.answers &&
        !(q.Key() != d && AnswerKey(d) != q.domain && (q.Key() == AnswerKey(d) ==> q.domain == d && v.AllKeyed(d)));
      KeyLengths(q, d);
      assert v.Has(Ask(q)) && v.Has(Tell(d));
      if q.domain != d {
        WrongDomain(q, d);
        assert v.Covers([Ask(q), Tell(d)]);
      } else {
        var newer :| newer in v.questions && newer.domain == d && newer.Key() != AnswerKey(d);
        OlderQuery(q, newer, d);
        assert v.Has(Ask(newer));
        assert v.Covers([Ask(q), Ask(newer), Tell(d)]);
      }
    }
  }
}
