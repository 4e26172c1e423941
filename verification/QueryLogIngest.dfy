/** One tick of the query log reader: what is new in the file since the last offset. */
module QueryLogIngest {
  import opened Wrappers
  import opened ConfText
  import opened QueryLog

  /** The reading of one log line, if it is one of those recognised. */
  type Parser = string -> Option<Event>

  datatype LogFile = Missing | Present(text: string, readable: bool)

  /** The recognised lines, as history. */
  function Items(parse: Parser, ls: seq<string>): seq<Item>
    decreases |ls|
  {
    if ls == [] then []
    else
      var n := |ls| - 1;
      Items(parse, ls[..n]) + (match parse(ls[n]) case Some(e) => [Seen(e)] case None => [])
  }

  lemma ItemsNext(parse: Parser, ls: seq<string>, i: nat)
    requires i < |ls|
    ensures Items(parse, ls[..i + 1]) == Items(parse, ls[..i]) + (match parse(ls[i]) case Some(e) => [Seen(e)] case None => [])
  {
    assert ls[..i + 1][..i] == ls[..i];
  }

  lemma {:induction false} ItemsConcat(parse: Parser, a: seq<string>, b: seq<string>)
    ensures Items(parse, a + b) == Items(parse, a) + Items(parse, b)
    decreases |b|
  {
    if b == [] {
      assert a + b == a;
    } else {
      var n := |b| - 1;
      assert (a + b)[..|a| + n] == a + b[..n];
      ItemsConcat(parse, a, b[..n]);
    }
  }

  // -------------------------------------------------------- reading a growing file

  /** Reading a text in two pieces gives the same lines exactly when the cut is not inside a line. */
  lemma {:induction false} CutBetweenLines(a: string, b: string)
    ensures Lines(a + b) == Lines(a) + Lines(b) <==> a == "" || b == "" || a[|a| - 1] == '\n'
    ensures a != "" && b != "" && a[|a| - 1] != '\n' ==> |Lines(a + b)| + 1 == |Lines(a)| + |Lines(b)|
    decreases |a|
  {
    hide Lines, ChopCr, FirstNewline;
    NothingToRead();
    if a == "" {
      assert a + b == b && [] + Lines(b) == Lines(b);
    } else if b == "" {
      assert a + b == a && Lines(a) + [] == Lines(a);
    } else {
      var i := FirstNewline(a);
      if i == |a| {
        OpenLine(a, b);
      } else {
        var first, rest := a[..i], a[i + 1..];
        assert a == first + "\n" + rest && a + b == first + "\n" + (rest + b);
        LinesOfLine(first, rest);
        LinesOfLine(first, rest + b);
        CutBetweenLines(rest, b);
        assert rest != "" ==> rest[|rest| - 1] == a[|a| - 1];
        assert rest == "" ==> a[|a| - 1] == '\n';
        FirstCancels(ChopCr(first), Lines(rest + b), Lines(rest), Lines(b));
      }
    }
  }

  lemma NothingToRead()
    ensures Lines("") == []
  {
  }

  lemma FirstCancels(x: string, whole: seq<string>, a: seq<string>, b: seq<string>)
    ensures [x] + whole == [x] + a + b <==> whole == a + b
  {
    assert [x] + a + b == [x] + (a + b);
    assert ([x] + whole)[1..] == whole && ([x] + (a + b))[1..] == a + b;
  }

  lemma OpenLine(a: string, b: string)
    requires a != "" && b != "" && FirstNewline(a) == |a|
    ensures |Lines(a + b)| + 1 == |Lines(a)| + |Lines(b)|
    ensures a[|a| - 1] != '\n'
  {
    hide Lines, ChopCr, FirstNewline;
    var j := FirstNewline(b);
    assert a[..|a|] == a && a[|a| - 1] in a;
    OneLineText(a);
    if j == |b| {
      assert b[..j] == b;
      OneLineText(a + b);
      OneLineText(b);
    } else {
      var first, rest := b[..j], b[j + 1..];
      assert b == first + "\n" + rest && a + b == (a + first) + "\n" + rest;
      LinesOfLine(first, rest);
      LinesOfLine(a + first, rest);
    }
  }

  lemma OneLineText(s: string)
    ensures s != "" && OneLine(s) ==> Lines(s) == [s]
  {
  }

  predicate WholeLines(text: string) {
    text == "" || text[|text| - 1] == '\n'
  }

  /** Ticks of a log that only grows, each seeing whole lines; some may fail to read it. */
  ghost predicate Grows(ticks: seq<LogFile>) {
    && (forall k | 0 <= k < |ticks| :: ticks[k].Present? && WholeLines(ticks[k].text))
    && (forall j, k | 0 <= j <= k < |ticks| :: ticks[j].text <= ticks[k].text)
  }

  /** The ingested events of a history, without the emptyings of the map. */
  function EventsOf(h: seq<Item>): seq<Item>
    decreases |h|
  {
    if h == [] then []
    else
      var n := |h| - 1;
      EventsOf(h[..n]) + (if h[n].Cleared? then [] else [h[n]])
  }

  lemma EventsNext(h: seq<Item>, item: Item)
    ensures EventsOf(h + [item]) == EventsOf(h) + (if item.Cleared? then [] else [item])
  {
    assert (h + [item])[..|h|] == h;
  }

  lemma NoItems(parse: Parser)
    ensures Items(parse, []) == []
  {
  }

  lemma {:induction false} EventsOfItems(parse: Parser, h: seq<Item>, ls: seq<string>)
    ensures EventsOf(h + Items(parse, ls)) == EventsOf(h) + Items(parse, ls)
    decreases |ls|
  {
    hide Items, EventsOf;
    if ls == [] {
      NoItems(parse);
      assert h + [] == h && EventsOf(h) + [] == EventsOf(h);
    } else {
      var n := |ls| - 1;
      var before := Items(parse, ls[..n]);
      ItemsNext(parse, ls, n);
      assert ls[..n + 1] == ls;
      EventsOfItems(parse, h, ls[..n]);
      if parse(ls[n]).Some? {
        var item := Seen(parse(ls[n]).value);
        EventsNext(h + before, item);
        assert h + (before + [item]) == (h + before) + [item];
        assert EventsOf(h) + (before + [item]) == EventsOf(h) + before + [item];
      } else {
        assert before + [] == before;
      }
    }
  }

  /** The lines up to one offset and from there to another are the lines up to the other. */
  lemma ReadOn(parse: Parser, whole: string, start: nat, offset: nat, end: nat)
    requires start <= offset <= end <= |whole| && WholeLines(whole[..offset])
    ensures Items(parse, Lines(whole[start..end])) ==
            Items(parse, Lines(whole[start..offset])) + Items(parse, Lines(whole[offset..end]))
  {
    var seen, more := whole[start..offset], whole[offset..end];
    assert seen + more == whole[start..end];
    assert seen != "" ==> seen[|seen| - 1] == whole[offset - 1] == whole[..offset][offset - 1];
    hide Lines, Items;
    CutBetweenLines(seen, more);
    ItemsConcat(parse, Lines(seen), Lines(more));
  }

  /** What a tick does to the offset and the history; the result is the number of lines read. */
  ghost predicate Ticked(parse: Parser, file: LogFile, offset: nat, h: seq<Item>, r: Option<nat>, offset': nat, h': seq<Item>) {
    if file.Missing? then r == Some(0) && offset' == offset && h' == h
    else
      var rotated := |file.text| < offset;
      var start := if rotated then 0 else offset;
      var before := if rotated then h + [Cleared] else h;
      if |file.text| == start then r == Some(0) && offset' == start && h' == before
      else if !file.readable then r == None && offset' == start && h' == before
      else
        var read := Lines(file.text[start..]);
        var after := before + Items(parse, read);
        && r == Some(|read|) && offset' == |file.text|
        && h' == if |Run(after).pending| > 50_000 then after + [Cleared] else after
  }

  lemma TickReadsOn(parse: Parser, tick: LogFile, whole: string, start: nat, events: seq<Item>, offset: nat, h: seq<Item>, r: Option<nat>, offset': nat, h': seq<Item>)
    requires tick.Present? && start <= offset <= |tick.text| && tick.text <= whole
    requires WholeLines(whole[..offset]) && WholeLines(tick.text)
    requires Ticked(parse, tick, offset, h, r, offset', h')
    ensures offset' == (if tick.readable then |tick.text| else offset) && WholeLines(whole[..offset'])
    ensures EventsOf(h) == events + Items(parse, Lines(whole[start..offset])) ==>
            EventsOf(h') == events + Items(parse, Lines(whole[start..offset']))
  {
    TickAdds(parse, tick, offset, h, r, offset', h');
    var end := |tick.text|;
    assert tick.text == whole[..end] && tick.text[offset..] == whole[offset..end];
    hide *;
    if tick.readable {
      ReadOn(parse, whole, start, offset, end);
      JoinItems(events, Items(parse, Lines(whole[start..offset])), Items(parse, Lines(whole[offset..end])));
    }
  }

  lemma JoinItems(a: seq<Item>, b: seq<Item>, c: seq<Item>)
    ensures a + b + c == a + (b + c)
  {
  }

  /**
   A tick adds the lines after the offset, or all lines of a file shorter than that, if it
   can read them; a shorter file also starts with no query pending.
   */
  lemma TickAdds(parse: Parser, file: LogFile, offset: nat, h: seq<Item>, r: Option<nat>, offset': nat, h': seq<Item>)
    requires file.Present? && Ticked(parse, file, offset, h, r, offset', h')
    ensures var start := if |file.text| < offset then 0 else offset;
            && offset' == (if file.readable then |file.text| else start)
            && EventsOf(h') == EventsOf(h) + (if file.readable then Items(parse, Lines(file.text[start..])) else [])
    ensures |file.text| < offset ==> h + [Cleared] <= h'
  {
    hide Lines, Items, EventsOf, Run;
    var start := if |file.text| < offset then 0 else offset;
    var before := if |file.text| < offset then h + [Cleared] else h;
    EventsNext(h, Cleared);
    assert EventsOf(before) == EventsOf(h);
    if file.readable {
      if start == |file.text| {
        assert file.text[start..] == "";
        NoLines(parse);
      }
      var read := Lines(file.text[start..]);
      EventsOfItems(parse, before, read);
      EventsNext(before + Items(parse, read), Cleared);
    }
  }

  // ---------------------------------------------------------------- the program

  class Ingest {
    var offset: nat
    var pending: map<string, nat>
    var rows: seq<Row>
    ghost var history: seq<Item>

    ghost predicate Valid()
      reads this
    {
      State(rows, pending) == Run(history) && |pending| <= 50_000
    }

    constructor (offset: nat)
      ensures Valid() && history == [] && this.offset == offset
    {
      this.offset, pending, rows, history := offset, map[], [], [];
    }

    method IngestLine(e: Event)
      requires State(rows, pending) == Run(history)
      modifies this
      ensures State(rows, pending) == Run(history) && offset == old(offset)
      ensures history == old(history) + [Seen(e)]
    {
      assert (history + [Seen(e)])[..|history|] == history;
      match e {
        case Query(ts, client, qtype, domain) =>
          var id := |rows|;
          rows := rows + [Row(ts, client, qtype, domain, "query", "")];
          pending := pending[FullKey(client, qtype, domain) := id];
          pending := pending[domain := id];
        case Answer(ts, kind, domain, answer) =>
          var full := FullKey("", "A", domain);
          if full in pending || domain in pending {
            var id := if full in pending then pending[full] else pending[domain];
            pending := Without(pending, id);
            if id < |rows| {
              rows := rows[id := rows[id].(action := kind, answer := answer)];
            }
          } else {
            rows := rows + [Row(ts, "", "A", domain, kind, answer)];
          }
      }
      history := history + [Seen(e)];
    }

    method IngestLines(parse: Parser, ls: seq<string>)
      requires State(rows, pending) == Run(history)
      modifies this
      ensures State(rows, pending) == Run(history) && offset == old(offset)
      ensures history == old(history) + Items(parse, ls)
    {
      hide Run;
      for i := 0 to |ls|
        invariant State(rows, pending) == Run(history) && offset == old(offset)
        invariant history == old(history) + Items(parse, ls[..i])
      {
        ItemsNext(parse, ls, i);
        var parsed := parse(ls[i]);
        if parsed.Some? {
          IngestLine(parsed.value);
        }
      }
      assert ls[..|ls|] == ls;
    }

    method Clear()
      requires State(rows, pending) == Run(history)
      modifies this
      ensures Valid() && pending == map[] && offset == old(offset)
      ensures history == old(history) + [Cleared]
    {
      assert (history + [Cleared])[..|history|] == history;
      pending := map[];
      history := history + [Cleared];
    }

    /**
     A tick. A shortened file counts as a new one. The map never stays above its limit;
     the result is the number of lines read, or `None` for a file that cannot be read.
     */
    method IngestOnce(parse: Parser, file: LogFile) returns (r: Option<nat>)
      requires Valid()
      modifies this
      ensures Valid()
      ensures Ticked(parse, file, old(offset), old(history), r, offset, history)
    {
      if file.Missing? {
        return Some(0);
      }
      if |file.text| < offset {
        offset := 0;
        Clear();
      }
      if |file.text| == offset {
        return Some(0);
      }
      if !file.readable {
        return None;
      }
      hide *;
      var ls := Lines(file.text[offset..]);
      offset := |file.text|;
      IngestLines(parse, ls);
      if |pending| > MAX_PENDING {
        Clear();
      }
      r := Some(|ls|);
    }

    /**
     Ticks over a log that grows by whole lines, from wherever the offset stands: each line
     after it is ingested exactly once and in order, however the ticks fall and whichever of
     them fail.
     */
    method Follow(parse: Parser, ticks: seq<LogFile>)
      requires Valid() && Grows(ticks)
      requires ticks != [] && offset <= |ticks[0].text| && WholeLines(ticks[0].text[..offset])
      modifies this
      ensures Valid()
      ensures var last := ticks[|ticks| - 1];
        && old(offset) <= offset <= |last.text| && (last.readable ==> offset == |last.text|)
        && EventsOf(history) == old(EventsOf(history)) + Items(parse, Lines(last.text[old(offset)..offset]))
    {
      hide Lines, Items, EventsOf, Run;
      ghost var whole := ticks[|ticks| - 1].text;
      assert ticks[0].text[..offset] == whole[..offset];
      assert whole[offset..offset] == "";
      NoLines(parse);
      for i := 0 to |ticks|
        invariant Valid() && old(offset) <= offset <= |whole| && WholeLines(whole[..offset])
        invariant forall k | i <= k < |ticks| :: offset <= |ticks[k].text|
        invariant i > 0 && ticks[i - 1].readable ==> offset == |ticks[i - 1].text|
        invariant EventsOf(history) == old(EventsOf(history)) + Items(parse, Lines(whole[old(offset)..offset]))
      {
        assert ticks[i].text <= whole && WholeLines(ticks[i].text);
        FollowTick(parse, ticks[i], whole, old(offset), old(EventsOf(history)));
      }
    }

    method FollowTick(parse: Parser, tick: LogFile, ghost whole: string, ghost start: nat, ghost events: seq<Item>)
      requires Valid() && tick.Present? && start <= offset <= |tick.text| && tick.text <= whole
      requires WholeLines(whole[..offset]) && WholeLines(tick.text)
      requires EventsOf(history) == events + Items(parse, Lines(whole[start..offset]))
      modifies this
      ensures Valid() && offset == (if tick.readable then |tick.text| else old(offset))
      ensures WholeLines(whole[..offset])
      ensures EventsOf(history) == events + Items(parse, Lines(whole[start..offset]))
    {
      ghost var h, at := history, offset;
      var r := IngestOnce(parse, tick);
      TickReadsOn(parse, tick, whole, start, events, at, h, r, offset, history);
    }
  }

  lemma NoLines(parse: Parser)
    ensures Items(parse, Lines("")) == []
  {
  }
}
