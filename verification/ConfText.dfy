/**
 Text files as lines. Reading splits at newlines and drops one carriage return before
 each; writing puts a newline after every line.
 */
module ConfText {
  predicate IsBlank(c: char) {
    c == ' ' || c == '\t' || c == '\n' || c == '\r' || c == '\U{0B}' || c == '\U{0C}'
  }

  function TrimStart(s: string): string {
    if s != "" && IsBlank(s[0]) then TrimStart(s[1..]) else s
  }

  function TrimEnd(s: string): (r: string)
    ensures r <= s
  {
    if s != "" && IsBlank(s[|s| - 1]) then TrimEnd(s[..|s| - 1]) else s
  }

  function Trim(s: string): string {
    TrimEnd(TrimStart(s))
  }

  predicate OneLine(s: string) {
    '\n' !in s
  }

  function ChopCr(l: string): string {
    if l != "" && l[|l| - 1] == '\r' then l[..|l| - 1] else l
  }

  /** A line without any carriage return at its end: what reading and writing cannot erode. */
  function DropCrs(l: string): string {
    if l != "" && l[|l| - 1] == '\r' then DropCrs(l[..|l| - 1]) else l
  }

  /** The index of the first newline, or the length. */
  function FirstNewline(text: string): (i: nat)
    ensures i <= |text| && OneLine(text[..i]) && (i < |text| ==> text[i] == '\n')
  {
    if text == "" || text[0] == '\n' then 0 else 1 + FirstNewline(text[1..])
  }

  /** The lines of a text, each without its line ending. */
  function Lines(text: string): seq<string>
    decreases |text|
  {
    if text == "" then []
    else
      var i := FirstNewline(text);
      if i == |text| then [text] else [ChopCr(text[..i])] + Lines(text[i + 1..])
  }

  function Unlines(ls: seq<string>): string {
    if ls == [] then "" else ls[0] + "\n" + Unlines(ls[1..])
  }

  function Filter(ls: seq<string>, keep: string -> bool): seq<string> {
    if ls == [] then []
    else if keep(ls[0]) then [ls[0]] + Filter(ls[1..], keep)
    else Filter(ls[1..], keep)
  }

  function DropAllCrs(ls: seq<string>): (r: seq<string>)
    ensures |r| == |ls|
  {
    seq(|ls|, i requires 0 <= i < |ls| => DropCrs(ls[i]))
  }

  /** The lines of a text up to the carriage returns at their ends. */
  function Norm(text: string): seq<string> {
    DropAllCrs(Lines(text))
  }

  lemma {:induction false} LinesAreOneLine(text: string)
    ensures forall l | l in Lines(text) :: OneLine(l)
    decreases |text|
  {
    var i := FirstNewline(text);
    if i < |text| {
      LinesAreOneLine(text[i + 1..]);
    }
  }

  lemma FirstNewlineIn(a: string, b: string)
    requires OneLine(a)
    ensures FirstNewline(a + "\n" + b) == |a|
  {
    var t := a + "\n" + b;
    var i := FirstNewline(t);
    assert forall k | 0 <= k < |a| :: t[k] == a[k] && a[k] in a;
    assert forall k | 0 <= k < i :: t[..i][k] == t[k] && t[k] in t[..i];
    assert t[|a|] == '\n';
  }

  /** A written line is read back as itself but for one carriage return. */
  lemma LinesOfLine(a: string, b: string)
    requires OneLine(a)
    ensures Lines(a + "\n" + b) == [ChopCr(a)] + Lines(b)
  {
    var t := a + "\n" + b;
    FirstNewlineIn(a, b);
    assert t[..|a|] == a && t[|a| + 1..] == b;
  }

  lemma NormOfLine(a: string, b: string)
    requires OneLine(a)
    ensures Norm(a + "\n" + b) == [DropCrs(a)] + Norm(b)
  {
    hide Lines, DropCrs, ChopCr, DropAllCrs;
    LinesOfLine(a, b);
    DropCrsOfChop(a);
    var first := ChopCr(a);
    DropAllCons([first] + Lines(b));
  }

  lemma DropCrsOfChop(a: string)
    ensures DropCrs(ChopCr(a)) == DropCrs(a)
  {
  }

  lemma {:induction false} NormOfUnlines(ls: seq<string>, b: string)
    requires forall l | l in ls :: OneLine(l)
    ensures Norm(Unlines(ls) + b) == DropAllCrs(ls) + Norm(b)
  {
    hide Norm;
    hide DropCrs;
    hide DropAllCrs;
    if ls == [] {
      assert Unlines(ls) + b == b;
    } else {
      var rest := Unlines(ls[1..]) + b;
      UnlinesCons(ls, b);
      NormOfLine(ls[0], rest);
      NormOfUnlines(ls[1..], b);
      DropAllCons(ls);
    }
  }

  lemma UnlinesCons(ls: seq<string>, b: string)
    ensures ls != [] ==> Unlines(ls) + b == ls[0] + "\n" + (Unlines(ls[1..]) + b)
  {
  }

  lemma DropAllCons(ls: seq<string>)
    ensures ls != [] ==> DropAllCrs(ls) == [DropCrs(ls[0])] + DropAllCrs(ls[1..])
  {
  }

  // ------------------------------------------------------------------ filtering

  /** A test that carriage returns at the end of a line do not change. */
  ghost predicate CrBlind(keep: string -> bool) {
    forall l :: keep(DropCrs(l)) == keep(l)
  }

  lemma {:induction false} FilterCrs(ls: seq<string>, keep: string -> bool)
    requires CrBlind(keep)
    ensures Filter(DropAllCrs(ls), keep) == DropAllCrs(Filter(ls, keep))
  {
    if ls != [] {
      FilterCrs(ls[1..], keep);
      assert DropAllCrs(ls)[1..] == DropAllCrs(ls[1..]);
      if keep(ls[0]) {
        assert DropAllCrs([ls[0]] + Filter(ls[1..], keep)) == [DropCrs(ls[0])] + DropAllCrs(Filter(ls[1..], keep));
      }
    }
  }

  lemma {:induction false} FilterAppend(a: seq<string>, b: seq<string>, keep: string -> bool)
    ensures Filter(a + b, keep) == Filter(a, keep) + Filter(b, keep)
  {
    if a == [] {
      assert a + b == b;
    } else {
      assert (a + b)[1..] == a[1..] + b;
      FilterAppend(a[1..], b, keep);
    }
  }

  lemma {:induction false} FilterIn(ls: seq<string>, keep: string -> bool)
    ensures forall l :: l in Filter(ls, keep) <==> l in ls && keep(l)
  {
    if ls != [] {
      FilterIn(ls[1..], keep);
    }
  }

  /** Filtering by a weaker test first makes no difference. */
  lemma {:induction false} FilterTwice(ls: seq<string>, weak: string -> bool, strong: string -> bool)
    requires forall l | l in ls :: strong(l) ==> weak(l)
    ensures Filter(Filter(ls, weak), strong) == Filter(ls, strong)
  {
    if ls != [] {
      FilterTwice(ls[1..], weak, strong);
    }
  }

  lemma {:induction false} FilterNone(ls: seq<string>, keep: string -> bool)
    requires forall l | l in ls :: !keep(l)
    ensures Filter(ls, keep) == []
  {
    if ls != [] {
      FilterNone(ls[1..], keep);
    }
  }

  // ------------------------------------------------------------------- trimming

  lemma {:induction false} TrimStartCr(s: string)
    ensures TrimStart(s + "\r") == if TrimStart(s) == "" then "" else TrimStart(s) + "\r"
  {
    if s == "" {
      assert (s + "\r")[1..] == "";
    } else if IsBlank(s[0]) {
      assert (s + "\r")[1..] == s[1..] + "\r";
      TrimStartCr(s[1..]);
    }
  }

  lemma TrimCr(s: string)
    ensures Trim(s + "\r") == Trim(s)
  {
    TrimStartCr(s);
    var t := TrimStart(s);
    assert (t + "\r")[..|t|] == t;
  }

  lemma {:induction false} TrimDropCrs(l: string)
    ensures Trim(DropCrs(l)) == Trim(l)
  {
    if l != "" && l[|l| - 1] == '\r' {
      var m := l[..|l| - 1];
      assert l == m + "\r";
      TrimCr(m);
      TrimDropCrs(m);
    }
  }

  lemma {:induction false} TrimEndBlank(a: string, b: string)
    requires AllBlank(b)
    ensures TrimEnd(a + b) == TrimEnd(a)
  {
    if b == "" {
      assert a + b == a;
    } else {
      assert (a + b)[..|a + b| - 1] == a + b[..|b| - 1];
      assert b[|b| - 1] in b;
      TrimEndBlank(a, b[..|b| - 1]);
    }
  }

  lemma {:induction false} TrimEndAppend(a: string, b: string)
    requires TrimEnd(b) != ""
    ensures TrimEnd(a + b) == a + TrimEnd(b)
  {
    if b != "" && IsBlank(b[|b| - 1]) {
      assert (a + b)[..|a + b| - 1] == a + b[..|b| - 1];
      TrimEndAppend(a, b[..|b| - 1]);
    }
  }

  lemma {:induction false} TrimOneLine(s: string)
    requires OneLine(s)
    ensures OneLine(Trim(s))
  {
    TrimStartSuffix(s);
    var t := TrimStart(s);
    assert TrimEnd(t) <= t;
  }

  lemma {:induction false} TrimStartSuffix(s: string)
    ensures forall c | c in TrimStart(s) :: c in s
  {
    if s != "" && IsBlank(s[0]) {
      TrimStartSuffix(s[1..]);
    }
  }

  /** Trimming takes the blanks off both ends and nothing else. */
  lemma TrimExactly(s: string)
    ensures exists a, b :: s == a + Trim(s) + b && AllBlank(a) && AllBlank(b)
    ensures Trim(s) != "" ==> !IsBlank(Trim(s)[0]) && !IsBlank(Trim(s)[|Trim(s)| - 1])
  {
    hide TrimStart, TrimEnd, IsBlank, AllBlank;
    var t := TrimStart(s);
    StartCut(s);
    EndCut(t);
    var a, b :| s == a + t && AllBlank(a) && t == TrimEnd(t) + b && AllBlank(b);
    assert s == a + Trim(s) + b;
    TrimEndsInk(t);
    if Trim(s) != "" {
      assert Trim(s)[0] == t[0];
      TrimStartsInk(s);
    }
  }

  lemma TrimStartsInk(s: string)
    ensures TrimStart(s) != "" ==> !IsBlank(TrimStart(s)[0])
  {
  }

  lemma TrimEndsInk(s: string)
    ensures TrimEnd(s) != "" ==> !IsBlank(TrimEnd(s)[|TrimEnd(s)| - 1])
  {
  }

  lemma {:induction false} StartCut(s: string)
    ensures exists a :: s == a + TrimStart(s) && AllBlank(a)
  {
    if s != "" && IsBlank(s[0]) {
      StartCut(s[1..]);
      var a :| s[1..] == a + TrimStart(s) && AllBlank(a);
      assert s == ([s[0]] + a) + TrimStart(s) && AllBlank([s[0]] + a);
    } else {
      assert s == "" + TrimStart(s);
    }
  }

  lemma {:induction false} EndCut(s: string)
    ensures exists b :: s == TrimEnd(s) + b && AllBlank(b)
  {
    if s != "" && IsBlank(s[|s| - 1]) {
      EndCut(s[..|s| - 1]);
      var b :| s[..|s| - 1] == TrimEnd(s) + b && AllBlank(b);
      assert s == TrimEnd(s) + (b + [s[|s| - 1]]) && AllBlank(b + [s[|s| - 1]]);
    } else {
      assert s == TrimEnd(s) + "";
    }
  }

  predicate AllBlank(s: string) {
    forall c | c in s :: IsBlank(c)
  }

  /** A text is blank when all its lines are. */
  lemma BlankText(ls: seq<string>)
    ensures Trim(Unlines(ls)) == "" <==> forall l | l in ls :: Trim(l) == ""
  {
    TrimsToNothing(Unlines(ls));
    forall l
      ensures Trim(l) == "" <==> AllBlank(l)
    {
      TrimsToNothing(l);
    }
    UnlinesBlank(ls);
  }

  lemma {:induction false} UnlinesBlank(ls: seq<string>)
    ensures AllBlank(Unlines(ls)) <==> forall l | l in ls :: AllBlank(l)
  {
    if ls != [] {
      UnlinesBlank(ls[1..]);
      var t, u := Unlines(ls), Unlines(ls[1..]);
      assert forall c :: c in t <==> c in ls[0] || c == '\n' || c in u;
      assert AllBlank(t) <==> AllBlank(ls[0]) && AllBlank(u);
      assert forall l :: l in ls <==> l == ls[0] || l in ls[1..];
    }
  }

  lemma {:induction false} TrimsToNothing(s: string)
    ensures Trim(s) == "" <==> AllBlank(s)
  {
    if s != "" {
      if IsBlank(s[0]) {
        TrimsToNothing(s[1..]);
        assert forall c :: c in s <==> c == s[0] || c in s[1..];
      } else {
        KeepsFirst(s);
        assert s[0] in s;
      }
    }
  }

  lemma {:induction false} KeepsFirst(s: string)
    requires s != "" && !IsBlank(s[0])
    ensures TrimEnd(s) != ""
  {
    if IsBlank(s[|s| - 1]) {
      KeepsFirst(s[..|s| - 1]);
    }
  }
}
