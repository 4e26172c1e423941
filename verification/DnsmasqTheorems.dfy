/** What saving and loading the dnsmasq rules keeps, for any files and any rules. */
module DnsmasqTheorems {
  import opened Wrappers
  import opened Text
  import opened Order
  import opened ConfText
  import opened DnsmasqStore

  /** The foreign lines of a text, in order. */
  ghost function ForeignOf(text: string): seq<string> {
    Filter(Norm(text), IsForeign)
  }

  /** The lines dnsmasq acts on, in order. */
  ghost function DirectivesOf(text: string): seq<string> {
    Filter(Norm(text), IsDirective)
  }

  // ----------------------------------------------------- tests on a single line

  lemma LineTestsCrBlind()
    ensures CrBlind(Unmanaged) && CrBlind(NotBanner) && CrBlind(IsForeign) && CrBlind(IsDirective)
    ensures forall l :: RuleOf(DropCrs(l)) == RuleOf(l) && Managed(DropCrs(l)) == Managed(l)
  {
    forall l
      ensures Trim(DropCrs(l)) == Trim(l)
    {
      TrimDropCrs(l);
    }
  }

  lemma ManagedLines(l: string)
    ensures RuleOf(l).Some? ==> Managed(l)
    ensures Managed(l) ==> IsDirective(l) && !Banner(l)
  {
  }

  lemma OurComments()
    ensures forall l | l in [HEADER, NOTICE, DIVIDER] :: DropCrs(l) == l && OneLine(l) && !IsDirective(l) && RuleOf(l) == None
    ensures !IsForeign(HEADER) && IsForeign(NOTICE) && !IsForeign(DIVIDER)
  {
    HeaderIsBanner();
    NoticeIsForeign();
  }

  lemma PlainLine(l: string)
    requires l != "" && l[0] == '#' && !IsBlank(l[|l| - 1])
    ensures Trim(l) == l == DropCrs(l) && !IsDirective(l) && RuleOf(l) == None && !Managed(l)
  {
    assert ADDRESS[0] == 'a' && SERVER[0] == 's';
  }

  lemma HeaderIsBanner()
    ensures DropCrs(HEADER) == HEADER && OneLine(HEADER) && !IsDirective(HEADER) && RuleOf(HEADER) == None && !IsForeign(HEADER)
  {
    hide Trim, DropCrs, RuleOf, IsDirective, Managed;
    HeaderText();
    PlainLine(HEADER);
  }

  lemma HeaderText()
    ensures HEADER != "" && HEADER[0] == '#' && HEADER[|HEADER| - 1] == '.' && OneLine(HEADER) && MANAGED_BY <= HEADER
  {
  }

  lemma NoticeIsForeign()
    ensures DropCrs(NOTICE) == NOTICE && OneLine(NOTICE) && !IsDirective(NOTICE) && RuleOf(NOTICE) == None && IsForeign(NOTICE)
  {
    hide Trim, DropCrs, RuleOf, IsDirective, Managed, Banner;
    PlainLine(NOTICE);
    NotABannerText(NOTICE);
  }

  lemma NotABannerText(l: string)
    requires |l| > 2 && l[2] == 'O' && Trim(l) == l
    ensures !Banner(l)
  {
    hide Trim;
    assert MANAGED_BY[2] == 'M' && DO_NOT_EDIT[2] == 'D' && LONGEST_MATCH[2] == 'L' && DIVIDER[2] == '-';
  }

  // -------------------------------------------------------------- stripped texts

  lemma NormOfStrip(text: string, keep: string -> bool)
    requires CrBlind(keep)
    ensures Norm(Unlines(Filter(Lines(text), keep))) == Filter(Norm(text), keep)
  {
    var ls := Filter(Lines(text), keep);
    LinesAreOneLine(text);
    FilterIn(Lines(text), keep);
    NormOfUnlines(ls, "");
    assert Unlines(ls) + "" == Unlines(ls);
    FilterCrs(Lines(text), keep);
    assert Norm("") == [];
  }

  /** The lines a managed file keeps of its old text. */
  ghost function Kept(existing: string): seq<string> {
    Filter(Filter(Norm(existing), Unmanaged), NotBanner)
  }

  lemma PreservedLines(existing: string)
    ensures var preserved := StripBanners(StripManaged(existing));
            && Norm(preserved) == Kept(existing)
            && (Trim(preserved) == "" <==> forall l | l in Kept(existing) :: Trim(l) == "")
  {
    hide *;
    var ls := Filter(Lines(StripManaged(existing)), NotBanner);
    StrippedTwice(existing);
    BlankText(ls);
    BlankLines(ls);
  }

  lemma StrippedTwice(existing: string)
    ensures var ls := Filter(Lines(StripManaged(existing)), NotBanner);
            && StripBanners(StripManaged(existing)) == Unlines(ls)
            && Norm(Unlines(ls)) == Kept(existing) == DropAllCrs(ls)
  {
    hide Lines, Filter, Unlines, DropCrs, DropAllCrs, NotBanner, Unmanaged, CrBlind;
    LineTestsCrBlind();
    var stripped := StripManaged(existing);
    NormOfStrip(existing, Unmanaged);
    NormOfStrip(stripped, NotBanner);
    FilterCrs(Lines(stripped), NotBanner);
  }

  /** Carriage returns do not make a line blank or not. */
  lemma BlankLines(ls: seq<string>)
    ensures (forall l | l in DropAllCrs(ls) :: Trim(l) == "") <==> (forall l | l in ls :: Trim(l) == "")
  {
    hide Trim, DropCrs;
    forall i | 0 <= i < |ls|
      ensures Trim(DropAllCrs(ls)[i]) == Trim(ls[i]) && DropAllCrs(ls)[i] in DropAllCrs(ls)
    {
      TrimDropCrs(ls[i]);
    }
    if forall l | l in ls :: Trim(l) == "" {
      forall l | l in DropAllCrs(ls)
        ensures Trim(l) == ""
      {
        var i :| 0 <= i < |ls| && DropAllCrs(ls)[i] == l;
      }
    }
  }

  lemma NormOfManagedText(existing: string, block: string)
    ensures Norm(ManagedText(existing, block)) ==
            [HEADER, NOTICE]
            + (if forall l | l in Kept(existing) :: Trim(l) == "" then [] else Kept(existing) + [DIVIDER])
            + Norm(block)
  {
    OurComments();
    PreservedLines(existing);
    var stripped := StripManaged(existing);
    LinesAreOneLine(stripped);
    FilterIn(Lines(stripped), NotBanner);
    NormOfParts(HEADER, NOTICE, DIVIDER, Filter(Lines(stripped), NotBanner), Trim(StripBanners(stripped)) != "", block);
  }

  lemma NormOfParts(h: string, n: string, d: string, ls: seq<string>, keep: bool, block: string)
    requires OneLine(h) && OneLine(n) && OneLine(d) && forall l | l in ls :: OneLine(l)
    ensures var kept := if keep then Unlines(ls) + d + "\n" else "";
            Norm(h + "\n" + (n + "\n" + (kept + block))) ==
            [DropCrs(h), DropCrs(n)] + (if keep then Norm(Unlines(ls)) + [DropCrs(d)] else []) + Norm(block)
  {
    hide *;
    var kept := if keep then Unlines(ls) + d + "\n" else "";
    var rest := kept + block;
    NormOfLine(h, n + "\n" + rest);
    NormOfLine(n, rest);
    if keep {
      NormOfKept(ls, d, block);
    } else {
      assert rest == block;
    }
  }

  lemma NormOfKept(ls: seq<string>, d: string, block: string)
    requires OneLine(d) && forall l | l in ls :: OneLine(l)
    ensures Norm(Unlines(ls) + d + "\n" + block) == Norm(Unlines(ls)) + [DropCrs(d)] + Norm(block)
  {
    hide *;
    assert Unlines(ls) + d + "\n" + block == Unlines(ls) + (d + "\n" + block);
    NormOfUnlines(ls, d + "\n" + block);
    NormOfLine(d, block);
    NormOfUnlines(ls, "");
    assert Unlines(ls) + "" == Unlines(ls);
    EmptyNorm();
  }

  lemma EmptyNorm()
    ensures Norm("") == []
  {
  }

  ghost predicate ManagedLinesOnly(ls: seq<string>) {
    forall l | l in ls :: OneLine(l) && Managed(l)
  }

  lemma BlockLines(ls: seq<string>)
    requires ManagedLinesOnly(ls)
    ensures Norm(Unlines(ls)) == DropAllCrs(ls)
    ensures forall l | l in DropAllCrs(ls) :: Managed(l) && IsDirective(l) && !Banner(l)
    ensures RulesOf(DropAllCrs(ls)) == RulesOf(ls)
  {
    hide RuleOf, Managed, IsDirective, Banner, DropCrs, Unlines, Norm, CrBlind;
    NormOfUnlines(ls, "");
    EmptyNorm();
    assert Unlines(ls) + "" == Unlines(ls);
    LineTestsCrBlind();
    var ns := DropAllCrs(ls);
    forall i | 0 <= i < |ls|
      ensures ns[i] == DropCrs(ls[i]) && Managed(ns[i]) && IsDirective(ns[i]) && !Banner(ns[i]) && RuleOf(ns[i]) == RuleOf(ls[i])
    {
      assert ls[i] in ls;
      ManagedLines(ns[i]);
    }
  }

  /** Every directive of a text that is not foreign is managed, and only managed lines carry rules. */
  lemma KeptLines(existing: string)
    ensures Filter(Kept(existing), IsForeign) == ForeignOf(existing)
    ensures Filter(Kept(existing), IsDirective) == Filter(ForeignOf(existing), IsDirective)
    ensures forall l | l in Kept(existing) :: RuleOf(l) == None
  {
    var ls := Norm(existing);
    var kept := Kept(existing);
    FilterTwice(Filter(ls, Unmanaged), NotBanner, IsForeign);
    FilterTwice(ls, Unmanaged, IsForeign);
    FilterIn(Filter(ls, Unmanaged), NotBanner);
    FilterIn(ls, Unmanaged);
    FilterTwice(kept, IsForeign, IsDirective);
    forall l | l in kept
      ensures RuleOf(l) == None
    {
      ManagedLines(l);
    }
  }

  /**
   A rewritten file, for any block: the foreign lines it had stay, between a notice and
   those of the block; its rules are the block's.
   */
  lemma RewrittenFile(existing: string, block: string)
    ensures var text := ManagedText(existing, block);
            && ForeignOf(text) == [NOTICE] + ForeignOf(existing) + ForeignOf(block)
            && DirectivesOf(text) == Filter(ForeignOf(existing), IsDirective) + DirectivesOf(block)
            && RulesOf(Norm(text)) == RulesOf(Norm(block))
  {
    hide ManagedText, Kept, Norm, IsForeign, IsDirective, Filter, RulesOf;
    KeptLines(existing);
    RewrittenLines(existing, block, IsForeign);
    RewrittenLines(existing, block, IsDirective);
    RewrittenRules(existing, block);
    OurCommentsFiltered();
    var kept := Filter(Kept(existing), IsDirective);
    assert [] + kept == kept;
  }

  /** A block of managed lines alone. */
  lemma ManagedBlock(ls: seq<string>)
    requires ManagedLinesOnly(ls)
    ensures ForeignOf(Unlines(ls)) == [] && DirectivesOf(Unlines(ls)) == DropAllCrs(ls)
    ensures RulesOf(Norm(Unlines(ls))) == RulesOf(ls)
  {
    BlockLines(ls);
    hide Norm, DropAllCrs, Unlines, Filter, RulesOf, IsForeign, IsDirective, Managed, Banner;
    var block := DropAllCrs(ls);
    forall l | l in block
      ensures !IsForeign(l)
    {
      ForeignIsUnmanaged(l);
    }
    FilterNone(block, IsForeign);
    FilterAll(block, IsDirective);
  }

  lemma ForeignIsUnmanaged(l: string)
    ensures IsForeign(l) ==> !Managed(l)
  {
  }

  lemma OurCommentsFiltered()
    ensures Filter([HEADER, NOTICE], IsForeign) == [NOTICE]
    ensures Filter([HEADER, NOTICE], IsDirective) == []
  {
    OurComments();
    hide IsForeign;
    hide IsDirective;
    assert [HEADER, NOTICE] == [HEADER] + [NOTICE];
    FilterAppend([HEADER], [NOTICE], IsForeign);
    FilterNone([HEADER], IsForeign);
    FilterAll([NOTICE], IsForeign);
    FilterNone([HEADER, NOTICE], IsDirective);
  }

  /** The lines of a rewritten file that pass a test which blank lines and our divider fail. */
  lemma RewrittenLines(existing: string, block: string, keep: string -> bool)
    requires keep == IsForeign || keep == IsDirective
    ensures Filter(Norm(ManagedText(existing, block)), keep) ==
            Filter([HEADER, NOTICE], keep) + Filter(Kept(existing), keep) + Filter(Norm(block), keep)
  {
    OurComments();
    assert forall l :: Trim(l) == "" ==> !keep(l);
    NormOfManagedText(existing, block);
    hide ManagedText;
    hide Norm;
    hide Kept;
    hide Filter;
    var kept := Kept(existing);
    MiddlePart(kept, keep);
    var middle := if forall l | l in kept :: Trim(l) == "" then [] else kept + [DIVIDER];
    ThreeParts([HEADER, NOTICE], middle, Norm(block), keep);
  }

  lemma RewrittenRules(existing: string, block: string)
    ensures RulesOf(Norm(ManagedText(existing, block))) == RulesOf(Norm(block))
  {
    OurComments();
    NormOfManagedText(existing, block);
    KeptLines(existing);
    hide ManagedText;
    hide Norm;
    hide Kept;
    hide RuleOf;
    var kept := Kept(existing);
    var middle := if forall l | l in kept :: Trim(l) == "" then [] else kept + [DIVIDER];
    assert forall l | l in [HEADER, NOTICE] + middle :: RuleOf(l) == None;
  }

  lemma MiddlePart(kept: seq<string>, keep: string -> bool)
    requires !keep(DIVIDER) && forall l :: Trim(l) == "" ==> !keep(l)
    ensures Filter(if forall l | l in kept :: Trim(l) == "" then [] else kept + [DIVIDER], keep) == Filter(kept, keep)
  {
    if forall l | l in kept :: Trim(l) == "" {
      FilterNone(kept, keep);
    } else {
      FilterAppend(kept, [DIVIDER], keep);
      FilterNone([DIVIDER], keep);
    }
  }

  lemma ThreeParts(a: seq<string>, b: seq<string>, c: seq<string>, keep: string -> bool)
    ensures Filter(a + b + c, keep) == Filter(a, keep) + Filter(b, keep) + Filter(c, keep)
  {
    FilterAppend(a + b, c, keep);
    FilterAppend(a, b, keep);
  }

  lemma {:induction false} FilterAll(ls: seq<string>, keep: string -> bool)
    requires forall l | l in ls :: keep(l)
    ensures Filter(ls, keep) == ls
  {
    if ls != [] {
      FilterAll(ls[1..], keep);
    }
  }

  // ------------------------------------------------------------ rendered rules

  /** A relay address that survives being written on a line. */
  ghost predicate IpOk(ip: string) {
    Trim(ip) != "" && '/' !in ip && OneLine(ip)
  }

  /** A pattern that survives: trimmed and lowercased as saving does, and on one line. */
  ghost predicate PatternOk(d: string) {
    d != "" && Lower(d) == d && OneLine(d)
  }

  lemma {:induction false} TrimEndKeepsInk(s: string)
    requires !AllBlank(s)
    ensures TrimEnd(s) != ""
  {
    if IsBlank(s[|s| - 1]) {
      var t := s[..|s| - 1];
      assert forall c :: c in s <==> c in t || c == s[|s| - 1];
      TrimEndKeepsInk(t);
    }
  }

  lemma RelayLineTrims(d: string, ip: string)
    requires OneLine(d) && Trim(ip) != "" && OneLine(ip)
    ensures OneLine(RelayLine(d, ip)) && Managed(RelayLine(d, ip))
    ensures Trim(RelayLine(d, ip)) == ADDRESS + d + "/" + TrimEnd(ip) && TrimEnd(ip) != ""
  {
    var line := RelayLine(d, ip);
    TrimsToNothing(ip);
    TrimEndKeepsInk(ip);
    TrimEndAppend(ADDRESS + d + "/", ip);
    assert ADDRESS[0] == 'a' && line[0] == 'a';
    assert ADDRESS <= ADDRESS + d + "/" + TrimEnd(ip);
  }

  lemma BlankAddressTrims(d: string, ip: string)
    requires Trim(ip) == ""
    ensures Trim(RelayLine(d, ip)) == ADDRESS + d + "/"
  {
    var head := ADDRESS + d + "/";
    TrimsToNothing(ip);
    TrimEndBlank(head, ip);
    assert ADDRESS[0] == 'a' && (head + ip)[0] == 'a';
  }

  lemma RelayLineOneLine(d: string, ip: string)
    ensures OneLine(d) && OneLine(ip) ==> OneLine(RelayLine(d, ip))
  {
  }

  /** Whatever the address, as long as it is on one line, a relay line is managed. */
  lemma RelayLineManaged(d: string, ip: string)
    requires OneLine(d) && OneLine(ip)
    ensures OneLine(RelayLine(d, ip)) && Managed(RelayLine(d, ip))
    ensures var r := RuleOf(RelayLine(d, ip)); r.Some? ==> r.value.mode == Relay
  {
    RelayLineOneLine(d, ip);
    hide Trim, TrimEnd, ParseAddressLine, IsBypassServerLine, RelayLine, OneLine;
    var tail := if Trim(ip) == "" then "" else TrimEnd(ip);
    if Trim(ip) == "" {
      BlankAddressTrims(d, ip);
    } else {
      RelayLineTrims(d, ip);
    }
    assert Trim(RelayLine(d, ip)) == ADDRESS + (d + "/" + tail);
    AfterPrefix(ADDRESS, d + "/" + tail, d);
    NotABypass(d + "/" + tail);
  }

  /** An address that is blank or has a slash: the line carries no rule, or one for a longer pattern. */
  lemma BadAddressReads(d: string, ip: string)
    requires PatternOk(d) && OneLine(ip) && !IpOk(ip)
    ensures var r := RuleOf(RelayLine(d, ip)); r.Some? ==> |r.value.pattern| > |d|
  {
    hide LastSlash, Trim, TrimEnd, Lower, RelayLine, ParseAddressLine;
    var tail := if Trim(ip) == "" then "" else TrimEnd(ip);
    if Trim(ip) == "" {
      BlankAddressTrims(d, ip);
    } else {
      RelayLineTrims(d, ip);
      TrimEndKeepsSlash(ip);
    }
    AddressMisparses(d, tail);
    assert Trim(RelayLine(d, ip)) == ADDRESS + (d + "/" + tail);
    NotABypass(d + "/" + tail);
  }

  lemma AddressMisparses(d: string, tail: string)
    requires tail == "" || '/' in tail
    ensures var r := ParseAddressLine(ADDRESS + (d + "/" + tail)); r.Some? ==> |r.value| > |d|
  {
    hide LastSlash;
    AfterPrefix(ADDRESS, d + "/" + tail, d);
    LastSlashBeyond(d, tail);
  }

  lemma NotABypass(rest: string)
    ensures ParseBypassLine(ADDRESS + rest) == None && ADDRESS + rest != "" && (ADDRESS + rest)[0] == 'a'
  {
    assert ADDRESS[0] == 'a' && SERVER[0] == 's';
  }

  lemma {:induction false} LastSlashBeyond(d: string, tail: string)
    requires tail == "" || '/' in tail
    ensures var i := LastSlash(d + "/" + tail); i.Some? && (i.value > |d| || i.value + 1 == |d + "/" + tail|)
    decreases |tail|
  {
    var s := d + "/" + tail;
    if tail != "" && tail[|tail| - 1] != '/' {
      var init := tail[..|tail| - 1];
      assert tail == init + [tail[|tail| - 1]];
      assert s[..|s| - 1] == d + "/" + init && s[|s| - 1] == tail[|tail| - 1];
      LastSlashBeyond(d, init);
    } else {
      assert s[|s| - 1] == '/';
    }
  }

  lemma {:induction false} TrimEndKeepsSlash(s: string)
    requires '/' in s
    ensures '/' in TrimEnd(s)
  {
    if IsBlank(s[|s| - 1]) {
      assert s == s[..|s| - 1] + [s[|s| - 1]];
      TrimEndKeepsSlash(s[..|s| - 1]);
    }
  }

  lemma RelayLineReads(d: string, ip: string)
    requires PatternOk(d) && IpOk(ip)
    ensures RuleOf(RelayLine(d, ip)) == Some(Rule(d, Relay))
  {
    RelayLineTrims(d, ip);
    var t := Trim(RelayLine(d, ip));
    AddressParses(t, d, TrimEnd(ip));
    assert ADDRESS[0] == 'a' && t[0] == 'a';
  }

  lemma AddressParses(t: string, d: string, ip: string)
    requires t == ADDRESS + d + "/" + ip && '/' !in ip && ip != "" && d != "" && Lower(d) == d
    ensures ParseAddressLine(t) == Some(d)
  {
    hide LastSlash, Lower;
    AfterPrefix(ADDRESS, d + "/" + ip, d);
    assert t == ADDRESS + (d + "/" + ip);
    LastSlashAt(d, ip);
  }

  lemma AfterPrefix(prefix: string, rest: string, d: string)
    ensures d <= rest ==> prefix <= prefix + rest && (prefix + rest)[|prefix|..] == rest && rest[..|d|] == d
  {
  }

  lemma {:induction false} LastSlashAt(d: string, ip: string)
    requires '/' !in ip
    ensures LastSlash(d + "/" + ip) == Some(|d|)
  {
    var s := d + "/" + ip;
    if ip != "" {
      assert s[..|s| - 1] == d + "/" + ip[..|ip| - 1];
      assert s[|s| - 1] == ip[|ip| - 1];
      LastSlashAt(d, ip[..|ip| - 1]);
    }
  }

  lemma BypassLineReads(d: string)
    requires PatternOk(d)
    ensures OneLine(BypassLine(d)) && Managed(BypassLine(d))
    ensures RuleOf(BypassLine(d)) == Some(Rule(d, Bypass))
  {
  }

  // ------------------------------------------------------------- saved patterns

  /** Every pattern to be saved is on one line. */
  ghost predicate OneLinePatterns(domains: seq<DnsDomain>) {
    forall p | p in RelaySet(domains) + BypassSet(domains) :: OneLine(p)
  }

  lemma PatternsAreNormal(domains: seq<DnsDomain>)
    ensures forall p | p in RelaySet(domains) + BypassSet(domains) :: p != "" && Lower(p) == p
  {
  }

  ghost function RelayRules(domains: seq<DnsDomain>): set<Rule> {
    set p | p in RelaySet(domains) :: Rule(p, Relay)
  }

  ghost function BypassRules(domains: seq<DnsDomain>): set<Rule> {
    set p | p in BypassSet(domains) :: Rule(p, Bypass)
  }

  lemma RelayBlockLines(domains: seq<DnsDomain>, ip: string)
    requires OneLinePatterns(domains) && OneLine(ip)
    ensures var ls := RelayLines(Ascending(RelaySet(domains)), ip);
            && ManagedLinesOnly(ls) && (IpOk(ip) ==> RulesOf(ls) == RelayRules(domains))
            && (forall r | r in RulesOf(ls) :: r.mode == Relay) && (RelaySet(domains) == {} ==> RulesOf(ls) == {})
  {
    hide RuleOf, RelayLine, IpOk, RelaySet, BypassSet, Ascending, RulesOf, Managed, OneLine;
    var relay := RelaySet(domains);
    var ds := Ascending(relay);
    AscendingLists(relay);
    PatternsAreNormal(domains);
    var ls := RelayLines(ds, ip);
    forall i | 0 <= i < |ds|
      ensures OneLine(ls[i]) && Managed(ls[i]) && (IpOk(ip) ==> RuleOf(ls[i]) == Some(Rule(ds[i], Relay)))
      ensures RuleOf(ls[i]).Some? ==> RuleOf(ls[i]).value.mode == Relay
    {
      assert ds[i] in relay && ds[i] in relay + BypassSet(domains);
      RelayLineManaged(ds[i], ip);
      if IpOk(ip) {
        RelayLineReads(ds[i], ip);
      }
    }
    RelaysOnly(ls);
    if IpOk(ip) {
      RulesByIndex(ls, ds, Relay);
      assert RelayRules(domains) == set d | d in ds :: Rule(d, Relay);
    }
  }

  lemma RelaysOnly(ls: seq<string>)
    requires forall i | 0 <= i < |ls| :: RuleOf(ls[i]).Some? ==> RuleOf(ls[i]).value.mode == Relay
    ensures (forall r | r in RulesOf(ls) :: r.mode == Relay) && (ls == [] ==> RulesOf(ls) == {})
  {
    hide RuleOf;
  }

  lemma {:induction false} ShortestExists(s: set<string>, d: string)
    requires d in s
    ensures exists m :: m in s && forall x | x in s :: |m| <= |x|
    decreases |d|
  {
    if x :| x in s && |x| < |d| {
      ShortestExists(s, x);
    }
  }

  /** With such an address some relay rule is not on any line of its block: the one with the shortest pattern. */
  lemma BadAddressLoses(domains: seq<DnsDomain>, ip: string)
    requires OneLinePatterns(domains) && OneLine(ip) && !IpOk(ip) && RelaySet(domains) != {}
    ensures exists d :: d in RelaySet(domains) && Rule(d, Relay) !in RulesOf(RelayLines(Ascending(RelaySet(domains)), ip))
  {
    hide RuleOf, RulesOf, RelayLine, IpOk, RelaySet, BypassSet, Ascending;
    var relay := RelaySet(domains);
    var ds := Ascending(relay);
    AscendingLists(relay);
    PatternsAreNormal(domains);
    var any :| any in relay;
    ShortestExists(relay, any);
    var d :| d in relay && forall x | x in relay :: |d| <= |x|;
    forall i | 0 <= i < |ds|
      ensures RuleOf(RelayLine(ds[i], ip)) != Some(Rule(d, Relay))
    {
      assert ds[i] in relay && ds[i] in relay + BypassSet(domains);
      BadAddressReads(ds[i], ip);
    }
    OnNoLine(RelayLines(ds, ip), Rule(d, Relay));
  }

  lemma OnNoLine(ls: seq<string>, r: Rule)
    requires forall i | 0 <= i < |ls| :: RuleOf(ls[i]) != Some(r)
    ensures r !in RulesOf(ls)
  {
    hide RuleOf;
  }

  lemma BypassBlockLines(domains: seq<DnsDomain>)
    requires OneLinePatterns(domains)
    ensures var ls := BypassLines(Ascending(BypassSet(domains)));
            ManagedLinesOnly(ls) && RulesOf(ls) == BypassRules(domains)
  {
    var ds := Ascending(BypassSet(domains));
    AscendingLists(BypassSet(domains));
    PatternsAreNormal(domains);
    var ls := BypassLines(ds);
    hide RuleOf;
    hide BypassLine;
    forall i | 0 <= i < |ds|
      ensures OneLine(ls[i]) && Managed(ls[i]) && RuleOf(ls[i]) == Some(Rule(ds[i], Bypass))
    {
      assert ds[i] in BypassSet(domains);
      BypassLineReads(ds[i]);
    }
    RulesByIndex(ls, ds, Bypass);
  }

  lemma RulesByIndex(ls: seq<string>, ds: seq<string>, mode: Mode)
    ensures (|ls| == |ds| && forall i | 0 <= i < |ls| :: RuleOf(ls[i]) == Some(Rule(ds[i], mode))) ==>
      RulesOf(ls) == set d | d in ds :: Rule(d, mode)
  {
  }

  // -------------------------------------------------------------- saved files

  /** Each file after a save, from the same file before. */
  lemma SavedFile(files: Files, paths: Paths, domains: seq<DnsDomain>, p: Path)
    requires paths.relayIp != ""
    ensures var files' := Saved(files, paths, domains);
            var relay, bypass := RelayBlock(domains, paths.relayIp), BypassBlock(domains);
            && files'.Keys == files.Keys + {paths.relayFile, paths.bypassFile}
            && (p == paths.relayFile != paths.bypassFile ==> files'[p] == ManagedText(Read(files, p), relay))
            && (p == paths.bypassFile != paths.relayFile ==> files'[p] == ManagedText(Read(files, p), bypass))
            && (p == paths.bypassFile == paths.relayFile ==> files'[p] == ManagedText(ManagedText(Read(files, p), relay), bypass))
            && (p in files && p != paths.relayFile && p != paths.bypassFile ==>
                  files'[p] == if Loaded(paths, p) then StripManaged(files[p]) else files[p])
  {
    hide ManagedText;
    hide StripManaged;
    hide RelayBlock;
    hide BypassBlock;
  }

  lemma RulesOfText(text: string)
    ensures RulesOf(Norm(text)) == RulesOf(Lines(text))
  {
    LineTestsCrBlind();
    var ls, ns := Lines(text), Norm(text);
    assert forall i | 0 <= i < |ls| :: ns[i] == DropCrs(ls[i]);
    hide RuleOf;
  }

  lemma InLoadedRules(files: Files, paths: Paths, r: Rule)
    ensures r in LoadedRules(files, paths) <==> exists p :: p in files && Loaded(paths, p) && r in RulesOf(Norm(files[p]))
  {
    hide RuleOf;
    hide Loaded;
    hide Norm;
    hide Lines;
    forall p | p in files
      ensures RulesOf(Norm(files[p])) == RulesOf(Lines(files[p]))
    {
      RulesOfText(files[p]);
    }
    if r in LoadedRules(files, paths) {
      var p, l :| p in files && Loaded(paths, p) && l in Lines(files[p]) && RuleOf(l) == Some(r);
      assert r in RulesOf(Lines(files[p]));
    }
  }

  lemma StrippedHasNoRules(text: string)
    ensures Norm(StripManaged(text)) == Filter(Norm(text), Unmanaged)
    ensures RulesOf(Norm(StripManaged(text))) == {}
  {
    LineTestsCrBlind();
    NormOfStrip(text, Unmanaged);
    FilterIn(Norm(text), Unmanaged);
    forall l | l in Filter(Norm(text), Unmanaged)
      ensures RuleOf(l) == None
    {
      ManagedLines(l);
    }
  }

  /** The rules of each file after a save, for any patterns and any relay address. */
  lemma SavedFileRules(files: Files, paths: Paths, domains: seq<DnsDomain>, p: Path)
    requires paths.relayIp != "" && p in Saved(files, paths, domains) && Loaded(paths, p)
    ensures RulesOf(Norm(Saved(files, paths, domains)[p])) ==
            if p == paths.bypassFile then RulesOf(Norm(BypassBlock(domains)))
            else if p == paths.relayFile then RulesOf(Norm(RelayBlock(domains, paths.relayIp)))
            else {}
  {
    SavedFile(files, paths, domains, p);
    hide *;
    var relay, bypass := RelayBlock(domains, paths.relayIp), BypassBlock(domains);
    if p == paths.bypassFile == paths.relayFile {
      RewrittenFile(ManagedText(Read(files, p), relay), bypass);
    } else if p == paths.bypassFile {
      RewrittenFile(Read(files, p), bypass);
    } else if p == paths.relayFile {
      RewrittenFile(Read(files, p), relay);
    } else {
      StrippedHasNoRules(files[p]);
    }
  }

  /** What is loaded after a save: the rules on the lines of the blocks that are still there. */
  lemma LoadAfterSave(files: Files, paths: Paths, domains: seq<DnsDomain>)
    requires paths.relayIp != ""
    ensures LoadedRules(Saved(files, paths, domains), paths) ==
            (if Loaded(paths, paths.relayFile) && paths.relayFile != paths.bypassFile
             then RulesOf(Norm(RelayBlock(domains, paths.relayIp))) else {})
            + (if Loaded(paths, paths.bypassFile) then RulesOf(Norm(BypassBlock(domains))) else {})
  {
    var files' := Saved(files, paths, domains);
    SavedFile(files, paths, domains, paths.relayFile);
    hide *;
    var relay, bypass := RulesOf(Norm(RelayBlock(domains, paths.relayIp))), RulesOf(Norm(BypassBlock(domains)));
    forall p | p in files' && Loaded(paths, p)
      ensures RulesOf(Norm(files'[p])) == if p == paths.bypassFile then bypass else if p == paths.relayFile then relay else {}
    {
      SavedFileRules(files, paths, domains, p);
    }
    UnionOverFiles(files', paths, relay, bypass);
  }

  /**
   With patterns and address on one line the blocks hold nothing foreign; they hold exactly
   the rules, but for the relay rules if the address is blank or has a slash.
   */
  lemma CleanBlocks(domains: seq<DnsDomain>, ip: string)
    requires OneLinePatterns(domains) && OneLine(ip)
    ensures ForeignOf(RelayBlock(domains, ip)) == [] && ForeignOf(BypassBlock(domains)) == []
    ensures IpOk(ip) ==> RulesOf(Norm(RelayBlock(domains, ip))) == RelayRules(domains)
    ensures forall r | r in RulesOf(Norm(RelayBlock(domains, ip))) :: r.mode == Relay
    ensures RelaySet(domains) == {} ==> RulesOf(Norm(RelayBlock(domains, ip))) == {}
    ensures !IpOk(ip) && RelaySet(domains) != {} ==>
      exists d :: d in RelaySet(domains) && Rule(d, Relay) !in RulesOf(Norm(RelayBlock(domains, ip)))
    ensures RulesOf(Norm(BypassBlock(domains))) == BypassRules(domains)
  {
    if !IpOk(ip) && RelaySet(domains) != {} {
      BadAddressLoses(domains, ip);
    }
    RelayBlockLines(domains, ip);
    BypassBlockLines(domains);
    hide *;
    ManagedBlock(RelayLines(Ascending(RelaySet(domains)), ip));
    ManagedBlock(BypassLines(Ascending(BypassSet(domains))));
  }

  lemma UnionOverFiles(files: Files, paths: Paths, relay: set<Rule>, bypass: set<Rule>)
    requires paths.relayFile in files && paths.bypassFile in files
    requires forall p | p in files && Loaded(paths, p) ::
               RulesOf(Norm(files[p])) == if p == paths.bypassFile then bypass else if p == paths.relayFile then relay else {}
    ensures LoadedRules(files, paths) ==
            (if Loaded(paths, paths.relayFile) && paths.relayFile != paths.bypassFile then relay else {})
            + (if Loaded(paths, paths.bypassFile) then bypass else {})
  {
    hide RulesOf;
    hide Norm;
    hide Loaded;
    hide LoadedRules;
    forall r
      ensures r in LoadedRules(files, paths) <==>
        || (r in relay && Loaded(paths, paths.relayFile) && paths.relayFile != paths.bypassFile)
        || (r in bypass && Loaded(paths, paths.bypassFile))
    {
      InLoadedRules(files, paths, r);
    }
  }

  lemma LoadedPatternsAreOneLine(files: Files, paths: Paths)
    ensures forall r | r in LoadedRules(files, paths) :: OneLine(r.pattern)
  {
    forall p, l | p in files && Loaded(paths, p) && l in Lines(files[p]) && RuleOf(l).Some?
      ensures OneLine(RuleOf(l).value.pattern)
    {
      LinesAreOneLine(files[p]);
      RulePatternIsOneLine(l);
    }
  }

  lemma RulePatternIsOneLine(l: string)
    requires OneLine(l)
    ensures RuleOf(l).Some? ==> OneLine(RuleOf(l).value.pattern)
  {
    TrimOneLine(l);
    assert forall s: string :: OneLine(s) ==> OneLine(Lower(s)) by {
      forall s: string | OneLine(s)
        ensures OneLine(Lower(s))
      {
        assert forall i | 0 <= i < |s| :: s[i] in s && Lower(s)[i] == LowerChar(s[i]);
      }
    }
  }

  // ------------------------------------------------------------- main theorems

  /** What it takes for the relay rules and the bypass rules to be read back. */
  ghost predicate ReadsBack(paths: Paths, domains: seq<DnsDomain>) {
    && OneLinePatterns(domains)
    && (RelaySet(domains) != {} ==>
          Loaded(paths, paths.relayFile) && paths.relayFile != paths.bypassFile && IpOk(paths.relayIp))
    && (BypassSet(domains) != {} ==> Loaded(paths, paths.bypassFile))
  }

  /**
   The round trip: whatever all the files held before, loading after a save gives exactly
   the normalised rules, a bypass winning over a relay of the same pattern, if and only if
   every pattern is on one line, the bypass file is a conf file of the directory if there
   are bypass rules, and if there are relay rules so is the relay file, it is not the bypass
   file, and the address is neither blank nor has a slash.
   */
  lemma RoundTrip(files: Files, paths: Paths, domains: seq<DnsDomain>)
    requires paths.relayIp != "" && OneLine(paths.relayIp)
    ensures LoadedRules(Saved(files, paths, domains), paths) == NormalRules(domains) <==> ReadsBack(paths, domains)
  {
    hide Saved, Loaded, LoadedRules, RelaySet, BypassSet, RulesOf, Norm, RelayBlock, BypassBlock, IpOk;
    var loaded := LoadedRules(Saved(files, paths, domains), paths);
    if OneLinePatterns(domains) {
      LoadAfterSave(files, paths, domains);
      CleanBlocks(domains, paths.relayIp);
      hide OneLinePatterns;
      var relay, bypass := RulesOf(Norm(RelayBlock(domains, paths.relayIp))), BypassRules(domains);
      if !ReadsBack(paths, domains) {
        RuleIsLost(paths, domains, loaded, relay);
      }
    } else {
      LoadedPatternsAreOneLine(Saved(files, paths, domains), paths);
      var p :| p in RelaySet(domains) + BypassSet(domains) && !OneLine(p);
      assert Rule(p, Relay) in NormalRules(domains) || Rule(p, Bypass) in NormalRules(domains);
    }
  }

  lemma RuleIsLost(paths: Paths, domains: seq<DnsDomain>, loaded: set<Rule>, relay: set<Rule>)
    requires OneLinePatterns(domains) && !ReadsBack(paths, domains)
    requires loaded == (if Loaded(paths, paths.relayFile) && paths.relayFile != paths.bypassFile then relay else {})
                       + (if Loaded(paths, paths.bypassFile) then BypassRules(domains) else {})
    requires IpOk(paths.relayIp) ==> relay == RelayRules(domains)
    requires !IpOk(paths.relayIp) && RelaySet(domains) != {} ==> exists d :: d in RelaySet(domains) && Rule(d, Relay) !in relay
    requires forall r | r in relay :: r.mode == Relay
    ensures loaded != NormalRules(domains)
  {
    hide Loaded, RelaySet, BypassSet, IpOk, OneLinePatterns;
    if BypassSet(domains) != {} && !Loaded(paths, paths.bypassFile) {
      var p :| p in BypassSet(domains);
      assert Rule(p, Bypass) in NormalRules(domains) && Rule(p, Bypass) !in loaded;
    } else if IpOk(paths.relayIp) {
      var p :| p in RelaySet(domains);
      assert Rule(p, Relay) in NormalRules(domains) && Rule(p, Relay) !in loaded;
    } else {
      var p :| p in RelaySet(domains) && Rule(p, Relay) !in relay;
      assert Rule(p, Relay) in NormalRules(domains) && Rule(p, Relay) !in loaded;
    }
  }

  // -------------------------------------------------------------- preservation

  function Copies(x: string, n: nat): (r: seq<string>)
    ensures |r| == n
  {
    seq(n, _ => x)
  }

  /** How many times `n` saves rewrite a managed file. */
  function Rewrites(paths: Paths, n: nat): nat {
    if paths.relayIp == "" then 0 else if paths.relayFile == paths.bypassFile then 2 * n else n
  }

  predicate IsManagedFile(paths: Paths, p: Path) {
    p == paths.relayFile || p == paths.bypassFile
  }

  /** The lines that `n` saves put in front of the foreign lines of a file. */
  function Added(paths: Paths, p: Path, n: nat): seq<string> {
    if IsManagedFile(paths, p) then Copies(NOTICE, Rewrites(paths, n)) else []
  }

  /**
   The lines a save puts behind the foreign lines of a file: those lines of its blocks that
   are not managed rules, which only a newline in a pattern or in the address can bring about.
   */
  ghost function InjectedOnce(paths: Paths, domains: seq<DnsDomain>, p: Path): seq<string> {
    if paths.relayIp == "" then []
    else
      (if p == paths.relayFile then ForeignOf(RelayBlock(domains, paths.relayIp)) else [])
      + (if p == paths.bypassFile then ForeignOf(BypassBlock(domains)) else [])
  }

  ghost function Injected(paths: Paths, saves: seq<seq<DnsDomain>>, p: Path): seq<string>
    decreases saves
  {
    if saves == [] then [] else InjectedOnce(paths, saves[0], p) + Injected(paths, saves[1..], p)
  }

  /** Any number of saves, one after the other. */
  ghost function SaveAll(files: Files, paths: Paths, saves: seq<seq<DnsDomain>>): Files
    decreases saves
  {
    if saves == [] then files else SaveAll(Saved(files, paths, saves[0]), paths, saves[1..])
  }

  /** One save: a managed file gains a notice for each time it is rewritten, and what is injected. */
  lemma ManagedFileForeign(files: Files, paths: Paths, domains: seq<DnsDomain>, p: Path)
    requires paths.relayIp != "" && IsManagedFile(paths, p)
    ensures p in Saved(files, paths, domains)
    ensures ForeignOf(Saved(files, paths, domains)[p]) ==
            Copies(NOTICE, Rewrites(paths, 1)) + ForeignOf(Read(files, p)) + InjectedOnce(paths, domains, p)
  {
    SavedFile(files, paths, domains, p);
    hide ForeignOf, Saved, ManagedText, RelayBlock, BypassBlock, RulesOf, Norm, Filter, IsDirective, DirectivesOf;
    var relay, bypass := RelayBlock(domains, paths.relayIp), BypassBlock(domains);
    var existing := Read(files, p);
    var foreign := ForeignOf(existing);
    if paths.relayFile == paths.bypassFile {
      RewrittenFile(existing, relay);
      RewrittenFile(ManagedText(existing, relay), bypass);
      TwiceAround(NOTICE, foreign, ForeignOf(relay), ForeignOf(bypass));
    } else if p == paths.relayFile {
      RewrittenFile(existing, relay);
      OnceAround(NOTICE, foreign, ForeignOf(relay));
    } else {
      RewrittenFile(existing, bypass);
      OnceAround(NOTICE, foreign, ForeignOf(bypass));
    }
  }

  lemma OnceAround(n: string, f: seq<string>, i: seq<string>)
    ensures [n] + f + i == Copies(n, 1) + f + i && i + [] == i == [] + i
  {
  }

  lemma TwiceAround(n: string, f: seq<string>, i: seq<string>, j: seq<string>)
    ensures [n] + ([n] + f + i) + j == Copies(n, 2) + f + (i + j)
  {
  }

  /** One save: any other file of the directory loses its managed lines and nothing else. */
  lemma OtherFileLines(files: Files, paths: Paths, domains: seq<DnsDomain>, p: Path)
    requires paths.relayIp != "" && p in files && !IsManagedFile(paths, p)
    ensures p in Saved(files, paths, domains)
    ensures var text := Saved(files, paths, domains)[p];
            && Norm(text) == (if Loaded(paths, p) then Filter(Norm(files[p]), Unmanaged) else Norm(files[p]))
            && ForeignOf(text) == ForeignOf(files[p])
  {
    SavedFile(files, paths, domains, p);
    hide RulesOf;
    hide Norm;
    hide Saved;
    StrippedHasNoRules(files[p]);
    FilterTwice(Norm(files[p]), Unmanaged, IsForeign);
  }

  lemma OneSaveForeign(files: Files, paths: Paths, domains: seq<DnsDomain>, p: Path)
    ensures ForeignOf(Read(Saved(files, paths, domains), p)) ==
            Added(paths, p, 1) + ForeignOf(Read(files, p)) + InjectedOnce(paths, domains, p)
  {
    hide ForeignOf, Norm, Copies, RelayBlock, BypassBlock, Filter, ManagedText, StripManaged, Loaded;
    var foreign := ForeignOf(Read(files, p));
    assert [] + foreign + [] == foreign;
    if paths.relayIp != "" {
      SavedFile(files, paths, domains, p);
      hide Saved;
      if IsManagedFile(paths, p) {
        ManagedFileForeign(files, paths, domains, p);
      } else if p in files {
        OtherFileLines(files, paths, domains, p);
      }
    } else {
      NoCopies();
    }
  }

  lemma NoCopies()
    ensures Copies(NOTICE, 0) == []
  {
  }

  /**
   Preservation: over any number of saves, for any patterns and any relay address, the
   foreign lines of every file survive in order in their own file. A managed file gains in
   front of them one copy of the notice line for each time it was rewritten, since the
   banner stripping misses it, and behind them what the saves inject.
   */
  lemma {:induction false} ForeignLinesSurvive(files: Files, paths: Paths, saves: seq<seq<DnsDomain>>, p: Path)
    ensures ForeignOf(Read(SaveAll(files, paths, saves), p)) ==
            Added(paths, p, |saves|) + ForeignOf(Read(files, p)) + Injected(paths, saves, p)
    decreases saves
  {
    hide ForeignOf, Saved, InjectedOnce;
    var foreign := ForeignOf(Read(files, p));
    if saves != [] {
      var n := |saves| - 1;
      var first, rest := InjectedOnce(paths, saves[0], p), Injected(paths, saves[1..], p);
      ForeignLinesSurvive(Saved(files, paths, saves[0]), paths, saves[1..], p);
      OneSaveForeign(files, paths, saves[0], p);
      hide Added;
    }
  }

  /** Patterns and an address on one line inject nothing. */
  lemma {:induction false} NothingInjected(paths: Paths, saves: seq<seq<DnsDomain>>, p: Path)
    requires OneLine(paths.relayIp) && forall d | d in saves :: OneLinePatterns(d)
    ensures Injected(paths, saves, p) == []
    decreases saves
  {
    hide ForeignOf, OneLinePatterns, RelayBlock, BypassBlock, RulesOf;
    if saves != [] {
      CleanBlocks(saves[0], paths.relayIp);
      NothingInjected(paths, saves[1..], p);
    }
  }

  // ------------------------------------------------------------- repeated saves

  /** The last block written to a managed file. */
  ghost function LastBlock(paths: Paths, domains: seq<DnsDomain>, p: Path): string {
    if p == paths.bypassFile then BypassBlock(domains) else RelayBlock(domains, paths.relayIp)
  }

  /** What the first of two rewrites of a shared file leaves to the second. */
  ghost function Residue(paths: Paths, domains: seq<DnsDomain>): seq<string> {
    if paths.relayFile == paths.bypassFile then Filter(ForeignOf(RelayBlock(domains, paths.relayIp)), IsDirective) else []
  }

  /** The directives of a managed file: the foreign ones it had, then those of the blocks. */
  lemma SavedDirectives(files: Files, paths: Paths, domains: seq<DnsDomain>, p: Path)
    requires paths.relayIp != "" && IsManagedFile(paths, p)
    ensures p in Saved(files, paths, domains)
    ensures DirectivesOf(Saved(files, paths, domains)[p]) ==
            Filter(ForeignOf(Read(files, p)), IsDirective) + Residue(paths, domains)
            + DirectivesOf(LastBlock(paths, domains, p))
  {
    SavedFile(files, paths, domains, p);
    hide ForeignOf, Saved, ManagedText, RelayBlock, BypassBlock, RulesOf, Norm, Filter, IsDirective, DirectivesOf;
    var relay, bypass := RelayBlock(domains, paths.relayIp), BypassBlock(domains);
    var existing := Read(files, p);
    var foreign := ForeignOf(existing);
    if paths.relayFile == paths.bypassFile {
      RewrittenFile(existing, relay);
      RewrittenFile(ManagedText(existing, relay), bypass);
      OnceAround(NOTICE, foreign, ForeignOf(relay));
      CommentsAround(1, foreign, ForeignOf(relay));
    } else {
      RewrittenFile(existing, LastBlock(paths, domains, p));
      var kept := Filter(foreign, IsDirective);
      assert kept + [] == kept;
    }
  }

  lemma CommentsAround(n: nat, f: seq<string>, i: seq<string>)
    ensures Filter(Copies(NOTICE, n) + f + i, IsDirective) == Filter(f, IsDirective) + Filter(i, IsDirective)
  {
    OurComments();
    hide IsDirective, Filter;
    ThreeParts(Copies(NOTICE, n), f, i, IsDirective);
    FilterNone(Copies(NOTICE, n), IsDirective);
    var kept := Filter(f, IsDirective);
    assert [] + kept == kept;
  }

  /**
   A repeated save changes no loaded rule. It leaves the directives of a file as they are,
   in order, if and only if no directive is injected into it: an injected one is kept as
   foreign and then written once more.
   */
  lemma RepeatedSave(files: Files, paths: Paths, domains: seq<DnsDomain>, p: Path)
    ensures var once := Saved(files, paths, domains);
            var twice := Saved(once, paths, domains);
            && twice.Keys == once.Keys
            && LoadedRules(twice, paths) == LoadedRules(once, paths)
            && (p in once ==>
                  (DirectivesOf(twice[p]) == DirectivesOf(once[p]) <==>
                     Filter(InjectedOnce(paths, domains, p), IsDirective) == []))
  {
    var once := Saved(files, paths, domains);
    if paths.relayIp == "" {
      assert Filter(InjectedOnce(paths, domains, p), IsDirective) == [];
    } else {
      LoadAfterSave(files, paths, domains);
      LoadAfterSave(once, paths, domains);
      SavedFile(files, paths, domains, p);
      SavedFile(once, paths, domains, p);
      hide *;
      if p in once {
        RepeatedDirectives(files, paths, domains, p);
      }
    }
  }

  lemma RepeatedDirectives(files: Files, paths: Paths, domains: seq<DnsDomain>, p: Path)
    requires paths.relayIp != "" && p in Saved(files, paths, domains)
    ensures var once := Saved(files, paths, domains);
            var twice := Saved(once, paths, domains);
            && p in twice
            && (DirectivesOf(twice[p]) == DirectivesOf(once[p]) <==> Filter(InjectedOnce(paths, domains, p), IsDirective) == [])
  {
    var once := Saved(files, paths, domains);
    SavedFile(files, paths, domains, p);
    SavedFile(once, paths, domains, p);
    if IsManagedFile(paths, p) {
      ManagedRepeat(files, paths, domains, p);
    } else {
      hide Saved, Norm, ForeignOf, IsDirective, IsForeign, Managed, InjectedOnce;
      OtherFileLines(files, paths, domains, p);
      OtherFileLines(once, paths, domains, p);
      FilterTwice(Norm(files[p]), Unmanaged, Unmanaged);
    }
  }

  lemma ManagedRepeat(files: Files, paths: Paths, domains: seq<DnsDomain>, p: Path)
    requires paths.relayIp != "" && IsManagedFile(paths, p)
    ensures var once := Saved(files, paths, domains);
            var twice := Saved(once, paths, domains);
            && p in once && p in twice
            && (DirectivesOf(twice[p]) == DirectivesOf(once[p]) <==> Filter(InjectedOnce(paths, domains, p), IsDirective) == [])
  {
    hide *;
    var once := Saved(files, paths, domains);
    ManagedFileForeign(files, paths, domains, p);
    SavedDirectives(files, paths, domains, p);
    SavedDirectives(once, paths, domains, p);
    ReadAt(once, p);
    var foreign, injected := ForeignOf(Read(files, p)), InjectedOnce(paths, domains, p);
    CommentsAround(Rewrites(paths, 1), foreign, injected);
    SameIfNone(Filter(foreign, IsDirective), Filter(injected, IsDirective), Residue(paths, domains), DirectivesOf(LastBlock(paths, domains, p)));
  }

  lemma ReadAt(files: Files, p: Path)
    ensures p in files ==> Read(files, p) == files[p]
  {
  }

  lemma SameIfNone(a: seq<string>, i: seq<string>, r: seq<string>, b: seq<string>)
    ensures a + i + r + b == a + r + b <==> i == []
  {
    assert |a + i + r + b| == |a + r + b| + |i|;
    if i == [] {
      assert a + i == a;
    }
  }
}
