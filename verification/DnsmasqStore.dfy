/**
 The panel's dnsmasq rules: loaded from every conf file of a directory, and saved into a
 relay file and a bypass file, taken out of all the others, and leaving every line the
 panel does not manage where it was.
 */
module DnsmasqStore {
  import opened Wrappers
  import opened Text
  import opened Order
  import opened ConfText

  datatype Path = Path(dir: string, name: string)

  datatype Mode = Relay | Bypass

  datatype Rule = Rule(pattern: string, mode: Mode)

  /** A rule as the panel sends it: any strings at all. */
  datatype DnsDomain = DnsDomain(pattern: string, mode: string)

  datatype Paths = Paths(confDir: string, relayFile: Path, bypassFile: Path, relayIp: string)

  type Files = map<Path, string>

  const ADDRESS := "address=/"
  const SERVER := "server=/"
  const MANAGED_BY := "# Managed by SNIrelay"
  const DO_NOT_EDIT := "# Do not edit by hand while the panel"
  const LONGEST_MATCH := "# Longest-match:"
  const HEADER := MANAGED_BY + " admin panel — domain rules" + " below are rewritten on Save."
  const NOTICE := "# Other" + " directives in this file are preserved."
  const DIVIDER := "# --" + "-----------------------------" + "-----------------------------"

  // ----------------------------------------------------------------- one line

  predicate IsBypassServerLine(t: string) {
    SERVER <= t && EndsWith(t[|SERVER|..], "/#")
  }

  /** The index of the last slash, if there is one. */
  function LastSlash(s: string): (r: Option<nat>)
    ensures r.Some? ==> r.value < |s| && s[r.value] == '/' && '/' !in s[r.value + 1..]
    ensures r.None? ==> '/' !in s
  {
    if s == "" then None
    else if s[|s| - 1] == '/' then Some(|s| - 1)
    else LastSlash(s[..|s| - 1])
  }

  function ParseAddressLine(t: string): Option<string> {
    if !(ADDRESS <= t) then None
    else
      var rest := t[|ADDRESS|..];
      match LastSlash(rest)
      case None => None
      case Some(i) => if i == 0 || i + 1 == |rest| then None else Some(Lower(rest[..i]))
  }

  function ParseBypassLine(t: string): Option<string> {
    if !IsBypassServerLine(t) then None
    else
      var domain := t[|SERVER|..|t| - 2];
      if domain == "" then None else Some(Lower(domain))
  }

  /** The rule on a line, however the line is indented or ended. */
  function RuleOf(l: string): Option<Rule> {
    var t := Trim(l);
    if t == "" || t[0] == '#' then None
    else match ParseAddressLine(t)
      case Some(p) => Some(Rule(p, Relay))
      case None => match ParseBypassLine(t)
        case Some(p) => Some(Rule(p, Bypass))
        case None => None
  }

  /** A line that the panel owns. */
  predicate Managed(l: string) {
    ADDRESS <= Trim(l) || IsBypassServerLine(Trim(l))
  }

  predicate Unmanaged(l: string) {
    !Managed(l)
  }

  /** A line that earlier saves have left, except for `NOTICE`. */
  predicate Banner(l: string) {
    var t := Trim(l);
    || MANAGED_BY <= t
    || DO_NOT_EDIT <= t
    || LONGEST_MATCH <= t
    || t == DIVIDER
  }

  predicate NotBanner(l: string) {
    !Banner(l)
  }

  /** A line of someone else's: neither blank nor managed nor a banner. */
  predicate IsForeign(l: string) {
    Trim(l) != "" && !Managed(l) && !Banner(l)
  }

  /** A line that dnsmasq acts on. */
  predicate IsDirective(l: string) {
    Trim(l) != "" && Trim(l)[0] != '#'
  }

  predicate IsConf(name: string) {
    |name| > 5 && EndsWith(name, ".conf")
  }

  predicate Loaded(paths: Paths, p: Path) {
    p.dir == paths.confDir && IsConf(p.name)
  }

  // ---------------------------------------------------------------- whole texts

  ghost function RulesOf(ls: seq<string>): set<Rule> {
    set l | l in ls && RuleOf(l).Some? :: RuleOf(l).value
  }

  ghost predicate HasRule(text: string, r: Rule) {
    exists l :: l in Lines(text) && RuleOf(l) == Some(r)
  }

  /** The rules in all conf files of the directory. */
  ghost function LoadedRules(files: Files, paths: Paths): set<Rule> {
    set p, l | p in files && Loaded(paths, p) && l in Lines(files[p]) && RuleOf(l).Some? :: RuleOf(l).value
  }

  function StripManaged(text: string): string {
    Unlines(Filter(Lines(text), Unmanaged))
  }

  function StripBanners(text: string): string {
    Unlines(Filter(Lines(text), NotBanner))
  }

  function RelayLine(d: string, ip: string): string {
    ADDRESS + d + "/" + ip
  }

  function BypassLine(d: string): string {
    SERVER + d + "/#"
  }

  ghost function RelayLines(ds: seq<string>, ip: string): seq<string> {
    seq(|ds|, i requires 0 <= i < |ds| => RelayLine(ds[i], ip))
  }

  ghost function BypassLines(ds: seq<string>): seq<string> {
    seq(|ds|, i requires 0 <= i < |ds| => BypassLine(ds[i]))
  }

  /** The text of a managed file after a save. */
  function ManagedText(existing: string, block: string): string {
    var preserved := StripBanners(StripManaged(existing));
    var kept := if Trim(preserved) != "" then preserved + DIVIDER + "\n" else "";
    HEADER + "\n" + (NOTICE + "\n" + (kept + block))
  }

  // -------------------------------------------------------------------- saving

  function Pattern(d: DnsDomain): string {
    Lower(Trim(d.pattern))
  }

  ghost function BypassSet(domains: seq<DnsDomain>): set<string> {
    set d | d in domains && (d.mode == "bypass" || d.mode == "direct") && Pattern(d) != "" :: Pattern(d)
  }

  ghost function OtherSet(domains: seq<DnsDomain>): set<string> {
    set d | d in domains && !(d.mode == "bypass" || d.mode == "direct") && Pattern(d) != "" :: Pattern(d)
  }

  /** Everything that is not a bypass is a relay, but a bypass of the same pattern wins. */
  ghost function RelaySet(domains: seq<DnsDomain>): set<string> {
    OtherSet(domains) - BypassSet(domains)
  }

  ghost function NormalRules(domains: seq<DnsDomain>): set<Rule> {
    (set p | p in RelaySet(domains) :: Rule(p, Relay)) + (set p | p in BypassSet(domains) :: Rule(p, Bypass))
  }

  function Read(files: Files, p: Path): string {
    if p in files then files[p] else ""
  }

  /** Managed lines are taken out of every conf file but the two that are rewritten. */
  function CleanOthers(files: Files, paths: Paths): Files {
    map p | p in files ::
      if Loaded(paths, p) && p != paths.relayFile && p != paths.bypassFile then StripManaged(files[p]) else files[p]
  }

  function WriteManaged(files: Files, p: Path, block: string): Files {
    files[p := ManagedText(Read(files, p), block)]
  }

  ghost function RelayBlock(domains: seq<DnsDomain>, ip: string): string {
    Unlines(RelayLines(Ascending(RelaySet(domains)), ip))
  }

  ghost function BypassBlock(domains: seq<DnsDomain>): string {
    Unlines(BypassLines(Ascending(BypassSet(domains))))
  }

  ghost function Saved(files: Files, paths: Paths, domains: seq<DnsDomain>): Files {
    if paths.relayIp == "" then files
    else
      WriteManaged(
        WriteManaged(CleanOthers(files, paths), paths.relayFile, RelayBlock(domains, paths.relayIp)),
        paths.bypassFile, BypassBlock(domains))
  }

  // ------------------------------------------------------- the program's loops

  method StripManagedLines(text: string) returns (out: string)
    ensures out == StripManaged(text)
  {
    hide Lines, Unlines, Filter, Trim, IsBypassServerLine;
    out := "";
    var ls := Lines(text);
    KeptFrom(ls, 0, Unmanaged);
    for i := 0 to |ls|
      invariant out + Unlines(Filter(ls[i..], Unmanaged)) == StripManaged(text)
    {
      var line := ls[i];
      KeptFrom(ls, i, Unmanaged);
      if !(ADDRESS <= Trim(line) || IsBypassServerLine(Trim(line))) {
        out := out + line + "\n";
      }
    }
    KeptFrom(ls, |ls|, Unmanaged);
  }

  /** The kept lines from one position on: the first, if kept, and those after it. */
  lemma KeptFrom(ls: seq<string>, i: nat, keep: string -> bool)
    requires i <= |ls|
    ensures i == 0 ==> ls[i..] == ls
    ensures var here := Unlines(Filter(ls[i..], keep));
      if i == |ls| then here == ""
      else here == (if keep(ls[i]) then ls[i] + "\n" else "") + Unlines(Filter(ls[i + 1..], keep))
  {
  }

  method StripPanelBanners(text: string) returns (out: string)
    ensures out == StripBanners(text)
  {
    hide Lines, Unlines, Filter, Banner;
    out := "";
    var ls := Lines(text);
    KeptFrom(ls, 0, NotBanner);
    for i := 0 to |ls|
      invariant out + Unlines(Filter(ls[i..], NotBanner)) == StripBanners(text)
    {
      KeptFrom(ls, i, NotBanner);
      if !Banner(ls[i]) {
        out := out + ls[i] + "\n";
      }
    }
    KeptFrom(ls, |ls|, NotBanner);
  }

  lemma NextInOrder(s: set<string>, d: string)
    requires IsLeast(s, d)
    ensures Ascending(s) == [d] + Ascending(s - {d})
  {
    LeastExists(s);
    LeastUnique(s, d, Ascending(s)[0]);
  }

  lemma UnlinesFirst(ls: seq<string>)
    ensures Unlines(ls) == if ls == [] then "" else ls[0] + "\n" + Unlines(ls[1..])
  {
  }

  method RenderRelayLines(domains: set<string>, ip: string) returns (out: string)
    ensures out == Unlines(RelayLines(Ascending(domains), ip))
  {
    hide RelayLine, Ascending, Unlines, Less;
    out := "";
    UnlinesFirst([]);
    var todo := domains;
    while todo != {}
      invariant out + Unlines(RelayLines(Ascending(todo), ip)) == Unlines(RelayLines(Ascending(domains), ip))
      decreases todo
    {
      LeastExists(todo);
      var d :| d in todo && forall x | x in todo :: AtMost(d, x);
      NextInOrder(todo, d);
      var lines := RelayLines(Ascending(todo), ip);
      assert lines[0] == RelayLine(d, ip) && lines[1..] == RelayLines(Ascending(todo - {d}), ip);
      UnlinesFirst(lines);
      out := out + RelayLine(d, ip) + "\n";
      todo := todo - {d};
    }
    AscendingLists(todo);
    assert RelayLines(Ascending(todo), ip) == [];
  }

  method RenderBypassLines(domains: set<string>) returns (out: string)
    ensures out == Unlines(BypassLines(Ascending(domains)))
  {
    hide BypassLine, Ascending, Unlines, Less;
    out := "";
    UnlinesFirst([]);
    var todo := domains;
    while todo != {}
      invariant out + Unlines(BypassLines(Ascending(todo))) == Unlines(BypassLines(Ascending(domains)))
      decreases todo
    {
      LeastExists(todo);
      var d :| d in todo && forall x | x in todo :: AtMost(d, x);
      NextInOrder(todo, d);
      var lines := BypassLines(Ascending(todo));
      assert lines[0] == BypassLine(d) && lines[1..] == BypassLines(Ascending(todo - {d}));
      UnlinesFirst(lines);
      out := out + BypassLine(d) + "\n";
      todo := todo - {d};
    }
    AscendingLists(todo);
    assert BypassLines(Ascending(todo)) == [];
  }

  /** The files of the machine, as the panel sees and changes them. */
  class FileStore {
    const paths: Paths
    var files: Files

    constructor (paths: Paths, files: Files)
      ensures this.paths == paths && this.files == files
    {
      this.paths := paths;
      this.files := files;
    }

    /** Every rule of every conf file, with a file it was found in. */
    method LoadDomains() returns (found: map<Rule, string>)
      ensures found.Keys == LoadedRules(files, paths)
      ensures forall r | r in found :: exists p :: p in files && Loaded(paths, p) && HasRule(files[p], r) && p.name == found[r]
    {
      hide RuleOf;
      hide Lines;
      found := map[];
      var todo := files.Keys;
      ghost var done: set<Path> := {};
      while todo != {}
        invariant todo !! done && todo + done == files.Keys
        invariant forall r :: r in found <==> exists p, l :: p in done && Loaded(paths, p) && l in Lines(files[p]) && RuleOf(l) == Some(r)
        invariant forall r | r in found :: exists p :: p in done && Loaded(paths, p) && HasRule(files[p], r) && p.name == found[r]
        decreases todo
      {
        var path :| path in todo;
        todo, done := todo - {path}, done + {path};
        if Loaded(paths, path) {
          found := LoadFile(files[path], path.name, found);
        }
      }
    }

    method LoadFile(text: string, source: string, before: map<Rule, string>) returns (found: map<Rule, string>)
      ensures forall r :: r in found <==> r in before || exists l :: l in Lines(text) && RuleOf(l) == Some(r)
      ensures forall r | r in found :: (HasRule(text, r) && found[r] == source) || (r in before && found[r] == before[r])
    {
      hide RuleOf;
      hide Lines;
      found := before;
      var ls := Lines(text);
      for i := 0 to |ls|
        invariant forall r :: r in found <==> r in before || exists l :: l in ls[..i] && RuleOf(l) == Some(r)
        invariant forall r | r in found :: (HasRule(text, r) && found[r] == source) || (r in before && found[r] == before[r])
      {
        assert ls[..i + 1] == ls[..i] + [ls[i]];
        var rule := RuleOf(ls[i]);
        if rule.Some? {
          found := found[rule.value := source];
        }
      }
      assert ls[..|ls|] == ls;
    }

    method WriteManagedFile(path: Path, block: string)
      modifies this
      ensures files == WriteManaged(old(files), path, block)
    {
      var existing := if path in files then files[path] else "";
      var preserved := StripManagedLines(existing);
      preserved := StripPanelBanners(preserved);
      EndsInNewline(StripManaged(existing));
      hide StripManaged;
      hide StripBanners;
      var out := Compose(HEADER, NOTICE, DIVIDER, preserved, block);
      files := files[path := out];
    }

    /** The text of a managed file, built up piece by piece. */
    static method Compose(header: string, notice: string, divider: string, preserved: string, block: string) returns (out: string)
      requires preserved == "" || preserved[|preserved| - 1] == '\n'
      ensures var kept := if Trim(preserved) != "" then preserved + divider + "\n" else "";
              out == header + "\n" + (notice + "\n" + (kept + block))
    {
      hide Trim;
      out := header + "\n" + notice + "\n";
      if Trim(preserved) != "" {
        out := out + preserved;
        if out[|out| - 1] != '\n' {
          out := out + "\n";
        }
        out := out + divider + "\n";
      }
      out := out + block;
    }

    method SaveDomains(domains: seq<DnsDomain>) returns (ok: bool)
      modifies this
      ensures ok == (paths.relayIp != "")
      ensures files == Saved(old(files), paths, domains)
    {
      if paths.relayIp == "" {
        return false;
      }
      var relay: set<string>, bypass: set<string> := {}, {};
      for i := 0 to |domains|
        invariant bypass == BypassSet(domains[..i])
        invariant relay == OtherSet(domains[..i])
      {
        assert domains[..i + 1] == domains[..i] + [domains[i]];
        var p := Pattern(domains[i]);
        if p != "" {
          if domains[i].mode == "bypass" || domains[i].mode == "direct" {
            bypass := bypass + {p};
          } else {
            relay := relay + {p};
          }
        }
      }
      assert domains[..|domains|] == domains;
      relay := relay - bypass;
      CleanOtherFiles();
      var relayBlock := RenderRelayLines(relay, paths.relayIp);
      WriteManagedFile(paths.relayFile, relayBlock);
      var bypassBlock := RenderBypassLines(bypass);
      WriteManagedFile(paths.bypassFile, bypassBlock);
      return true;
    }

    /** Managed lines go from every conf file but the two destinations. */
    method CleanOtherFiles()
      modifies this
      ensures files == CleanOthers(old(files), paths)
    {
      var todo := files.Keys;
      while todo != {}
        invariant todo <= files.Keys == old(files).Keys
        invariant forall p | p in files :: files[p] == if p in todo then old(files)[p] else CleanOthers(old(files), paths)[p]
        decreases todo
      {
        var path :| path in todo;
        todo := todo - {path};
        if Loaded(paths, path) && path != paths.relayFile && path != paths.bypassFile {
          var text := files[path];
          var cleaned := StripManagedLines(text);
          if cleaned != text {
            files := files[path := cleaned];
          }
        }
      }
    }
  }

  lemma EndsInNewline(text: string)
    ensures var t := StripBanners(text); t == "" || t[|t| - 1] == '\n'
  {
    UnlinesEnds(Filter(Lines(text), NotBanner));
  }

  lemma {:induction false} UnlinesEnds(ls: seq<string>)
    ensures var t := Unlines(ls); t == "" || t[|t| - 1] == '\n'
  {
    if ls != [] {
      UnlinesEnds(ls[1..]);
    }
  }
}
