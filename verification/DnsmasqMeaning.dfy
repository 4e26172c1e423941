/**
 Saving and loading the dnsmasq rules, told from what the panel sends and from the letters
 on the lines of the files.
 */
module DnsmasqMeaning {
  import opened Wrappers
  import opened Text
  import opened Order
  import opened ConfText
  import opened DnsmasqStore
  import opened DnsmasqTheorems

  // --------------------------------------------------------- what is asked for

  ghost predicate AsksBypass(domains: seq<DnsDomain>, p: string) {
    p != "" && exists d :: d in domains && Lower(Trim(d.pattern)) == p && (d.mode == "bypass" || d.mode == "direct")
  }

  ghost predicate AsksOther(domains: seq<DnsDomain>, p: string) {
    p != "" && exists d :: d in domains && Lower(Trim(d.pattern)) == p && d.mode != "bypass" && d.mode != "direct"
  }

  /** To be relayed: asked for in another mode and nowhere for a bypass. */
  ghost predicate Relayed(domains: seq<DnsDomain>, p: string) {
    AsksOther(domains, p) && !AsksBypass(domains, p)
  }

  lemma SetsAsAsked(domains: seq<DnsDomain>)
    ensures forall p :: p in BypassSet(domains) <==> AsksBypass(domains, p)
    ensures forall p :: p in RelaySet(domains) <==> Relayed(domains, p)
  {
    hide Lower, Trim;
  }

  ghost predicate AskedOnOneLine(domains: seq<DnsDomain>) {
    forall p | AsksBypass(domains, p) || AsksOther(domains, p) :: OneLine(p)
  }

  /** What it takes for what is asked for to be loaded again. */
  ghost predicate Survives(paths: Paths, domains: seq<DnsDomain>) {
    && AskedOnOneLine(domains)
    && ((exists p :: Relayed(domains, p)) ==>
          && Loaded(paths, paths.relayFile) && paths.relayFile != paths.bypassFile
          && Trim(paths.relayIp) != "" && '/' !in paths.relayIp)
    && ((exists p :: AsksBypass(domains, p)) ==> Loaded(paths, paths.bypassFile))
  }

  lemma SurvivesIsReadsBack(paths: Paths, domains: seq<DnsDomain>)
    requires OneLine(paths.relayIp)
    ensures Survives(paths, domains) <==> ReadsBack(paths, domains)
  {
    hide Loaded, Trim, AsksBypass, AsksOther, RelaySet, BypassSet, OneLine;
    SetsAsAsked(domains);
    if ReadsBack(paths, domains) {
      forall p | AsksBypass(domains, p) || AsksOther(domains, p)
        ensures OneLine(p)
      {
        assert p in RelaySet(domains) + BypassSet(domains);
      }
    }
  }

  /**
   The round trip, from what the panel sends alone: a pattern is loaded as a bypass exactly
   if some entry asks for it with mode "bypass" or "direct", and as a relay exactly if some
   entry asks for it with another mode and none with those two, so never as both. This holds
   of whatever the files held before, if and only if the patterns are on one line, the files
   with rules are conf files of the directory, relay rules have a file of their own, and
   their address is neither blank nor has a slash.
   */
  lemma LoadsWhatWasAsked(files: Files, paths: Paths, domains: seq<DnsDomain>)
    requires paths.relayIp != "" && OneLine(paths.relayIp)
    ensures var loaded := LoadedRules(Saved(files, paths, domains), paths);
            Survives(paths, domains) <==>
            forall p :: && (Rule(p, Bypass) in loaded <==> AsksBypass(domains, p))
                        && (Rule(p, Relay) in loaded <==> AsksOther(domains, p) && !AsksBypass(domains, p))
  {
    hide LoadedRules, Saved, Survives, ReadsBack, AsksBypass, AsksOther, RelaySet, BypassSet;
    RoundTrip(files, paths, domains);
    SurvivesIsReadsBack(paths, domains);
    SetsAsAsked(domains);
    var loaded := LoadedRules(Saved(files, paths, domains), paths);
    if forall p :: (Rule(p, Bypass) in loaded <==> AsksBypass(domains, p)) && (Rule(p, Relay) in loaded <==> Relayed(domains, p)) {
      forall r: Rule
        ensures r in loaded <==> r in NormalRules(domains)
      {
        match r
        case Rule(p, Relay) => assert r == Rule(p, Relay);
        case Rule(p, Bypass) => assert r == Rule(p, Bypass);
      }
      assert loaded == NormalRules(domains);
    }
  }

  // -------------------------------------------------------- what is written

  /** The managed lines of a rewritten file are the lines of its block. */
  lemma ManagedLinesAre(existing: string, ls: seq<string>)
    requires ManagedLinesOnly(ls)
    ensures forall l :: l in Norm(ManagedText(existing, Unlines(ls))) && Managed(l) <==> l in DropAllCrs(ls)
  {
    hide *;
    NormOfManagedText(existing, Unlines(ls));
    BlockLines(ls);
    CommentsUnmanaged();
    KeptUnmanaged(existing);
    var kept := Kept(existing);
    var middle := if forall l | l in kept :: Trim(l) == "" then [] else kept + [DIVIDER];
    InParts([HEADER, NOTICE], middle, DropAllCrs(ls));
  }

  lemma InParts(a: seq<string>, b: seq<string>, c: seq<string>)
    requires (forall l | l in a :: !Managed(l)) && (forall l | l in b :: !Managed(l)) && forall l | l in c :: Managed(l)
    ensures forall l :: l in a + b + c && Managed(l) <==> l in c
  {
    hide Managed;
  }

  lemma KeptUnmanaged(existing: string)
    ensures forall l | l in Kept(existing) :: !Managed(l)
  {
    hide Managed, Norm, Banner;
    FilterIn(Norm(existing), Unmanaged);
    FilterIn(Filter(Norm(existing), Unmanaged), NotBanner);
  }

  lemma CommentsUnmanaged()
    ensures !Managed(HEADER) && !Managed(NOTICE) && !Managed(DIVIDER)
  {
    OurComments();
    forall l | l in [HEADER, NOTICE, DIVIDER]
      ensures !Managed(l)
    {
      ManagedLines(l);
    }
  }

  /**
   The letters on the disk: with patterns and address on one line, the managed lines of the
   relay file are one line for each relayed pattern, ending in the relay address, and those
   of the bypass file one line for each bypassed pattern. (Lines are read without the
   carriage returns at their ends, which only an address could bring.)
   */
  lemma LinesWritten(files: Files, paths: Paths, domains: seq<DnsDomain>, l: string)
    requires paths.relayIp != "" && OneLine(paths.relayIp) && AskedOnOneLine(domains)
    ensures var files' := Saved(files, paths, domains);
            && paths.relayFile in files' && paths.bypassFile in files'
            && (paths.relayFile != paths.bypassFile ==>
                  (l in Norm(files'[paths.relayFile]) && Managed(l) <==>
                   exists p :: Relayed(domains, p) && l == DropCrs("address=/" + p + "/" + paths.relayIp)))
            && (l in Norm(files'[paths.bypassFile]) && Managed(l) <==>
                exists p :: AsksBypass(domains, p) && l == "server=/" + p + "/#")
  {
    hide *;
    SetsAsAsked(domains);
    OneLineSets(domains);
    RelayBlockLines(domains, paths.relayIp);
    BypassBlockLines(domains);
    SavedFile(files, paths, domains, paths.relayFile);
    SavedFile(files, paths, domains, paths.bypassFile);
    var relay := RelayLines(Ascending(RelaySet(domains)), paths.relayIp);
    var bypass := BypassLines(Ascending(BypassSet(domains)));
    BlocksAre(domains, paths.relayIp);
    ManagedLinesAre(Read(files, paths.relayFile), relay);
    ManagedLinesAre(Read(files, paths.bypassFile), bypass);
    ManagedLinesAre(ManagedText(Read(files, paths.relayFile), RelayBlock(domains, paths.relayIp)), bypass);
    InRelayLines(RelaySet(domains), paths.relayIp, l);
    InBypassLines(BypassSet(domains), l);
  }

  lemma OneLineSets(domains: seq<DnsDomain>)
    ensures AskedOnOneLine(domains) ==> OneLinePatterns(domains)
  {
    hide Lower, Trim;
    SetsAsAsked(domains);
  }

  lemma BlocksAre(domains: seq<DnsDomain>, ip: string)
    ensures RelayBlock(domains, ip) == Unlines(RelayLines(Ascending(RelaySet(domains)), ip))
    ensures BypassBlock(domains) == Unlines(BypassLines(Ascending(BypassSet(domains))))
  {
  }

  lemma InRelayLines(ds: set<string>, ip: string, l: string)
    ensures l in DropAllCrs(RelayLines(Ascending(ds), ip)) <==> exists p :: p in ds && l == DropCrs("address=/" + p + "/" + ip)
  {
    hide DropCrs, Ascending;
    AscendingLists(ds);
    var lines := DropAllCrs(RelayLines(Ascending(ds), ip));
    assert forall i | 0 <= i < |lines| :: lines[i] == DropCrs("address=/" + Ascending(ds)[i] + "/" + ip);
    forall p | p in ds
      ensures DropCrs("address=/" + p + "/" + ip) in lines
    {
      var i :| 0 <= i < |Ascending(ds)| && Ascending(ds)[i] == p;
      assert lines[i] == DropCrs("address=/" + p + "/" + ip);
    }
  }

  lemma InBypassLines(ds: set<string>, l: string)
    ensures l in DropAllCrs(BypassLines(Ascending(ds))) <==> exists p :: p in ds && l == "server=/" + p + "/#"
  {
    hide DropCrs, Ascending;
    AscendingLists(ds);
    var lines := DropAllCrs(BypassLines(Ascending(ds)));
    forall i | 0 <= i < |lines|
      ensures lines[i] == "server=/" + Ascending(ds)[i] + "/#"
    {
      NoCrAtEnd("server=/" + Ascending(ds)[i] + "/#");
    }
    forall p | p in ds
      ensures "server=/" + p + "/#" in lines
    {
      var i :| 0 <= i < |Ascending(ds)| && Ascending(ds)[i] == p;
      assert lines[i] == "server=/" + p + "/#";
    }
  }

  lemma NoCrAtEnd(l: string)
    ensures l != "" && l[|l| - 1] != '\r' ==> DropCrs(l) == l
  {
  }

  // ---------------------------------------------------- the letters on a line

  /** A line is managed if it is an address line or a server line that ends in "/#". */
  lemma ManagedMeans(l: string)
    ensures Managed(l) <==> (exists x :: Trim(l) == "address=/" + x) || (exists x :: Trim(l) == "server=/" + x + "/#")
  {
    hide Trim;
    var t := Trim(l);
    if "address=/" <= t {
      assert t == "address=/" + t[9..];
    }
    if "server=/" <= t && EndsWith(t[8..], "/#") {
      assert t == "server=/" + t[8..|t| - 2] + "/#";
    }
  }

  /** Foreign is what is not blank, not managed and not one of the four banners. */
  lemma ForeignMeans(l: string)
    ensures IsForeign(l) <==>
            && Trim(l) != "" && !Managed(l)
            && !("# Managed by SNIrelay" <= Trim(l))
            && !("# Do not edit by hand while the panel" <= Trim(l))
            && !("# Longest-match:" <= Trim(l))
            && Trim(l) != "# --" + "-----------------------------" + "-----------------------------"
  {
  }

  /** A line carries a rule if it names a domain, and an address has no slash in it and is not empty. */
  lemma RuleMeans(l: string, p: string)
    ensures RuleOf(l) == Some(Rule(p, Bypass)) <==> exists d :: d != "" && Lower(d) == p && Trim(l) == "server=/" + d + "/#"
    ensures RuleOf(l) == Some(Rule(p, Relay)) <==>
            exists d, a :: d != "" && a != "" && '/' !in a && Lower(d) == p && Trim(l) == "address=/" + d + "/" + a
  {
    hide Trim, ParseAddressLine, ParseBypassLine;
    AddressMeans(Trim(l), p);
    BypassMeans(Trim(l), p);
    FirstLetters(Trim(l));
  }

  lemma FirstLetters(t: string)
    ensures ParseAddressLine(t).Some? ==> t != "" && t[0] == 'a'
    ensures ParseBypassLine(t).Some? ==> t != "" && t[0] == 's' && ParseAddressLine(t).None?
  {
    hide LastSlash;
    assert ADDRESS[0] == 'a' && SERVER[0] == 's';
  }

  lemma AddressMeans(t: string, p: string)
    ensures ParseAddressLine(t) == Some(p) <==>
            exists d, a :: d != "" && a != "" && '/' !in a && Lower(d) == p && t == "address=/" + d + "/" + a
  {
    hide Lower, LastSlash;
    if ParseAddressLine(t) == Some(p) {
      var rest := t[9..];
      var i := LastSlash(rest).value;
      assert rest == rest[..i] + "/" + rest[i + 1..];
      assert t == "address=/" + rest[..i] + "/" + rest[i + 1..];
    }
    forall d, a | d != "" && a != "" && '/' !in a && t == "address=/" + d + "/" + a
      ensures ParseAddressLine(t) == Some(Lower(d))
    {
      assert t == ADDRESS + (d + "/" + a);
      AfterPrefix(ADDRESS, d + "/" + a, d);
      LastSlashAt(d, a);
    }
  }

  lemma BypassMeans(t: string, p: string)
    ensures ParseBypassLine(t) == Some(p) <==> exists d :: d != "" && Lower(d) == p && t == "server=/" + d + "/#"
  {
    hide Lower;
    if ParseBypassLine(t) == Some(p) {
      assert t == "server=/" + t[8..|t| - 2] + "/#";
    }
    forall d | d != "" && t == "server=/" + d + "/#"
      ensures ParseBypassLine(t) == Some(Lower(d))
    {
      assert t[8..] == d + "/#" && t[8..|t| - 2] == d;
    }
  }

  /** A conf file has a name before its suffix. */
  lemma ConfMeans(name: string)
    ensures IsConf(name) <==> exists stem :: stem != "" && name == stem + ".conf"
  {
    if IsConf(name) {
      assert name == name[..|name| - 5] + ".conf";
    }
  }
}
