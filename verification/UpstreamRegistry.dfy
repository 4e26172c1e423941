/**
 The named upstream profiles, the choice of profile for a client address, and the order in
 which profiles are tried. `canon` is the canonical spelling of an address, if it is one.
 */
module UpstreamRegistry {
  import opened Wrappers
  import opened Proxies
  import opened Order
  import opened Sorting
  import ConfText

  type Canon = string -> Option<string>

  /** Canonical spellings are their own canonical spelling. */
  ghost predicate Idempotent(canon: Canon) {
    forall ip :: canon(ip).Some? ==> canon(canon(ip).value) == canon(ip)
  }

  /** The registry as a value. */
  datatype Routing = Routing(profiles: map<string, UpstreamProxy>, default: string, byIp: map<string, string>, failover: bool) {
    /** The default exists and every mapped profile is known. */
    ghost predicate Sound() {
      default in profiles && forall ip | ip in byIp :: byIp[ip] in profiles
    }
  }

  function LookupKey(canon: Canon, ip: string): string {
    match canon(ip) case Some(c) => c case None => ConfText.Trim(ip)
  }

  /** The profile a client address is routed to. */
  function PrimaryName(canon: Canon, r: Routing, ip: string): string {
    var key := LookupKey(canon, ip);
    if key in r.byIp && r.byIp[key] in r.profiles then r.byIp[key] else r.default
  }

  // ----------------------------------------------------------- the failover order

  /** The order in which profiles are tried after the first: the default, then by name. */
  predicate TriedBefore(default: string, a: string, b: string) {
    if a == default && b != default then true
    else if a != default && b == default then false
    else Less(a, b)
  }

  predicate TriedNoLater(default: string, a: string, b: string) {
    a == b || TriedBefore(default, a, b)
  }

  /** The comparison is a strict total order on names. */
  lemma TriedBeforeIsStrictTotal(default: string, a: string, b: string, c: string)
    ensures !TriedBefore(default, a, a)
    ensures a == b || TriedBefore(default, a, b) || TriedBefore(default, b, a)
    ensures !(TriedBefore(default, a, b) && TriedBefore(default, b, a))
    ensures TriedBefore(default, a, b) && TriedBefore(default, b, c) ==> TriedBefore(default, a, c)
  {
    hide Less;
    LessTrichotomous(a, a);
    LessTrichotomous(a, b);
    LessTrichotomous(default, default);
    if Less(a, b) && Less(b, c) {
      LessTransitive(a, b, c);
    }
  }

  lemma TriedOrder(default: string)
    ensures TotalPreorder((a, b) => TriedNoLater(default, a, b))
  {
    forall a, b
      ensures TriedNoLater(default, a, b) || TriedNoLater(default, b, a)
    {
      TriedBeforeIsStrictTotal(default, a, b, b);
    }
    forall a, b, c | TriedNoLater(default, a, b) && TriedNoLater(default, b, c)
      ensures TriedNoLater(default, a, c)
    {
      TriedBeforeIsStrictTotal(default, a, b, c);
    }
  }

  /** First the client's profile; with failover the default next, then the others by name. */
  ghost function CandidateNames(canon: Canon, r: Routing, ip: string): seq<string> {
    var primary := PrimaryName(canon, r, ip);
    if !r.failover then [primary]
    else [primary] + Fallbacks(r.profiles.Keys, r.default, primary)
  }

  ghost predicate WithProxies(out: seq<(string, UpstreamProxy)>, names: seq<string>, profiles: map<string, UpstreamProxy>) {
    && |out| == |names|
    && forall i | 0 <= i < |names| :: names[i] in profiles && out[i] == (names[i], profiles[names[i]])
  }

  ghost function Fallbacks(names: set<string>, default: string, primary: string): seq<string> {
    (if default in names && default != primary then [default] else []) + Ascending(names - {primary, default})
  }

  /** The list holds every element of the set exactly once. */
  ghost predicate Lists<T>(xs: seq<T>, s: set<T>) {
    multiset(xs) == multiset(s)
  }

  /** With failover every profile is tried exactly once. */
  lemma CandidatesAreAPermutation(canon: Canon, r: Routing, ip: string)
    requires r.Sound() && r.failover
    ensures Lists(CandidateNames(canon, r, ip), r.profiles.Keys)
  {
    var primary := PrimaryName(canon, r, ip);
    FallbacksPermute(r.profiles.Keys, r.default, primary);
  }

  /**
   The order: the profile mapped to the client's address, if it is known, or else the default
   comes first. Without failover it is alone; with failover the default comes next unless it
   was first, and the rest follow in ascending order of their names.
   */
  lemma TriedInOrder(canon: Canon, r: Routing, ip: string)
    ensures var names := CandidateNames(canon, r, ip);
      var key := match canon(ip) case Some(c) => c case None => ConfText.Trim(ip);
      && names != [] && names[0] == (if key in r.byIp && r.byIp[key] in r.profiles then r.byIp[key] else r.default)
      && (!r.failover ==> |names| == 1)
      && (r.failover && r.default in r.profiles && r.default != names[0] ==> |names| > 1 && names[1] == r.default)
      && forall i, j | 0 < i < j < |names| && names[i] != r.default :: Less(names[i], names[j])
  {
    hide Less, Ascending;
    var primary := PrimaryName(canon, r, ip);
    AscendingLists(r.profiles.Keys - {primary, r.default});
  }

  lemma FallbacksPermute(names: set<string>, default: string, primary: string)
    requires default in names && primary in names
    ensures Lists([primary] + Fallbacks(names, default, primary), names)
  {
    hide *;
    var rest := names - {primary, default};
    AscendingIsList(rest);
    FallbacksAre(names, default, primary);
    PermuteAll(names, default, primary, Ascending(rest));
  }

  lemma PermuteAll<T>(names: set<T>, default: T, primary: T, others: seq<T>)
    ensures default in names && primary in names && Lists(others, names - {primary, default}) ==>
      Lists([primary] + (if default != primary then [default] + others else others), names)
  {
  }

  lemma {:induction false} AscendingIsList(s: set<string>)
    ensures Lists(Ascending(s), s)
  {
    if s != {} {
      LeastExists(s);
      var m := Ascending(s)[0];
      AscendingIsList(s - {m});
      assert multiset(s) == multiset{m} + multiset(s - {m});
    }
  }

  lemma FallbacksAre(names: set<string>, default: string, primary: string)
    ensures var others := Ascending(names - {primary, default});
      Fallbacks(names, default, primary) == if default in names && default != primary then [default] + others else others
  {
  }

  /** However the names come out of the map, sorting them gives the fallbacks. */
  lemma SortedAreFallbacks(xs: seq<string>, names: set<string>, default: string, primary: string)
    requires Distinct(xs) && Sorted(xs, (a, b) => TriedNoLater(default, a, b))
    requires forall x :: x in xs <==> x in names && x != primary
    ensures xs == Fallbacks(names, default, primary)
  {
    hide *;
    var rest := names - {primary, default};
    if default in names && default != primary {
      var tail := xs[1..];
      DefaultFirst(xs, default);
      TailAscends(tail, default);
      assert (set x | x in tail) == rest by {
        forall x
          ensures x in tail <==> x in rest
        {
          assert x in xs <==> x == default || x in tail;
        }
      }
      AscendingUnique(tail);
    } else {
      TailAscends(xs, default);
      AscendingUnique(xs);
      assert (set x | x in xs) == rest;
    }
    FallbacksAre(names, default, primary);
  }

  lemma DefaultFirst(xs: seq<string>, default: string)
    requires default in xs && Distinct(xs) && Sorted(xs, (a, b) => TriedNoLater(default, a, b))
    ensures xs == [default] + xs[1..] && default !in xs[1..]
    ensures Distinct(xs[1..]) && Sorted(xs[1..], (a, b) => TriedNoLater(default, a, b))
  {
    hide Less;
    var le := (a, b) => TriedNoLater(default, a, b);
    assert forall j | 0 < j < |xs| :: le(xs[0], xs[j]);
    var i :| 0 <= i < |xs| && xs[i] == default;
    assert i == 0;
    var tail := xs[1..];
    assert forall j | 0 <= j < |tail| :: tail[j] == xs[j + 1];
  }

  lemma TailAscends(xs: seq<string>, default: string)
    ensures Distinct(xs) && default !in xs && Sorted(xs, (a, b) => TriedNoLater(default, a, b)) ==>
      StrictlyAscending(xs)
  {
  }

  // ------------------------------------------------------- what the panel can do

  /** `to` is `from` under new keys; where keys meet, one of the entries stays. */
  ghost predicate Rekeyed(from: map<string, string>, to: map<string, string>, key: string -> string) {
    && (forall ip | ip in from :: key(ip) in to)
    && (forall k | k in to :: exists ip :: ip in from && key(ip) == k && to[k] == from[ip])
  }

  ghost function CanonKey(canon: Canon): string -> string {
    ip => match canon(ip) case Some(c) => c case None => ip
  }

  ghost predicate Accepted(canon: Canon, profiles: map<string, UpstreamProxy>, default: string, byIp: map<string, string>) {
    default in profiles && forall ip | ip in byIp :: byIp[ip] in profiles && canon(ip).Some?
  }

  /** One panel operation: a mapping set, a mapping removed, everything replaced, or a refusal. */
  ghost predicate Next(canon: Canon, r: Routing, r': Routing) {
    || r' == r
    || (exists ip: string, profile: string ::
          canon(ip).Some? && profile in r.profiles && r' == r.(byIp := r.byIp[canon(ip).value := profile]))
    || (exists ip: string :: canon(ip).Some? && r' == r.(byIp := r.byIp - {canon(ip).value}))
    || (exists byIp :: Accepted(canon, r'.profiles, r'.default, byIp) && Rekeyed(byIp, r'.byIp, CanonKey(canon)))
  }

  ghost predicate Trace(canon: Canon, rs: seq<Routing>) {
    forall i | 0 <= i < |rs| - 1 :: Next(canon, rs[i], rs[i + 1])
  }

  /** Whatever the panel does, every client keeps a known profile to connect through. */
  lemma {:induction false} NeverWithoutProfile(canon: Canon, rs: seq<Routing>, n: nat, ip: string)
    requires Trace(canon, rs) && n < |rs| && rs[0].Sound()
    ensures rs[n].Sound()
    ensures PrimaryName(canon, rs[n], ip) in rs[n].profiles
    decreases n
  {
    if n > 0 {
      NeverWithoutProfile(canon, rs, n - 1, ip);
      assert Next(canon, rs[n - 1], rs[n - 1 + 1]);
      hide Next;
    }
  }

  /** A mapping set under one spelling of an address holds for every spelling, and for no other client. */
  lemma SetRoutes(canon: Canon, r: Routing, ip: string, profile: string, client: string)
    requires canon(ip).Some? && profile in r.profiles
    ensures var r' := r.(byIp := r.byIp[canon(ip).value := profile]);
      PrimaryName(canon, r', client) ==
        if LookupKey(canon, client) == canon(ip).value then profile else PrimaryName(canon, r, client)
  {
  }

  /** Removing a mapping sends its clients to the default and nobody else anywhere new. */
  lemma RemoveRoutes(canon: Canon, r: Routing, ip: string, client: string)
    requires canon(ip).Some?
    ensures var r' := r.(byIp := r.byIp - {canon(ip).value});
      PrimaryName(canon, r', client) ==
        if LookupKey(canon, client) == canon(ip).value then r.default else PrimaryName(canon, r, client)
  {
  }

  // ---------------------------------------------------------------- the program

  class Registry {
    var profiles: map<string, UpstreamProxy>
    var default: string
    var byIp: map<string, string>
    var failover: bool

    ghost function Value(): Routing
      reads this
    {
      Routing(profiles, default, byIp, failover)
    }

    constructor (r: Routing)
      ensures Value() == r
    {
      profiles, default, byIp, failover := r.profiles, r.default, r.byIp, r.failover;
    }

    method ProfileNameForIp(canon: Canon, ip: string) returns (name: string)
      ensures name == PrimaryName(canon, Value(), ip)
    {
      var key := match canon(ip) case Some(c) => c case None => ConfText.Trim(ip);
      if key in byIp && byIp[key] in profiles {
        name := byIp[key];
      } else {
        name := default;
      }
    }

    /** The candidates with their proxies; an error exactly when the client's profile is unknown. */
    method ConnectCandidates(canon: Canon, ip: string) returns (r: Option<seq<(string, UpstreamProxy)>>)
      ensures r.None? <==> PrimaryName(canon, Value(), ip) !in profiles
      ensures Value().Sound() ==> r.Some?
      ensures r.Some? ==> WithProxies(r.value, CandidateNames(canon, Value(), ip), profiles)
      ensures r.Some? ==>
        && |r.value| > 0 && r.value[0].0 == PrimaryName(canon, Value(), ip)
        && (!failover ==> |r.value| == 1)
        && (failover && default in profiles && default != r.value[0].0 ==> |r.value| > 1 && r.value[1].0 == default)
    {
      TriedInOrder(canon, Value(), ip);
      var primary := ProfileNameForIp(canon, ip);
      assert Value().Sound() ==> primary in profiles;
      hide PrimaryName;
      if primary !in profiles {
        return None;
      }
      if !failover {
        return Some([(primary, profiles[primary])]);
      }
      var rest := Elements(profiles.Keys - {primary});
      var sorted := SortFallbacks(rest, default);
      SameBag(sorted, rest);
      SortedAreFallbacks(sorted, profiles.Keys, default, primary);
      assert CandidateNames(canon, Value(), ip) == [primary] + sorted;
      hide *;
      var out := AttachProxies([primary] + sorted);
      r := Some(out);
    }

    method AttachProxies(names: seq<string>) returns (out: seq<(string, UpstreamProxy)>)
      requires forall n | n in names :: n in profiles
      ensures WithProxies(out, names, profiles)
    {
      out := [];
      for i := 0 to |names|
        invariant |out| == i
        invariant forall j | 0 <= j < i :: out[j] == (names[j], profiles[names[j]])
      {
        out := out + [(names[i], profiles[names[i]])];
      }
    }

    /** Sets a mapping, or fails when the profile is unknown or the address is not one. */
    method SetClientUpstream(canon: Canon, ip: string, profile: string) returns (ok: bool)
      modifies this
      ensures ok <==> profile in old(profiles) && canon(ip).Some?
      ensures Value() == if ok then old(Value()).(byIp := old(byIp)[canon(ip).value := profile]) else old(Value())
      ensures Next(canon, old(Value()), Value())
    {
      if profile !in profiles || canon(ip).None? {
        return false;
      }
      byIp := byIp[canon(ip).value := profile];
      return true;
    }

    /** Removes a mapping and says whether there was one, or fails when the address is not one. */
    method RemoveClientUpstream(canon: Canon, ip: string) returns (existed: Option<bool>)
      modifies this
      ensures existed == if canon(ip).Some? then Some(canon(ip).value in old(byIp)) else None
      ensures Value() == if canon(ip).Some? then old(Value()).(byIp := old(byIp) - {canon(ip).value}) else old(Value())
      ensures Next(canon, old(Value()), Value())
    {
      if canon(ip).None? {
        return None;
      }
      existed := Some(canon(ip).value in byIp);
      byIp := byIp - {canon(ip).value};
    }
  }

  method SortFallbacks(names: seq<string>, default: string) returns (r: seq<string>)
    ensures Sorted(r, (a, b) => TriedNoLater(default, a, b)) && multiset(r) == multiset(names)
  {
    TriedOrder(default);
    r := SortBy(names, (a, b) => TriedNoLater(default, a, b));
  }

  /** Builds a registry from the panel's payload, exactly when it is acceptable. */
  method FromParts(canon: Canon, profiles: map<string, UpstreamProxy>, default: string, byIp: map<string, string>, failover: bool)
      returns (r: Option<Routing>)
    ensures r.Some? <==> Accepted(canon, profiles, default, byIp)
    ensures r.Some? ==>
      && r.value == Routing(profiles, default, r.value.byIp, failover)
      && r.value.Sound() && Rekeyed(byIp, r.value.byIp, CanonKey(canon))
  {
    if |profiles| == 0 || default !in profiles {
      return None;
    }
    var norm: map<string, string> := map[];
    var todo := byIp.Keys;
    while todo != {}
      invariant todo <= byIp.Keys
      invariant forall ip | ip in byIp.Keys - todo :: byIp[ip] in profiles && canon(ip).Some? && canon(ip).value in norm
      invariant forall k | k in norm :: exists ip :: ip in byIp && canon(ip) == Some(k) && norm[k] == byIp[ip]
      decreases todo
    {
      var ip :| ip in todo;
      if byIp[ip] !in profiles || canon(ip).None? {
        return None;
      }
      norm := norm[canon(ip).value := byIp[ip]];
      todo := todo - {ip};
    }
    assert forall ip | ip in byIp :: ip in byIp.Keys - todo;
    r := Some(Routing(profiles, default, norm, failover));
  }
}
