/** Which endpoints a monitor round probes: one target for each, with all profiles that use it. */
module MonitorTargets {
  import opened Wrappers
  import opened Proxies
  import opened Order
  import opened Sorting
  import opened UpstreamConfig
  import Text

  datatype Target = Target(key: string, proxy: UpstreamProxy, profiles: seq<string>)

  // --------------------------------------------------------------- endpoint keys

  function Digit(n: nat): char
    requires n < 10
  {
    "0123456789"[n]
  }

  function Decimal(n: nat): (s: string)
    ensures s != "" && forall c | c in s :: '0' <= c <= '9'
  {
    if n < 10 then [Digit(n)] else Decimal(n / 10) + [Digit(n % 10)]
  }

  lemma {:induction false} DecimalInjective(m: nat, n: nat)
    requires Decimal(m) == Decimal(n)
    ensures m == n
    decreases m
  {
    var s := Decimal(m);
    assert s[|s| - 1] == Digit(m % 10) == Digit(n % 10);
    assert s[..|s| - 1] == if m < 10 then "" else Decimal(m / 10);
    assert s[..|s| - 1] == if n < 10 then "" else Decimal(n / 10);
    if m >= 10 {
      DecimalInjective(m / 10, n / 10);
    }
  }

  function EndpointKey(proxy: UpstreamProxy): string {
    match proxy
    case Socks5(host, port, _, _) => "socks5|" + host + "|" + Decimal(port)
    case Http(host, port, _) => "http|" + host + "|" + Decimal(port)
    case Direct => "direct"
  }

  /** The same kind of proxy at the same address; credentials do not matter. */
  predicate SameEndpoint(a: UpstreamProxy, b: UpstreamProxy) {
    || (a.Direct? && b.Direct?)
    || (a.Socks5? && b.Socks5? && a.host == b.host && a.port == b.port)
    || (a.Http? && b.Http? && a.host == b.host && a.port == b.port)
  }

  lemma KeyWithHost(kind: string, host: string, port: nat, kind2: string, host2: string, port2: nat)
    requires kind + host + "|" + Decimal(port) == kind2 + host2 + "|" + Decimal(port2)
    ensures kind + host == kind2 + host2 && port == port2
  {
    Text.LastBar(kind + host, Decimal(port), kind2 + host2, Decimal(port2));
    DecimalInjective(port, port2);
  }

  lemma SamePrefix(p: string, a: string, b: string)
    requires p + a == p + b
    ensures a == b
  {
    assert (p + a)[|p|..] == a && (p + b)[|p|..] == b;
  }

  /** The key names the endpoint: no two endpoints share one, whatever the host names contain. */
  lemma KeyIdentifiesEndpoint(a: UpstreamProxy, b: UpstreamProxy)
    ensures EndpointKey(a) == EndpointKey(b) <==> SameEndpoint(a, b)
  {
    hide Decimal;
    if EndpointKey(a) == EndpointKey(b) {
      assert EndpointKey(a)[0] == EndpointKey(b)[0];
      match (a, b) {
        case (Socks5(h, p, _, _), Socks5(h2, p2, _, _)) =>
          KeyWithHost("socks5|", h, p, "socks5|", h2, p2);
          SamePrefix("socks5|", h, h2);
        case (Http(h, p, _), Http(h2, p2, _)) =>
          KeyWithHost("http|", h, p, "http|", h2, p2);
          SamePrefix("http|", h, h2);
        case _ =>
      }
    }
  }

  // -------------------------------------------------------------------- targets

  /** The profiles to watch: those asked for, or all of them; never the direct ones. */
  ghost function Wanted(profiles: map<string, UpstreamProxy>, asked: seq<string>): set<string> {
    set n | n in profiles && !profiles[n].Direct? && (asked == [] || n in asked)
  }

  ghost function Sharing(profiles: map<string, UpstreamProxy>, wanted: set<string>, key: string): set<string> {
    set n | n in wanted && n in profiles && EndpointKey(profiles[n]) == key
  }

  ghost predicate IsGroup(profiles: map<string, UpstreamProxy>, wanted: set<string>, t: Target) {
    && t.profiles != []
    && StrictlyAscending(t.profiles)
    && (set n | n in t.profiles) == Sharing(profiles, wanted, t.key)
    && OneOf(profiles, t)
  }

  /** The proxy to probe is that of one of the profiles. */
  ghost predicate OneOf(profiles: map<string, UpstreamProxy>, t: Target) {
    EndpointKey(t.proxy) == t.key && exists n :: n in t.profiles && n in profiles && profiles[n] == t.proxy
  }

  ghost predicate FirstBefore(a: Target, b: Target) {
    a.profiles != [] && b.profiles != [] && Less(a.profiles[0], b.profiles[0])
  }

  /** One target for each endpoint in use, listing exactly the profiles that use it, in order. */
  ghost predicate Groups(profiles: map<string, UpstreamProxy>, wanted: set<string>, ts: seq<Target>) {
    && (forall t | t in ts :: IsGroup(profiles, wanted, t))
    && (forall n | n in wanted && n in profiles :: exists t :: t in ts && t.key == EndpointKey(profiles[n]))
    && (forall i, j | 0 <= i < j < |ts| :: FirstBefore(ts[i], ts[j]))
  }

  /** Every watched profile is covered by one target, at one place in its list. */
  lemma CoveredOnce(profiles: map<string, UpstreamProxy>, wanted: set<string>, ts: seq<Target>, n: string)
    requires Groups(profiles, wanted, ts) && n in wanted && n in profiles
    ensures exists i :: 0 <= i < |ts| && n in ts[i].profiles
    ensures forall i, j | 0 <= i < |ts| && 0 <= j < |ts| && n in ts[i].profiles && n in ts[j].profiles :: i == j
  {
    hide Less;
    hide EndpointKey;
    var t :| t in ts && t.key == EndpointKey(profiles[n]);
    var i :| 0 <= i < |ts| && ts[i] == t;
    assert n in Sharing(profiles, wanted, t.key);
    assert n in ts[i].profiles;
    forall a, b | 0 <= a < b < |ts|
      ensures !(n in ts[a].profiles && n in ts[b].profiles)
    {
      KeysDiffer(profiles, wanted, ts, a, b);
      MemberHasKey(profiles, wanted, ts[a], n);
      MemberHasKey(profiles, wanted, ts[b], n);
    }
  }

  /**
   What a round covers, from the inputs alone: a profile is listed exactly if it is no direct
   one and is asked for, or nothing is asked for; and two watched profiles are listed together
   exactly if they use the same kind of proxy at the same address.
   */
  lemma RoundCovers(profiles: map<string, UpstreamProxy>, asked: seq<string>, ts: seq<Target>, n: string)
    requires Groups(profiles, Wanted(profiles, asked), ts)
    ensures (exists t :: t in ts && n in t.profiles) <==>
            n in profiles && !profiles[n].Direct? && (asked == [] || n in asked)
    ensures forall t, m | t in ts && n in t.profiles && m in profiles && !profiles[m].Direct? && (asked == [] || m in asked) ::
            n in profiles && (m in t.profiles <==> SameEndpoint(profiles[n], profiles[m]))
  {
    hide EndpointKey, StrictlyAscending, SameEndpoint;
    var wanted := Wanted(profiles, asked);
    if n in wanted {
      CoveredOnce(profiles, wanted, ts, n);
    }
    forall t | t in ts
      ensures n in t.profiles <==> n in wanted && EndpointKey(profiles[n]) == t.key
    {
      MemberHasKey(profiles, wanted, t, n);
    }
    forall t, m | t in ts && n in t.profiles && m in wanted
      ensures m in t.profiles <==> SameEndpoint(profiles[n], profiles[m])
    {
      MemberHasKey(profiles, wanted, t, m);
      KeyIdentifiesEndpoint(profiles[n], profiles[m]);
    }
  }

  lemma MemberHasKey(profiles: map<string, UpstreamProxy>, wanted: set<string>, t: Target, n: string)
    requires IsGroup(profiles, wanted, t)
    ensures n in t.profiles <==> n in wanted && n in profiles && EndpointKey(profiles[n]) == t.key
  {
    hide EndpointKey;
    assert n in t.profiles <==> n in (set m | m in t.profiles);
    assert n in (set m | m in t.profiles) <==> n in Sharing(profiles, wanted, t.key);
  }

  /** No endpoint is probed twice in a round. */
  lemma KeysDiffer(profiles: map<string, UpstreamProxy>, wanted: set<string>, ts: seq<Target>, i: nat, j: nat)
    requires Groups(profiles, wanted, ts) && i < j < |ts|
    ensures ts[i].key != ts[j].key
  {
    hide EndpointKey;
    assert ts[i] in ts && ts[j] in ts;
    var a, b := ts[i].profiles, ts[j].profiles;
    if ts[i].key == ts[j].key {
      AscendingUnique(a);
      AscendingUnique(b);
      LessTrichotomous(a[0], b[0]);
    }
  }

  lemma SameKeySameList(profiles: map<string, UpstreamProxy>, wanted: set<string>, a: Target, b: Target)
    requires IsGroup(profiles, wanted, a) && IsGroup(profiles, wanted, b) && a.key == b.key
    ensures a.profiles == b.profiles
  {
    AscendingUnique(a.profiles);
    AscendingUnique(b.profiles);
  }

  lemma FirstsWithin(profiles: map<string, UpstreamProxy>, wanted: set<string>, ts: seq<Target>, us: seq<Target>, i: nat)
    requires Groups(profiles, wanted, ts) && Groups(profiles, wanted, us) && i < |ts|
    ensures exists j :: 0 <= j < |us| && us[j].key == ts[i].key && us[j].profiles == ts[i].profiles
  {
    hide EndpointKey;
    hide Less;
    var t := ts[i];
    assert t in ts;
    var n := t.profiles[0];
    MemberHasKey(profiles, wanted, t, n);
    var u :| u in us && u.key == EndpointKey(profiles[n]);
    var j :| 0 <= j < |us| && us[j] == u;
    hide IsGroup;
    SameKeySameList(profiles, wanted, t, u);
  }

  /** The first profile of each target. */
  ghost function Firsts(ts: seq<Target>): seq<string> {
    seq(|ts|, i requires 0 <= i < |ts| => if ts[i].profiles == [] then "" else ts[i].profiles[0])
  }

  lemma FirstsAscend(profiles: map<string, UpstreamProxy>, wanted: set<string>, ts: seq<Target>)
    ensures Groups(profiles, wanted, ts) ==> StrictlyAscending(Firsts(ts))
  {
  }

  lemma FirstsIncluded(profiles: map<string, UpstreamProxy>, wanted: set<string>, ts: seq<Target>, us: seq<Target>, x: string)
    requires Groups(profiles, wanted, ts) && Groups(profiles, wanted, us) && x in Firsts(ts)
    ensures x in Firsts(us)
  {
    hide Groups;
    var i :| 0 <= i < |ts| && Firsts(ts)[i] == x;
    FirstsWithin(profiles, wanted, ts, us, i);
    var j :| 0 <= j < |us| && us[j].key == ts[i].key && us[j].profiles == ts[i].profiles;
    assert Firsts(us)[j] == x;
  }

  lemma SameFirsts(profiles: map<string, UpstreamProxy>, wanted: set<string>, ts: seq<Target>, us: seq<Target>)
    requires Groups(profiles, wanted, ts) && Groups(profiles, wanted, us)
    ensures Firsts(ts) == Firsts(us)
  {
    hide *;
    var a, b := Firsts(ts), Firsts(us);
    FirstsAscend(profiles, wanted, ts);
    FirstsAscend(profiles, wanted, us);
    AscendingUnique(a);
    AscendingUnique(b);
    forall x
      ensures x in a <==> x in b
    {
      if x in a {
        FirstsIncluded(profiles, wanted, ts, us, x);
      }
      if x in b {
        FirstsIncluded(profiles, wanted, us, ts, x);
      }
    }
    assert (set x | x in a) == (set x | x in b);
  }

  /** The round does not depend on the iteration order of the maps: keys, lists and order are determined. */
  lemma RoundDetermined(profiles: map<string, UpstreamProxy>, wanted: set<string>, ts: seq<Target>, us: seq<Target>)
    requires Groups(profiles, wanted, ts) && Groups(profiles, wanted, us)
    ensures |ts| == |us|
    ensures forall i | 0 <= i < |ts| :: ts[i].key == us[i].key && ts[i].profiles == us[i].profiles
  {
    hide EndpointKey;
    hide Less;
    SameFirsts(profiles, wanted, ts, us);
    assert |Firsts(ts)| == |ts| && |Firsts(us)| == |us|;
    forall i | 0 <= i < |ts|
      ensures ts[i].key == us[i].key && ts[i].profiles == us[i].profiles
    {
      assert ts[i] in ts && us[i] in us;
      assert IsGroup(profiles, wanted, ts[i]) && IsGroup(profiles, wanted, us[i]);
      var n := ts[i].profiles[0];
      assert Firsts(ts)[i] == n && Firsts(us)[i] == us[i].profiles[0];
      MemberHasKey(profiles, wanted, ts[i], n);
      MemberHasKey(profiles, wanted, us[i], n);
      SameKeySameList(profiles, wanted, ts[i], us[i]);
    }
  }

  // ---------------------------------------------------------------- the program

  /** The first proxy at an endpoint, going by a list of profiles. */
  function FirstProxy(profiles: map<string, UpstreamProxy>, names: seq<string>, key: string): Option<UpstreamProxy>
    decreases |names|
  {
    if names == [] then None
    else
      var n := names[|names| - 1];
      var earlier := FirstProxy(profiles, names[..|names| - 1], key);
      if earlier.Some? then earlier
      else if n in profiles && EndpointKey(profiles[n]) == key then Some(profiles[n])
      else None
  }

  lemma FirstProxyNext(profiles: map<string, UpstreamProxy>, names: seq<string>, n: string, key: string)
    ensures FirstProxy(profiles, names + [n], key) ==
      if FirstProxy(profiles, names, key).Some? then FirstProxy(profiles, names, key)
      else if n in profiles && EndpointKey(profiles[n]) == key then Some(profiles[n])
      else None
  {
    assert (names + [n])[..|names|] == names;
  }

  lemma {:induction false} FirstProxyIs(profiles: map<string, UpstreamProxy>, names: seq<string>, key: string)
    ensures match FirstProxy(profiles, names, key)
      case None => forall n | n in names && n in profiles :: EndpointKey(profiles[n]) != key
      case Some(p) => EndpointKey(p) == key && exists n :: n in names && n in profiles && profiles[n] == p
    decreases |names|
  {
    hide EndpointKey;
    if names != [] {
      var init, last := names[..|names| - 1], names[|names| - 1];
      assert names == init + [last];
      FirstProxyIs(profiles, init, key);
    }
  }

  predicate IsWatched(profiles: map<string, UpstreamProxy>, n: string) {
    n in profiles && !profiles[n].Direct?
  }

  /** The profiles of a list that are watched, in order. */
  function Watched(profiles: map<string, UpstreamProxy>, names: seq<string>): seq<string>
    decreases |names|
  {
    if names == [] then []
    else
      var n := names[|names| - 1];
      Watched(profiles, names[..|names| - 1]) + (if IsWatched(profiles, n) then [n] else [])
  }

  lemma WatchedNone(profiles: map<string, UpstreamProxy>)
    ensures Watched(profiles, []) == []
  {
  }

  lemma WatchedNext(profiles: map<string, UpstreamProxy>, names: seq<string>, n: string)
    ensures Watched(profiles, names + [n]) == Watched(profiles, names) + (if IsWatched(profiles, n) then [n] else [])
  {
    assert (names + [n])[..|names|] == names;
  }

  /** Skipping unknown and direct profiles does not change which proxy comes first. */
  lemma {:induction false} FirstWatched(profiles: map<string, UpstreamProxy>, names: seq<string>, key: string)
    requires key != EndpointKey(Direct)
    ensures FirstProxy(profiles, Watched(profiles, names), key) == FirstProxy(profiles, names, key)
    decreases |names|
  {
    hide EndpointKey;
    if names != [] {
      var init, n := names[..|names| - 1], names[|names| - 1];
      FirstWatched(profiles, init, key);
      if IsWatched(profiles, n) {
        FirstProxyNext(profiles, Watched(profiles, init), n, key);
      } else {
        assert Watched(profiles, init) + [] == Watched(profiles, init);
      }
    }
  }

  method WantedNames(profiles: map<string, UpstreamProxy>, asked: seq<string>) returns (names: seq<string>)
    ensures forall n :: n in names <==> n in Wanted(profiles, asked)
    ensures asked != [] ==> names == Watched(profiles, asked)
  {
    hide Watched;
    var pool := asked;
    if asked == [] {
      pool := Elements(profiles.Keys);
    }
    names := [];
    WatchedNone(profiles);
    assert pool[..0] == [];
    for i := 0 to |pool|
      invariant forall n :: n in names <==> n in pool[..i] && n in profiles && !profiles[n].Direct?
      invariant names == Watched(profiles, pool[..i])
    {
      assert pool[..i + 1] == pool[..i] + [pool[i]];
      WatchedNext(profiles, pool[..i], pool[i]);
      if pool[i] in profiles && !profiles[pool[i]].Direct? {
        names := names + [pool[i]];
      }
    }
    assert pool[..|pool|] == pool;
  }

  /** A target under construction: its names are those of `names` at its endpoint, once each. */
  ghost predicate Collects(profiles: map<string, UpstreamProxy>, names: seq<string>, key: string, t: Target) {
    && t.key == key && FirstProxy(profiles, names, key) == Some(t.proxy)
    && t.profiles != [] && Distinct(t.profiles)
    && forall n :: n in t.profiles <==> n in names && n in profiles && EndpointKey(profiles[n]) == key
  }

  /** A target with one more profile, unless it has it already. */
  method Joined(profiles: map<string, UpstreamProxy>, ghost names: seq<string>, t: Target, name: string) returns (t': Target)
    requires name in profiles && Collects(profiles, names, EndpointKey(profiles[name]), t)
    ensures Collects(profiles, names + [name], EndpointKey(profiles[name]), t')
  {
    hide EndpointKey;
    FirstProxyNext(profiles, names, name, t.key);
    hide FirstProxy;
    t' := t;
    if name !in t.profiles {
      t' := t.(profiles := t.profiles + [name]);
      assert forall n | n in t.profiles :: n in t'.profiles;
    }
  }

  method GroupByEndpoint(profiles: map<string, UpstreamProxy>, names: seq<string>) returns (groups: map<string, Target>)
    requires forall n | n in names :: n in profiles
    ensures forall k | k in groups :: Collects(profiles, names, k, groups[k])
    ensures forall n | n in names :: EndpointKey(profiles[n]) in groups
  {
    hide EndpointKey, Collects;
    groups := map[];
    for i := 0 to |names|
      invariant forall k | k in groups :: Collects(profiles, names[..i], k, groups[k])
      invariant forall n | n in names[..i] :: EndpointKey(profiles[n]) in groups
    {
      assert names[..i + 1] == names[..i] + [names[i]];
      var name, proxy := names[i], profiles[names[i]];
      var key := EndpointKey(proxy);
      ghost var before := groups;
      if key in groups {
        var joined := Joined(profiles, names[..i], groups[key], name);
        groups := groups[key := joined];
      } else {
        FirstOfGroup(profiles, names[..i], name);
        groups := groups[key := Target(key, proxy, [name])];
      }
      forall k | k in groups
        ensures Collects(profiles, names[..i + 1], k, groups[k])
      {
        if k != key {
          OtherGroup(profiles, names[..i], name, k, before[k]);
        }
      }
    }
    assert names[..|names|] == names;
  }

  lemma FirstOfGroup(profiles: map<string, UpstreamProxy>, names: seq<string>, name: string)
    requires name in profiles
    requires forall n | n in names :: n in profiles && EndpointKey(profiles[n]) != EndpointKey(profiles[name])
    ensures var key := EndpointKey(profiles[name]);
      Collects(profiles, names + [name], key, Target(key, profiles[name], [name]))
  {
    hide EndpointKey;
    var t := Target(EndpointKey(profiles[name]), profiles[name], [name]);
    FirstProxyIs(profiles, names, t.key);
    FirstProxyNext(profiles, names, name, t.key);
    hide FirstProxy;
    assert name in t.profiles;
  }

  lemma OtherGroup(profiles: map<string, UpstreamProxy>, names: seq<string>, name: string, k: string, t: Target)
    requires name in profiles && EndpointKey(profiles[name]) != k && Collects(profiles, names, k, t)
    ensures Collects(profiles, names + [name], k, t)
  {
    hide EndpointKey, FirstProxy;
    FirstProxyNext(profiles, names, name, k);
  }

  method SortedTarget(profiles: map<string, UpstreamProxy>, ghost names: seq<string>, ghost wanted: set<string>, t: Target) returns (t': Target)
    requires Collects(profiles, names, t.key, t) && forall n :: n in names <==> n in wanted
    ensures IsGroup(profiles, wanted, t') && t'.key == t.key && t'.proxy == t.proxy
  {
    hide EndpointKey, Less, FirstProxy;
    FirstProxyIs(profiles, names, t.key);
    var sorted := SortNames(t.profiles);
    SameBag(sorted, t.profiles);
    t' := t.(profiles := sorted);
    assert (set n | n in sorted) == Sharing(profiles, wanted, t.key);
  }

  predicate FirstNoLater(a: Target, b: Target) {
    a.profiles == [] || (b.profiles != [] && AtMost(a.profiles[0], b.profiles[0]))
  }

  lemma FirstOrder()
    ensures TotalPreorder(FirstNoLater)
  {
    hide Less;
    forall a, b
      ensures FirstNoLater(a, b) || FirstNoLater(b, a)
    {
      if a.profiles != [] && b.profiles != [] {
        LessTrichotomous(a.profiles[0], b.profiles[0]);
      }
    }
    forall a, b, c | FirstNoLater(a, b) && FirstNoLater(b, c)
      ensures FirstNoLater(a, c)
    {
      if a.profiles != [] && Less(a.profiles[0], b.profiles[0]) && Less(b.profiles[0], c.profiles[0]) {
        LessTransitive(a.profiles[0], b.profiles[0], c.profiles[0]);
      }
    }
  }

  /** Targets for different endpoints begin with different profiles. */
  lemma FirstsDiffer(profiles: map<string, UpstreamProxy>, wanted: set<string>, a: Target, b: Target)
    requires IsGroup(profiles, wanted, a) && IsGroup(profiles, wanted, b) && a.key != b.key && FirstNoLater(a, b)
    ensures Less(a.profiles[0], b.profiles[0])
  {
    hide EndpointKey;
    hide Less;
    MemberHasKey(profiles, wanted, a, a.profiles[0]);
    MemberHasKey(profiles, wanted, b, b.profiles[0]);
  }

  ghost predicate DistinctKeys(ts: seq<Target>) {
    forall i, j | 0 <= i < |ts| && 0 <= j < |ts| && ts[i].key == ts[j].key :: i == j
  }

  lemma {:induction false} BagKeepsKeys(ts: seq<Target>, us: seq<Target>)
    requires DistinctKeys(ts) && multiset(ts) == multiset(us)
    ensures DistinctKeys(us)
  {
    assert Distinct(ts);
    SameBag(ts, us);
    forall i, j | 0 <= i < |us| && 0 <= j < |us| && us[i].key == us[j].key
      ensures i == j
    {
      assert us[i] in ts && us[j] in ts;
      var a :| 0 <= a < |ts| && ts[a] == us[i];
      var b :| 0 <= b < |ts| && ts[b] == us[j];
      assert us[i] == us[j];
    }
  }

  method TargetsToCheck(profiles: map<string, UpstreamProxy>, asked: seq<string>) returns (ts: seq<Target>)
    ensures Groups(profiles, Wanted(profiles, asked), ts)
    ensures asked != [] ==> forall t | t in ts :: FirstProxy(profiles, asked, t.key) == Some(t.proxy)
  {
    ghost var wanted := Wanted(profiles, asked);
    var names := WantedNames(profiles, asked);
    assert forall n | n in names :: n in profiles;
    var groups := GroupByEndpoint(profiles, names);
    hide *;
    var keys := Elements(groups.Keys);
    var out := SortedTargets(profiles, names, wanted, groups, keys);
    FirstOrder();
    ts := SortBy(out, FirstNoLater);
    SameBag(ts, out);
    BagKeepsKeys(out, ts);
    OrderedGroups(profiles, wanted, ts);
    forall n | n in wanted && n in profiles
      ensures exists t :: t in ts && t.key == EndpointKey(profiles[n])
    {
      assert n in names;
      var k := EndpointKey(profiles[n]);
      assert k in keys;
      var i :| 0 <= i < |keys| && keys[i] == k;
      assert out[i] in ts;
    }
    if asked != [] {
      forall t | t in ts
        ensures FirstProxy(profiles, asked, t.key) == Some(t.proxy)
      {
        assert t in out;
        NotDirect(profiles, asked, t);
        FirstWatched(profiles, asked, t.key);
      }
    }
  }

  lemma NotDirect(profiles: map<string, UpstreamProxy>, asked: seq<string>, t: Target)
    requires IsGroup(profiles, Wanted(profiles, asked), t)
    ensures t.key != EndpointKey(Direct)
  {
    var n := t.profiles[0];
    MemberHasKey(profiles, Wanted(profiles, asked), t, n);
    KeyIdentifiesEndpoint(profiles[n], Direct);
    hide EndpointKey;
  }

  method SortedTargets(profiles: map<string, UpstreamProxy>, ghost names: seq<string>, ghost wanted: set<string>, groups: map<string, Target>, keys: seq<string>) returns (out: seq<Target>)
    requires forall n :: n in names <==> n in wanted
    requires forall k | k in groups :: Collects(profiles, names, k, groups[k])
    requires Distinct(keys) && forall k | k in keys :: k in groups
    ensures |out| == |keys|
    ensures forall i | 0 <= i < |out| :: IsGroup(profiles, wanted, out[i]) && out[i].key == keys[i]
    ensures forall t | t in out :: FirstProxy(profiles, names, t.key) == Some(t.proxy)
    ensures DistinctKeys(out)
  {
    hide EndpointKey, Less, IsGroup, FirstProxy;
    out := [];
    for i := 0 to |keys|
      invariant |out| == i
      invariant forall j | 0 <= j < i :: IsGroup(profiles, wanted, out[j]) && out[j].key == keys[j]
      invariant forall t | t in out :: FirstProxy(profiles, names, t.key) == Some(t.proxy)
    {
      var t := SortedTarget(profiles, names, wanted, groups[keys[i]]);
      out := out + [t];
    }
  }

  lemma OrderedGroups(profiles: map<string, UpstreamProxy>, wanted: set<string>, ts: seq<Target>)
    requires forall t | t in ts :: IsGroup(profiles, wanted, t)
    requires DistinctKeys(ts) && Sorted(ts, FirstNoLater)
    ensures forall i, j | 0 <= i < j < |ts| :: FirstBefore(ts[i], ts[j])
  {
    forall i, j | 0 <= i < j < |ts|
      ensures FirstBefore(ts[i], ts[j])
    {
      assert ts[i] in ts && ts[j] in ts;
      assert ts[i].key != ts[j].key;
      FirstsDiffer(profiles, wanted, ts[i], ts[j]);
    }
  }
}
