/**
 The upstream settings of the configuration: the command-line override of the default
 profile, the normalisation done at load, and the registry that is built from the result.
 */
module UpstreamConfig {
  import opened Wrappers
  import opened Proxies
  import opened Order
  import opened Sorting
  import opened UpstreamRegistry

  datatype Settings = Settings(
    upstreams: map<string, UpstreamProxy>,
    default: Option<string>,
    clients: map<string, string>,
    proxy: UpstreamProxy
  ) {
    /** Normalisation refuses exactly these settings: a default that is not among the profiles. */
    predicate Dangling() {
      |upstreams| > 0 && default.Some? && default.value !in upstreams
    }
  }

  /** The settings with the legacy single proxy turned into a profile. */
  function Populated(c: Settings): Settings {
    if |c.upstreams| == 0 then c.(upstreams := map["default" := c.proxy], default := Some("default")) else c
  }

  ghost predicate ChosenDefault(upstreams: map<string, UpstreamProxy>, default: Option<string>, name: string) {
    && name in upstreams
    && match default
       case Some(d) => name == d
       case None => if "default" in upstreams then name == "default" else IsLeast(upstreams.Keys, name)
  }

  ghost function KnownClients(c: Settings): map<string, string> {
    map ip | ip in c.clients && c.clients[ip] in c.upstreams :: c.clients[ip]
  }

  /** What normalisation may turn settings into; only colliding addresses leave a choice. */
  ghost predicate Normalizes(canon: Canon, before: Settings, after: Settings) {
    var c := Populated(before);
    && after.upstreams == c.upstreams
    && after.default.Some? && ChosenDefault(c.upstreams, c.default, after.default.value)
    && after.proxy == c.upstreams[after.default.value]
    && Rekeyed(KnownClients(c), after.clients, CanonKey(canon))
  }

  /** The override puts the proxy under the default name, or under some profile if there is no usable default. */
  ghost predicate Overrides(before: Settings, proxy: UpstreamProxy, after: Settings) {
    && after.default.Some?
    && after == before.(proxy := proxy, default := after.default, upstreams := before.upstreams[after.default.value := proxy])
    && (before.default.Some? && !before.Dangling() ==> after.default == before.default)
    && (before.default.None? && |before.upstreams| == 0 ==> after.default == Some("default"))
    && (|before.upstreams| > 0 ==> after.default.value in before.upstreams)
  }

  // ------------------------------------------------------------------- theorems

  lemma KeysCanonical(canon: Canon, from: map<string, string>, to: map<string, string>, k: string)
    ensures Idempotent(canon) && Rekeyed(from, to, CanonKey(canon)) && k in to ==> CanonKey(canon)(k) == k
  {
  }

  lemma NormalizedFacts(canon: Canon, before: Settings, after: Settings)
    ensures Normalizes(canon, before, after) ==> Populated(after) == after && KnownClients(after) == after.clients
  {
  }

  /** Normalising a second time changes nothing. */
  lemma NormalizeIsIdempotent(canon: Canon, c: Settings, once: Settings, twice: Settings)
    requires Idempotent(canon) && Normalizes(canon, c, once) && Normalizes(canon, once, twice)
    ensures twice == once
  {
    hide IsLeast, Rekeyed, Idempotent;
    NormalizedFacts(canon, c, once);
    var key := CanonKey(canon);
    forall k | k in once.clients
      ensures key(k) == k
    {
      KeysCanonical(canon, KnownClients(Populated(c)), once.clients, k);
    }
    RekeyedByIdentity(once.clients, twice.clients, key);
  }

  lemma RekeyedByIdentity(from: map<string, string>, to: map<string, string>, key: string -> string)
    ensures (Rekeyed(from, to, key) && forall k | k in from :: key(k) == k) ==> to == from
  {
  }

  /** Settings can be normalised unless their default is not among the profiles; the override rules that out. */
  lemma OverrideThenNormalize(canon: Canon, c: Settings, proxy: UpstreamProxy, c1: Settings, c2: Settings)
    requires Overrides(c, proxy, c1)
    ensures !c1.Dangling()
    ensures Normalizes(canon, c1, c2) ==>
      && c2.default == c1.default && c2.proxy == proxy
      && c2.upstreams.Keys == c.upstreams.Keys + {c1.default.value}
      && c2.upstreams[c1.default.value] == proxy
      && forall n | n in c.upstreams && n != c1.default.value :: c2.upstreams[n] == c.upstreams[n]
  {
    assert c1.default.value in c1.upstreams.Keys;
    hide Rekeyed, KnownClients, IsLeast;
    if Normalizes(canon, c1, c2) {
      assert Populated(c1) == c1;
      assert c2.upstreams == c.upstreams[c1.default.value := proxy];
    }
  }

  /** The registry of normalised settings. */
  function FromConfig(c: Settings, failover: bool): Routing {
    Routing(c.upstreams, if c.default.Some? then c.default.value else "default", c.clients, failover)
  }

  /**
   From any configuration that loads, under any panel operations, every client address has
   a profile to connect through.
   */
  lemma LoadedRegistryNeverFails(canon: Canon, c: Settings, c': Settings, failover: bool, rs: seq<Routing>, n: nat, ip: string)
    requires Normalizes(canon, c, c')
    requires n < |rs| && rs[0] == FromConfig(c', failover) && Trace(canon, rs)
    ensures rs[n].Sound() && PrimaryName(canon, rs[n], ip) in rs[n].profiles
  {
    NeverWithoutProfile(canon, rs, n, ip);
  }

  /** A usable entry for the address: the only profile without any configured is "default". */
  predicate EntryFor(canon: Canon, c: Settings, ip: string, i: string) {
    && i in c.clients && canon(i) == canon(ip)
    && (if c.upstreams == map[] then c.clients[i] == "default" else c.clients[i] in c.upstreams)
  }

  /** A configured address reaches the client however either is spelled; unmapped clients get the default. */
  lemma LoadedRouting(canon: Canon, c: Settings, c': Settings, failover: bool, ip: string)
    requires Idempotent(canon) && Normalizes(canon, c, c') && canon(ip).Some?
    ensures var name := PrimaryName(canon, FromConfig(c', failover), ip);
      || (exists i :: EntryFor(canon, c, ip, i) && name == c.clients[i])
      || ((forall i :: !EntryFor(canon, c, ip, i)) && Some(name) == c'.default)
  {
    hide ChosenDefault;
    var known := KnownClients(Populated(c));
    var key := canon(ip).value;
    forall i
      ensures i in known && CanonKey(canon)(i) == key <==> EntryFor(canon, c, ip, i)
    {
      assert CanonKey(canon)(i) == key <==> canon(i) == canon(ip) by {
        assert canon(key) == canon(ip);
      }
    }
    assert key in c'.clients <==> exists i :: i in known && CanonKey(canon)(i) == key;
  }

  /**
   What normalised settings hold. Without profiles the single proxy is the profile
   "default". With profiles they stay as they are, the default is the configured one, else
   the profile called "default", else the one whose name is least, and the single proxy
   follows it.
   */
  lemma NormalizedFields(canon: Canon, c: Settings, c': Settings)
    requires Normalizes(canon, c, c')
    ensures c.upstreams == map[] ==> c'.upstreams == map["default" := c.proxy] && c'.default == Some("default") && c'.proxy == c.proxy
    ensures c.upstreams != map[] ==>
      && c'.upstreams == c.upstreams && c'.default.Some?
      && c'.default.value in c.upstreams && c'.proxy == c.upstreams[c'.default.value]
      && (c.default.Some? ==> c'.default == c.default)
      && (c.default.None? && "default" in c.upstreams ==> c'.default == Some("default"))
      && (c.default.None? && "default" !in c.upstreams ==> forall n | n in c.upstreams :: AtMost(c'.default.value, n))
  {
    hide Rekeyed, AtMost;
    assert |c.upstreams| == 0 <==> c.upstreams == map[];
  }

  // ---------------------------------------------------------------- the program

  class AppConfig {
    var upstreams: map<string, UpstreamProxy>
    var defaultUpstream: Option<string>
    var clientUpstreams: map<string, string>
    var upstreamProxy: UpstreamProxy

    ghost function Value(): Settings
      reads this
    {
      Settings(upstreams, defaultUpstream, clientUpstreams, upstreamProxy)
    }

    constructor (c: Settings)
      ensures Value() == c
    {
      upstreams, defaultUpstream, clientUpstreams, upstreamProxy := c.upstreams, c.default, c.clients, c.proxy;
    }

    method ApplyDefaultProxyOverride(proxy: UpstreamProxy)
      modifies this
      ensures Overrides(old(Value()), proxy, Value())
    {
      upstreamProxy := proxy;
      var name: string;
      if defaultUpstream.Some? && (defaultUpstream.value in upstreams || |upstreams| == 0) {
        name := defaultUpstream.value;
      } else if |upstreams| == 0 {
        name := "default";
      } else {
        var keys := Elements(upstreams.Keys);
        name := keys[0];
      }
      upstreams := upstreams[name := proxy];
      defaultUpstream := Some(name);
    }

    /** Fails, and then changes nothing, exactly when the default is not among the profiles. */
    method NormalizeUpstreams(canon: Canon) returns (ok: bool)
      modifies this
      ensures ok <==> !old(Value()).Dangling()
      ensures if ok then Normalizes(canon, old(Value()), Value()) else Value() == old(Value())
    {
      ghost var c := Populated(Value());
      if |upstreams| == 0 {
        upstreams := upstreams["default" := upstreamProxy];
        defaultUpstream := Some("default");
        assert upstreams == map["default" := upstreamProxy];
      }
      assert Value() == c && |upstreams| > 0;
      hide ChosenDefault, Rekeyed;
      var chosen := ChooseDefault(upstreams, defaultUpstream);
      if chosen == None {
        return false;
      }
      var name := chosen.value;
      ChosenIsThere(upstreams, defaultUpstream, name);
      defaultUpstream := Some(name);
      upstreamProxy := upstreams[name];
      clientUpstreams := map ip | ip in clientUpstreams && clientUpstreams[ip] in upstreams :: clientUpstreams[ip];
      assert clientUpstreams == KnownClients(c);
      clientUpstreams := Canonicalize(canon, clientUpstreams);
      return true;
    }
  }

  lemma ChosenIsThere(upstreams: map<string, UpstreamProxy>, default: Option<string>, name: string)
    ensures ChosenDefault(upstreams, default, name) ==> name in upstreams
  {
  }

  /** The default profile by name, else the one called "default", else the first by name. */
  method ChooseDefault(upstreams: map<string, UpstreamProxy>, default: Option<string>) returns (name: Option<string>)
    requires |upstreams| > 0
    ensures name.None? <==> default.Some? && default.value !in upstreams
    ensures name.Some? ==> ChosenDefault(upstreams, default, name.value)
  {
    match default {
      case Some(d) =>
        return if d in upstreams then Some(d) else None;
      case None =>
        if "default" in upstreams {
          return Some("default");
        }
        var least := LeastKey(upstreams);
        return Some(least);
    }
  }

  method LeastKey(m: map<string, UpstreamProxy>) returns (least: string)
    requires |m| > 0
    ensures IsLeast(m.Keys, least)
  {
    var keys := Elements(m.Keys);
    var sorted := SortNames(keys);
    SameBag(sorted, keys);
    least := sorted[0];
    forall x | x in m.Keys
      ensures AtMost(least, x)
    {
      var i :| 0 <= i < |sorted| && sorted[i] == x;
    }
  }

  method SortNames(names: seq<string>) returns (r: seq<string>)
    ensures multiset(r) == multiset(names)
    ensures forall i, j | 0 <= i < j < |r| :: AtMost(r[i], r[j])
  {
    var le := (a: string, b: string) => AtMost(a, b);
    forall a, b: string
      ensures le(a, b) || le(b, a)
    {
      LessTrichotomous(a, b);
    }
    forall a, b, c: string | le(a, b) && le(b, c)
      ensures le(a, c)
    {
      if Less(a, b) && Less(b, c) {
        LessTransitive(a, b, c);
      }
    }
    hide Less;
    r := SortBy(names, le);
    forall i, j | 0 <= i < j < |r|
      ensures AtMost(r[i], r[j])
    {
      assert le(r[i], r[j]);
    }
  }

  method Canonicalize(canon: Canon, raw: map<string, string>) returns (clients: map<string, string>)
    ensures Rekeyed(raw, clients, CanonKey(canon))
  {
    clients := map[];
    var todo := raw.Keys;
    while todo != {}
      invariant todo <= raw.Keys
      invariant forall ip | ip in raw.Keys - todo :: CanonKey(canon)(ip) in clients
      invariant forall k | k in clients :: exists ip :: ip in raw && CanonKey(canon)(ip) == k && clients[k] == raw[ip]
      decreases todo
    {
      var ip :| ip in todo;
      var key := match canon(ip) case Some(c) => c case None => ip;
      assert CanonKey(canon)(ip) == key;
      clients := clients[key := raw[ip]];
      todo := todo - {ip};
    }
    assert forall ip | ip in raw :: ip in raw.Keys - todo;
  }
}
