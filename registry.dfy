/**
  The four registry probes of ZestKnife (Chef nodes, Chef API clients, EC2
  servers grouped by their Name tag, Route53 records) and `check_services`,
  which asks all four about one hostname.

  The registries themselves are outside the model: `Registries` holds what
  they answer. Loading a node or a client is an oracle function; the EC2
  servers and the Route53 zones are listed per AWS region.
*/
module Registry {
  import opened Basics

  /** An object found in some registry. `cls` is its Ruby class name, which the
      hostname errors quote; `name` is a server's Name tag or a record's name. */
  datatype Entity = Entity(cls: string, id: string, name: Option<string>)

  /** What `klass.load(name)` does: returns the object, raises
      Net::HTTPServerException (the Chef server answered 4xx), or raises anything else. */
  datatype Load = Loaded(obj: Entity) | HttpClientError | Failed(message: string)

  /** A Route53 hosted zone: its domain, its record list, and what
      `records.get(name)` answers for a name (absent: nil). */
  datatype Zone = Zone(domain: string, records: seq<Entity>, fetch: map<string, Entity>)

  datatype Registries = Registries(
    loadNode: string -> Load,                // Chef::Node.load
    loadClient: string -> Load,              // Chef::ApiClient.load
    servers: seq<seq<Entity>>,               // compute.servers, one list per region of AWS_REGIONS
    zones: seq<seq<Zone>>,                   // dns.zones, one list per region of AWS_REGIONS
    zoneFromName: string -> Option<Zone>)    // zone_from_name

  const ZoneNotFound := "Could not find DNS zone"

  // ---------------------------------------------------------------- find_item

  /** `find_item`: the loaded object as a one-element list; a 4xx answer is "not there". */
  function FindItem(load: Load): (r: Result<seq<Entity>>)
    ensures r.Raised? <==> load.Failed?
    ensures r.Ok? ==> |r.value| <= 1
    ensures r.Ok? ==> (r.value == [] <==> load.HttpClientError?)
    ensures r.Ok? ==> forall e :: e in r.value ==> load == Loaded(e)
  {
    match load
    case Loaded(obj) => Ok([obj])
    case HttpClientError => Ok([])
    case Failed(m) => Raised(m)
  }

  // ---------------------------------------------------------------- find_ec2

  /** The entities of `es` whose name is `key`, in their order. */
  function Named(es: seq<Entity>, key: Option<string>): (r: seq<Entity>)
    ensures |r| <= |es|
    ensures forall e :: e in r <==> e in es && e.name == key
  {
    if es == [] then []
    else Named(es[..|es| - 1], key) + (if es[|es| - 1].name == key then [es[|es| - 1]] else [])
  }

  /** `servers.group_by { |s| s.tags["Name"] }` for one region. */
  function GroupByName(es: seq<Entity>): (g: map<Option<string>, seq<Entity>>)
    ensures forall k :: k in g <==> Named(es, k) != []
    ensures forall k :: k in g ==> g[k] == Named(es, k)
  {
    var keys := set e | e in es :: e.name;
    assert forall k :: k in keys <==> Named(es, k) != [] by {
      forall k ensures k in keys <==> Named(es, k) != [] {
        if Named(es, k) != [] {
          var e := Named(es, k)[0];
          assert e in Named(es, k);
        }
      }
    }
    map k | k in keys :: Named(es, k)
  }

  /** Reference definition of what `find_ec2` finds: the group of the LAST region
      that has a server with this Name tag (a later region's group replaces an
      earlier one), or nothing. */
  function LastGroup(regions: seq<seq<Entity>>, key: Option<string>): seq<Entity>
  {
    if regions == [] then []
    else
      var here := Named(regions[|regions| - 1], key);
      if here != [] then here else LastGroup(regions[..|regions| - 1], key)
  }

  /** `find_ec2`: merges every region's grouping into one hash, then looks the name up. */
  method FindEc2(regions: seq<seq<Entity>>, name: string) returns (found: seq<Entity>)
    ensures found == LastGroup(regions, Some(name))
  {
    var nodes: map<Option<string>, seq<Entity>> := map[];
    var i := 0;
    while i < |regions|
      invariant 0 <= i <= |regions|
      invariant forall k :: k in nodes <==> LastGroup(regions[..i], k) != []
      invariant forall k :: k in nodes ==> nodes[k] == LastGroup(regions[..i], k)
    {
      assert regions[..i + 1][..i] == regions[..i];
      nodes := nodes + GroupByName(regions[i]);
      i := i + 1;
    }
    assert regions[..i] == regions;
    found := if Some(name) in nodes then nodes[Some(name)] else [];
  }

  /** Everything `find_ec2` returns carries the name; it returns nothing exactly
      when no region has a server with that Name tag. */
  lemma {:induction false} LastGroupFound(regions: seq<seq<Entity>>, key: Option<string>)
    ensures forall e :: e in LastGroup(regions, key) ==> e.name == key
    ensures LastGroup(regions, key) == [] <==>
      forall i, e :: 0 <= i < |regions| && e in regions[i] ==> e.name != key
  {
    if regions != [] {
      var init := regions[..|regions| - 1];
      LastGroupFound(init, key);
      var last := regions[|regions| - 1];
      if Named(last, key) == [] {
        forall i, e | 0 <= i < |regions| - 1 && e in regions[i]
          ensures e in init[i]
        {
        }
      } else {
        var e := Named(last, key)[0];
        assert e in Named(last, key);
        assert e in regions[|regions| - 1];
      }
    }
  }

  /** Groups are replaced, not unioned: when region `i` is the last one with a
      server carrying the Name tag, the result is exactly that region's group. */
  lemma {:induction false} LastGroupIsLatestRegion(regions: seq<seq<Entity>>, key: Option<string>, i: nat)
    requires i < |regions| && Named(regions[i], key) != []
    requires forall j :: i < j < |regions| ==> Named(regions[j], key) == []
    ensures LastGroup(regions, key) == Named(regions[i], key)
  {
    var n := |regions|;
    if i == n - 1 {
      assert LastGroup(regions, key) == Named(regions[n - 1], key);
    } else {
      var init := regions[..n - 1];
      assert init[i] == regions[i];
      forall j | i < j < |init| ensures Named(init[j], key) == [] {
        assert init[j] == regions[j];
      }
      LastGroupIsLatestRegion(init, key, i);
      assert Named(regions[n - 1], key) == [];
    }
  }

  // ---------------------------------------------------------------- names

  /** `fqdn`: "" for a nil or empty name, otherwise the name, a dot, and the domain. */
  function Fqdn(domain: string, name: Option<string>): (r: string)
    ensures r == "" <==> name == None || name == Some("")
    ensures r != "" ==>
              |r| == |name.value| + 1 + |domain| && r[..|name.value|] == name.value &&
              r[|name.value|] == '.' && r[|name.value| + 1..] == domain
  {
    if name == None || name == Some("") then "" else name.value + "." + domain
  }

  /** `name = "#{name}." unless name[-1] == "."` */
  function EnsureDot(s: string): (r: string)
    ensures EndsWithDot(r)
    ensures s <= r && |r| <= |s| + 1
    ensures EndsWithDot(s) ==> r == s
  {
    if EndsWithDot(s) then s else s + "."
  }

  /** The dot is never doubled: normalising a normalised name changes nothing. */
  lemma EnsureDotIdempotent(s: string)
    ensures EnsureDot(EnsureDot(s)) == EnsureDot(s)
  {
  }

  /** `String#downcase` on ASCII letters. */
  function Downcase(s: string): (r: string)
    ensures |r| == |s|
  {
    seq(|s|, i requires 0 <= i < |s| => if 'A' <= s[i] <= 'Z' then (s[i] as int + 32) as char else s[i])
  }

  /** `dns.zones.detect { |z| z.domain.downcase == domain }` in one region. */
  function DetectInRegion(zones: seq<Zone>, domain: string): Option<Zone>
  {
    if zones == [] then None
    else if Downcase(zones[0].domain) == domain then Some(zones[0])
    else DetectInRegion(zones[1..], domain)
  }

  /** What the `zone` memo computes: `@zone ||= detect` over the regions in order,
      so the first region holding a matching zone decides. */
  function DetectZone(regions: seq<seq<Zone>>, domain: string): Option<Zone>
  {
    if regions == [] then None
    else
      var earlier := DetectZone(regions[..|regions| - 1], domain);
      if earlier.Some? then earlier else DetectInRegion(regions[|regions| - 1], domain)
  }

  /** The zone found has the wanted domain (compared in lower case) and comes
      from one of the regions; none is found exactly when no region has one. */
  lemma {:induction false} DetectZoneSpec(regions: seq<seq<Zone>>, domain: string)
    ensures var r := DetectZone(regions, domain);
      (r.Some? ==> Downcase(r.value.domain) == domain && exists i :: 0 <= i < |regions| && r.value in regions[i]) &&
      (r.None? <==> forall i, z :: 0 <= i < |regions| && z in regions[i] ==> Downcase(z.domain) != domain)
  {
    if regions != [] {
      var init := regions[..|regions| - 1];
      var last := regions[|regions| - 1];
      DetectZoneSpec(init, domain);
      DetectInRegionSpec(last, domain);
      assert forall i :: 0 <= i < |init| ==> init[i] == regions[i];
      if DetectZone(init, domain).Some? {
        var i :| 0 <= i < |init| && DetectZone(init, domain).value in init[i];
        assert DetectZone(regions, domain).value in regions[i];
      } else if DetectInRegion(last, domain).Some? {
        assert DetectZone(regions, domain).value in regions[|regions| - 1];
      }
    }
  }

  lemma {:induction false} DetectInRegionSpec(zones: seq<Zone>, domain: string)
    ensures DetectInRegion(zones, domain).Some? ==>
      Downcase(DetectInRegion(zones, domain).value.domain) == domain && DetectInRegion(zones, domain).value in zones
    ensures DetectInRegion(zones, domain).None? <==> forall z :: z in zones ==> Downcase(z.domain) != domain
  {
    if zones != [] {
      DetectInRegionSpec(zones[1..], domain);
      assert forall z :: z in zones ==> z == zones[0] || z in zones[1..];
    }
  }

  // ---------------------------------------------------------------- find_r53

  /** The zone `find_r53` searches and the record name it searches for. A zone
      derived from the name is used with the name as given; otherwise the
      default zone (or the "Could not find DNS zone" error) with `fqdn(name)`.
      The name searched for always ends in a dot, and a missing default zone is
      the only error. */
  function R53Query(reg: Registries, domain: string, name: string): (r: Result<(Zone, string)>)
    ensures r.Ok? ==> EndsWithDot(r.value.1)
    ensures r.Raised? <==> reg.zoneFromName(name).None? && DetectZone(reg.zones, domain).None?
    ensures r.Raised? ==> r.message == ZoneNotFound
    ensures reg.zoneFromName(name).Some? ==> r == Ok((reg.zoneFromName(name).value, EnsureDot(name)))
    ensures reg.zoneFromName(name).None? && DetectZone(reg.zones, domain).Some? ==>
              r == Ok((DetectZone(reg.zones, domain).value, EnsureDot(Fqdn(domain, Some(name)))))
  {
    match reg.zoneFromName(name)
    case Some(z) => Ok((z, EnsureDot(name)))
    case None =>
      match DetectZone(reg.zones, domain)
      case None => Raised(ZoneNotFound)
      case Some(z) => Ok((z, EnsureDot(Fqdn(domain, Some(name)))))
  }

  /** The records of `z` named exactly `n`; when there are none, what `records.get(n)` returns, nil dropped. */
  function R53Records(z: Zone, n: string): (r: seq<Entity>)
    ensures Named(z.records, Some(n)) != [] ==> r == Named(z.records, Some(n))
    ensures Named(z.records, Some(n)) == [] ==>
              |r| <= 1 && (r == [] <==> n !in z.fetch) && (forall e :: e in r ==> e == z.fetch[n])
  {
    var exact := Named(z.records, Some(n));
    if exact != [] then exact else if n in z.fetch then [z.fetch[n]] else []
  }

  /** `find_r53` */
  function FindR53(reg: Registries, domain: string, name: string): Result<seq<Entity>>
  {
    match R53Query(reg, domain, name)
    case Raised(m) => Raised(m)
    case Ok(q) => Ok(R53Records(q.0, q.1))
  }

  /** A bare name with no zone of its own is looked up as `<name>.<domain>`:
      "d999" in "internal.com." is searched for as "d999.internal.com.". */
  lemma R53QueryBareName(reg: Registries, z: Zone)
    requires reg.zoneFromName("d999").None?
    requires DetectZone(reg.zones, "internal.com.") == Some(z)
    ensures R53Query(reg, "internal.com.", "d999") == Ok((z, "d999.internal.com."))
  {
    assert Fqdn("internal.com.", Some("d999")) == "d999.internal.com.";
  }

  /** The result of `find_r53` is the exact-name records when there are any,
      otherwise at most the one record the zone's `get` returns. */
  lemma FindR53Records(reg: Registries, domain: string, name: string)
    requires FindR53(reg, domain, name).Ok?
    ensures var q := R53Query(reg, domain, name).value;
      var found := FindR53(reg, domain, name).value;
      (forall e :: e in Named(q.0.records, Some(q.1)) ==> e in found) &&
      (Named(q.0.records, Some(q.1)) != [] ==> forall e :: e in found ==> e.name == Some(q.1)) &&
      (Named(q.0.records, Some(q.1)) == [] ==> |found| <= 1)
  {
  }

  // ---------------------------------------------------------------- check_services

  /** `check_services`: node, API client, EC2 and Route53 results concatenated
      in that order. All four probes are consulted whatever the earlier ones
      found; the first one that raises, in the order node, API client, Route53,
      decides the error. In this model the EC2 listing never raises, because
      the AWS calls behind it are taken to succeed. */
  function CheckServices(reg: Registries, domain: string, name: string): (r: Result<seq<Entity>>)
    ensures var node := FindItem(reg.loadNode(name));
      var client := FindItem(reg.loadClient(name));
      var r53 := FindR53(reg, domain, name);
      (r.Raised? <==> node.Raised? || client.Raised? || r53.Raised?) &&
      (node.Raised? ==> r == Raised(node.message)) &&
      (node.Ok? && client.Raised? ==> r == Raised(client.message)) &&
      (node.Ok? && client.Ok? && r53.Raised? ==> r == Raised(r53.message)) &&
      (r.Ok? ==> |r.value| == |node.value| + |client.value| + |LastGroup(reg.servers, Some(name))| + |r53.value|) &&
      (r.Ok? ==> forall e :: e in r.value <==>
         e in node.value || e in client.value || e in LastGroup(reg.servers, Some(name)) || e in r53.value)
  {
    var node := FindItem(reg.loadNode(name));
    var client := FindItem(reg.loadClient(name));
    var ec2 := LastGroup(reg.servers, Some(name));
    var r53 := FindR53(reg, domain, name);
    if node.Raised? then Raised(node.message)
    else if client.Raised? then Raised(client.message)
    else if r53.Raised? then Raised(r53.message)
    else Ok(node.value + client.value + ec2 + r53.value)
  }

  /** The conflicts `check_services` reports are those of the four probes,
      node first, then API client, EC2 and Route53, each as often as its probe
      reports it. */
  lemma CheckServicesConflicts(reg: Registries, domain: string, name: string)
    ensures var node := FindItem(reg.loadNode(name));
      var client := FindItem(reg.loadClient(name));
      var r53 := FindR53(reg, domain, name);
      var r := CheckServices(reg, domain, name);
      (r.Ok? ==> r.value == node.value + client.value + LastGroup(reg.servers, Some(name)) + r53.value) &&
      (r.Ok? ==> multiset(r.value) ==
         multiset(node.value) + multiset(client.value) + multiset(LastGroup(reg.servers, Some(name))) + multiset(r53.value))
  {
  }

  /** A name is free exactly when every registry reports nothing for it. */
  lemma {:induction false} CheckServicesFree(reg: Registries, domain: string, name: string)
    ensures CheckServices(reg, domain, name) == Ok([]) <==>
      reg.loadNode(name) == HttpClientError && reg.loadClient(name) == HttpClientError &&
      (forall i, e :: 0 <= i < |reg.servers| && e in reg.servers[i] ==> e.name != Some(name)) &&
      FindR53(reg, domain, name) == Ok([])
  {
    LastGroupFound(reg.servers, Some(name));
    var node := FindItem(reg.loadNode(name));
    var client := FindItem(reg.loadClient(name));
    var r53 := FindR53(reg, domain, name);
    if CheckServices(reg, domain, name) == Ok([]) {
      assert node.value + client.value + LastGroup(reg.servers, Some(name)) + r53.value == [];
      assert node.value == [] && client.value == [] && LastGroup(reg.servers, Some(name)) == [] && r53.value == [];
    }
  }
}
