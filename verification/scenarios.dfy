/** Whole-iteration scenarios: the driver, the client and the provider model together. */
module Scenarios {
  import opened Wrappers
  import opened Errors
  import opened Network
  import opened Cloudflare
  import opened Provider
  import opened Driver

  /** Reconciliation against the honest provider, as the driver calls it. */
  function ZoneReconciler(): Reconciler<Zone> {
    (z: Zone, zone: string, domain: string, ipv6: string) => ReconcileIn(z, zone, domain, ipv6)
  }

  const TwoDomains := Config("token", "zone-1", ["a.example.com", "b.example.com"], "eth0", 300, 60)

  /**
    Two domains, no records yet, the interface holds 2001:db8::1: both records
    are created with the automatic TTL and the loop sleeps the success interval.
   */
  lemma FreshZoneGetsBothRecords(render: IP -> string)
    requires render(SampleGlobal) == "2001:db8::1"
    ensures var it := Step(TwoDomains, Bound([SampleV4, IPNet(SampleGlobal, [])]), render, Zone([], 0), ZoneReconciler());
            && it.phase == AllCurrent("2001:db8::1")
            && it.sleep == 300
            && it.state.records == [DNSRecord("0", AAAA, "a.example.com", "2001:db8::1", AutoTTL),
                                    DNSRecord("1", AAAA, "b.example.com", "2001:db8::1", AutoTTL)]
  {
    SampleClassification();
    var addrs := [SampleV4, IPNet(SampleGlobal, [])];
    assert addrs[1..] == [IPNet(SampleGlobal, [])];
    assert FirstQualifying(addrs[1..]) == Some(SampleGlobal);
    assert GetIPv6Address("eth0", Bound(addrs)) == Success(SampleGlobal);
    var a := DNSRecord("0", AAAA, "a.example.com", "2001:db8::1", AutoTTL);
    var b := DNSRecord("1", AAAA, "b.example.com", "2001:db8::1", AutoTTL);
    assert IdFor(0) == "0" && IdFor(1) == "1";
    assert Lookup([], "a.example.com") == [];
    assert Desired("a.example.com", "2001:db8::1").(id := "0") == a;
    assert [] + [a] == [a];
    var z1 := ReconcileIn(Zone([], 0), "zone-1", "a.example.com", "2001:db8::1");
    assert z1 == (Success(Created), Zone([a], 1));
    assert !Matches(a, "b.example.com") by { assert a.name[0] != "b.example.com"[0]; }
    assert Lookup([a], "b.example.com") == [];
    assert Desired("b.example.com", "2001:db8::1").(id := "1") == b;
    assert GetDNSRecord(ListReply(Zone([a], 1), "b.example.com")) == Success(None);
    assert [a] + [b] == [a, b];
    var z2 := ReconcileIn(Zone([a], 1), "zone-1", "b.example.com", "2001:db8::1");
    assert z2 == (Success(Created), Zone([a, b], 2));
    var rec := ZoneReconciler();
    assert rec(Zone([], 0), "zone-1", "a.example.com", "2001:db8::1") == z1;
    assert rec(Zone([a], 1), "zone-1", "b.example.com", "2001:db8::1") == z2;
    assert TwoDomains.domains[1..] == ["b.example.com"];
    assert TwoDomains.domains[1..][1..] == [];
    var created: Result<Change, Error> := Success(Created);
    assert [created] + [] == [created];
    assert [created] + [created] == [created, created];
    assert Sweep("zone-1", [], "2001:db8::1", Zone([a, b], 2), rec) == ([], Zone([a, b], 2));
    assert Sweep("zone-1", ["b.example.com"], "2001:db8::1", Zone([a], 1), rec)
        == ([Success(Created)], Zone([a, b], 2));
    var os := Sweep("zone-1", TwoDomains.domains, "2001:db8::1", Zone([], 0), rec);
    assert os == ([Success(Created), Success(Created)], Zone([a, b], 2));
  }

  /** A provider that refuses every write for "d2" and accepts the rest; the state counts calls. */
  function RefusesD2(): Reconciler<nat> {
    (calls: nat, zone: string, domain: string, ipv6: string) =>
      if domain == "d2" then (Failure(ApiError("refused")), calls + 1) else (Success(Updated), calls + 1)
  }

  const ThreeDomains := Config("token", "zone-1", ["d1", "d2", "d3"], "eth0", 300, 60)

  /** d2 fails between two successes: two of three succeed and the iteration still backs off. */
  lemma MiddleDomainFails(render: IP -> string)
    ensures var it := Step(ThreeDomains, Bound([IPNet(SampleGlobal, [])]), render, 0, RefusesD2());
            && it.phase == DomainsIncomplete(DomainsFailed(ApiError("refused")), 2, 3)
            && it.sleep == 60
            && it.tried == ["d1", "d2", "d3"]
            && it.state == 3
  {
  }
}
