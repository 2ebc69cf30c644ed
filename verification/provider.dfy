/**
  A model of the provider's side: a zone holding records in listing order.
  The provider answers honestly, a successful create appends the record under
  a fresh ID and a successful update replaces the record with that ID. This
  is the store against which reconciliation is shown to converge.
 */
module Provider {
  import opened Wrappers
  import opened Errors
  import opened Cloudflare

  /** The records of one zone in listing order; `issued` counts the IDs handed out. */
  datatype Zone = Zone(records: seq<DNSRecord>, issued: nat)

  /** The list call filters by `type=AAAA&name=<domain>`. */
  predicate Matches(rec: DNSRecord, name: string) {
    rec.rtype == AAAA && rec.name == name
  }

  /** Records i matches and no earlier record does. */
  ghost predicate IsFirstMatch(records: seq<DNSRecord>, name: string, i: int) {
    && 0 <= i < |records|
    && Matches(records[i], name)
    && forall j :: 0 <= j < i ==> !Matches(records[j], name)
  }

  /** The records the list call returns, in zone order. */
  function Lookup(records: seq<DNSRecord>, name: string): (found: seq<DNSRecord>)
    ensures |found| <= |records|
    ensures forall k :: 0 <= k < |found| ==> Matches(found[k], name)
    ensures found == [] <==> forall i :: 0 <= i < |records| ==> !Matches(records[i], name)
    ensures found != [] ==> exists i :: IsFirstMatch(records, name, i) && records[i] == found[0]
  {
    if records == [] then []
    else
      var rest := Lookup(records[1..], name);
      assert forall i :: 0 < i < |records| ==> records[i] == records[1..][i - 1];
      if Matches(records[0], name) then
        assert IsFirstMatch(records, name, 0);
        [records[0]] + rest
      else
        assert forall i :: IsFirstMatch(records[1..], name, i) ==> IsFirstMatch(records, name, i + 1);
        rest
  }

  /** The honest reply to the list call. */
  function ListReply(z: Zone, name: string): Reply<seq<DNSRecord>> {
    Delivered(Envelope(true, [], Lookup(z.records, name)))
  }

  /** The honest reply to a write. */
  function Accepted(rec: DNSRecord): Reply<DNSRecord> {
    Delivered(Envelope(true, [], rec))
  }

  /** A provider-assigned ID: the decimal rendering of a counter. */
  function IdFor(n: nat): string {
    var digit := ['0', '1', '2', '3', '4', '5', '6', '7', '8', '9'][n % 10];
    if n < 10 then [digit] else IdFor(n / 10) + [digit]
  }

  /** PUT by ID: every record carrying `id` becomes `rec`, keeping the ID. */
  function ReplaceById(records: seq<DNSRecord>, id: string, rec: DNSRecord): (out: seq<DNSRecord>)
    ensures |out| == |records|
    ensures forall i :: 0 <= i < |records| ==>
              out[i] == if records[i].id == id then rec.(id := id) else records[i]
  {
    if records == [] then []
    else [if records[0].id == id then rec.(id := id) else records[0]] + ReplaceById(records[1..], id, rec)
  }

  /** The effect of one accepted request on the zone. */
  function Apply(z: Zone, req: Request): Zone {
    match req
    case Query(_, _, _) => z
    case Create(_, rec) => Zone(z.records + [rec.(id := IdFor(z.issued))], z.issued + 1)
    case Update(_, id, rec) => Zone(ReplaceById(z.records, id, rec), z.issued)
  }

  /** One UpdateDNSRecord call against the honest provider, and the zone it leaves. */
  function ReconcileIn(z: Zone, zone: string, domain: string, ipv6: string): (Result<Change, Error>, Zone) {
    var r := UpdateDNSRecord(zone, domain, ipv6, ListReply(z, domain), Accepted(Desired(domain, ipv6)));
    (r.result, if |r.requests| == 2 then Apply(z, r.requests[1]) else z)
  }

  /** The first record the list call returns holds `ipv6`. */
  predicate Resolves(z: Zone, name: string, ipv6: string) {
    var found := Lookup(z.records, name);
    found != [] && found[0].content == ipv6
  }

  lemma {:induction false} LookupAppend(a: seq<DNSRecord>, b: seq<DNSRecord>, name: string)
    ensures Lookup(a + b, name) == Lookup(a, name) + Lookup(b, name)
    decreases |a|
  {
    if a == [] {
      assert a + b == b;
    } else {
      assert (a + b)[1..] == a[1..] + b;
      LookupAppend(a[1..], b, name);
    }
  }

  /**
    Replacing by the ID of the first match with a record that matches makes
    the replacement the first match.
   */
  lemma {:induction false} ReplaceFirstMatch(records: seq<DNSRecord>, name: string, rec: DNSRecord)
    requires Lookup(records, name) != []
    requires Matches(rec, name)
    ensures var id := Lookup(records, name)[0].id;
            Lookup(ReplaceById(records, id, rec), name) != [] &&
            Lookup(ReplaceById(records, id, rec), name)[0] == rec.(id := id)
    decreases |records|
  {
    var id := Lookup(records, name)[0].id;
    var out := ReplaceById(records, id, rec);
    assert out[1..] == ReplaceById(records[1..], id, rec);
    if !Matches(records[0], name) && records[0].id != id {
      assert Lookup(records[1..], name) == Lookup(records, name);
      ReplaceFirstMatch(records[1..], name, rec);
    }
  }

  /** Once the zone resolves `domain` to `ipv6`, reconciliation writes nothing, whatever a write would have been answered. */
  lemma NoWriteWhenCurrent(z: Zone, zone: string, domain: string, ipv6: string, writeReply: Reply<DNSRecord>)
    requires Resolves(z, domain, ipv6)
    ensures UpdateDNSRecord(zone, domain, ipv6, ListReply(z, domain), writeReply)
            == Reconciliation(Success(Unchanged), [Query(zone, AAAA, domain)])
  {
  }

  /** The honest provider accepts every write, so reconciliation against it always succeeds. */
  lemma HonestProviderAccepts(z: Zone, zone: string, domain: string, ipv6: string)
    ensures ReconcileIn(z, zone, domain, ipv6).0.Success?
  {
  }

  /** After reconciliation (which always succeeds here) the zone resolves the domain to the new address. */
  lemma ConvergesAfterSuccess(z: Zone, zone: string, domain: string, ipv6: string)
    ensures Resolves(ReconcileIn(z, zone, domain, ipv6).1, domain, ipv6)
  {
    var r := UpdateDNSRecord(zone, domain, ipv6, ListReply(z, domain), Accepted(Desired(domain, ipv6)));
    var found := Lookup(z.records, domain);
    if found == [] {
      var rec := Desired(domain, ipv6).(id := IdFor(z.issued));
      LookupAppend(z.records, [rec], domain);
      assert Lookup([rec], domain) == [rec];
    } else if found[0].content != ipv6 {
      ReplaceFirstMatch(z.records, domain, Desired(domain, ipv6));
    }
  }

  /**
    Idempotence: after a reconciliation (always successful against this
    provider), a second one with the same address issues only the lookup and
    reports no change.
   */
  lemma SecondCallIsNoOp(z: Zone, zone: string, domain: string, ipv6: string, writeReply: Reply<DNSRecord>)
    ensures var z1 := ReconcileIn(z, zone, domain, ipv6).1;
            && UpdateDNSRecord(zone, domain, ipv6, ListReply(z1, domain), writeReply)
               == Reconciliation(Success(Unchanged), [Query(zone, AAAA, domain)])
            && ReconcileIn(z1, zone, domain, ipv6) == (Success(Unchanged), z1)
  {
    ConvergesAfterSuccess(z, zone, domain, ipv6);
    var z1 := ReconcileIn(z, zone, domain, ipv6).1;
    NoWriteWhenCurrent(z1, zone, domain, ipv6, writeReply);
    NoWriteWhenCurrent(z1, zone, domain, ipv6, Accepted(Desired(domain, ipv6)));
  }

  /** The list call against the zone yields exactly its first matching record, or absence. */
  lemma FetchFromZone(z: Zone, name: string)
    ensures GetDNSRecord(ListReply(z, name)).Success?
    ensures GetDNSRecord(ListReply(z, name)) == Success(None)
            <==> forall i :: 0 <= i < |z.records| ==> !Matches(z.records[i], name)
    ensures forall rec :: GetDNSRecord(ListReply(z, name)) == Success(Some(rec)) ==>
              exists i :: IsFirstMatch(z.records, name, i) && z.records[i] == rec
  {
  }

  /** No two records of the zone share an ID. */
  ghost predicate UniqueIds(z: Zone) {
    forall i, j :: 0 <= i < j < |z.records| ==> z.records[i].id != z.records[j].id
  }

  lemma {:induction false} ReplaceKeepsOtherNames(records: seq<DNSRecord>, id: string, rec: DNSRecord, other: string)
    requires !Matches(rec, other)
    requires forall i :: 0 <= i < |records| && records[i].id == id ==> !Matches(records[i], other)
    ensures Lookup(ReplaceById(records, id, rec), other) == Lookup(records, other)
    decreases |records|
  {
    if records != [] {
      var out := ReplaceById(records, id, rec);
      assert out[1..] == ReplaceById(records[1..], id, rec);
      assert forall i :: 0 < i < |records| ==> records[i] == records[1..][i - 1];
      ReplaceKeepsOtherNames(records[1..], id, rec, other);
    }
  }

  /**
    Reconciling one domain leaves what the list call returns for every other
    name unchanged. WellFormed implies the precondition and reconciliation
    keeps WellFormed, so this holds at every step of a sweep over the domains.
   */
  lemma OtherNamesUntouched(z: Zone, zone: string, domain: string, ipv6: string, other: string)
    requires other != domain
    requires UniqueIds(z)
    ensures Lookup(ReconcileIn(z, zone, domain, ipv6).1.records, other) == Lookup(z.records, other)
  {
    var found := Lookup(z.records, domain);
    var rec := Desired(domain, ipv6);
    if found == [] {
      var created := rec.(id := IdFor(z.issued));
      LookupAppend(z.records, [created], other);
      assert Lookup([created], other) == [];
    } else if found[0].content != ipv6 {
      var k :| IsFirstMatch(z.records, domain, k) && z.records[k] == found[0];
      forall i | 0 <= i < |z.records| && z.records[i].id == found[0].id
        ensures !Matches(z.records[i], other)
      {
        if i != k {
          assert false;
        }
      }
      ReplaceKeepsOtherNames(z.records, found[0].id, rec, other);
      assert ReconcileIn(z, zone, domain, ipv6).1.records == ReplaceById(z.records, found[0].id, rec);
    }
  }

  /**
    The zone's IDs are unique, and none of them is an ID the counter has yet
    to hand out. An empty zone satisfies this.
   */
  ghost predicate WellFormed(z: Zone) {
    && UniqueIds(z)
    && forall i, n :: 0 <= i < |z.records| && z.issued <= n ==> z.records[i].id != IdFor(n)
  }

  lemma EmptyZoneWellFormed()
    ensures WellFormed(Zone([], 0))
  {
  }

  lemma IdForLength(n: nat)
    ensures 1 <= |IdFor(n)|
    ensures 10 <= n ==> 2 <= |IdFor(n)|
  {
  }

  /** Distinct counter values give distinct IDs. */
  lemma {:induction false} IdForInjective(a: nat, b: nat)
    requires IdFor(a) == IdFor(b)
    ensures a == b
    decreases a
  {
    var digits := ['0', '1', '2', '3', '4', '5', '6', '7', '8', '9'];
    var fa, fb := IdFor(a), IdFor(b);
    assert fa[|fa| - 1] == digits[a % 10] && fb[|fb| - 1] == digits[b % 10];
    assert a % 10 == b % 10;
    IdForLength(a);
    IdForLength(b);
    if 10 <= a && 10 <= b {
      assert IdFor(a / 10) == fa[..|fa| - 1] == fb[..|fb| - 1] == IdFor(b / 10);
      IdForInjective(a / 10, b / 10);
    }
  }

  /** Reconciliation keeps the zone WellFormed: a create takes a fresh ID, an update keeps every ID. */
  lemma ReconcileKeepsWellFormed(z: Zone, zone: string, domain: string, ipv6: string)
    requires WellFormed(z)
    ensures WellFormed(ReconcileIn(z, zone, domain, ipv6).1)
  {
    var found := Lookup(z.records, domain);
    var z1 := ReconcileIn(z, zone, domain, ipv6).1;
    if found == [] {
      var newId := IdFor(z.issued);
      assert z1.records == z.records + [Desired(domain, ipv6).(id := newId)];
      forall i, n | 0 <= i < |z1.records| && z1.issued <= n
        ensures z1.records[i].id != IdFor(n)
      {
        if i == |z.records| {
          if newId == IdFor(n) {
            IdForInjective(z.issued, n);
          }
        }
      }
    } else if found[0].content != ipv6 {
      assert forall i :: 0 <= i < |z.records| ==> z1.records[i].id == z.records[i].id;
    }
  }
}
