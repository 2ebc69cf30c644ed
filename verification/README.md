# cloudflare-ddns in Dafny

A model of the core of a dynamic-DNS updater. Each round it finds the
machine's IPv6 address on one network interface. It then makes the Cloudflare
"AAAA" record (RFC 3596 section 2.1) of every configured domain point at that
address, and sleeps for a success interval or an error interval.

The model has three parts. HTTP, JSON, YAML and the operating system are
replaced by plain values.

- **Address selection** (`Network`, from `network/network.go`). An address is
  Go's `net.IP`, a byte sequence. Go's `To4` and `IsLinkLocalUnicast` are
  written out. The selection returns the first `IPNet` entry of the
  interface's address list that is neither IPv4 nor link-local. IPv4-mapped
  addresses count as IPv4, and link-local means fe80::/10 (section 2.5.6 of
  RFC 4291). If no entry qualifies, the result is a not-found error that
  names the interface.
- **The record client and reconciliation** (`Cloudflare`, from
  `cloudflare/cloudflare.go`). A provider reply is either a transport failure
  or a decoded envelope `{success, errors, result}`. `UpdateDNSRecord` does
  one of four things:
  - it propagates a lookup error;
  - it skips when the record already holds the address;
  - it creates `{type AAAA, name domain, content address, TTL 1}` when no record exists;
  - it updates by the existing record's ID when the content differs.
  
  It also returns every request it attempts, so "which write, with which
  fields" can be stated. `Provider` models the provider's side: a zone of
  records in listing order, an honest list call, create by appending and
  update by ID. Against that zone, reconciliation converges, and a second
  call with the same address writes nothing.
- **The driver** (`Driver`, from `main.go`). `UpdateDomains` reconciles every
  domain in configuration order and never exits early. It counts the
  successes, remembers the last error, and fails overall if any domain
  failed. `Step` is one iteration of the endless loop. It looks up the
  address, updates the domains and returns the interval to sleep. The
  per-domain call is a parameter that threads the provider's state, so the
  order of the calls is observable. `Scenarios` runs whole iterations
  against concrete inputs.

`Errors` holds one constructor for each error the core builds. A wrapped
error keeps its cause, and `Message` renders the text Go would print.

Behaviours of the code worth noting:

- The lookup returns whatever record the provider lists first. It does not
  check that record's type or name itself.
- The code rejects IPv4-mapped addresses as well as plain IPv4 ones, because
  `To4` treats them as IPv4.
- The code reports two distinct lookup failures: the interface lookup and
  the address listing.
- Go's `UpdateDNSRecord` returns only `nil` or an error. The model refines
  success into `Unchanged`, `Created` or `Updated`. It keeps the
  success/failure split exactly as the code has it.

## Model

| member | source | states |
|---|---|---|
| Network.To4 | network/network.go:27 | an address has a 4-byte form exactly when it has 4 bytes, or 16 bytes that start with ::ffff:0:0/96; that form is its last four bytes |
| Network.MappedIsIPv4 | network/network_test.go:45-48 | `To4` recovers the embedded IPv4 address of any IPv4-mapped address, so such an address never qualifies |
| Network.LinkLocalIsFe80Slash10 | network/network.go:27 | for a 16-byte address that is not IPv4-mapped, link-local by Go's mask test is exactly membership in fe80::/10 |
| Network.FirstQualifying | network/network.go:25-31 | the scan finds nothing exactly when no entry qualifies; otherwise it returns the address of the first qualifying entry, skipping every earlier one |
| Network.GetIPv6Address | network/network.go:14-34 | an interface or address-listing failure is returned before any scan; a success is the first qualifying `IPNet` entry and is neither IPv4 nor link-local; otherwise the error reads "no IPv6 address found for interface <name>" |
| Network.SkipsIPv4AndLinkLocal | network/network.go:25-31 | for [IPv4, link-local, global] the global address is chosen |
| Network.NothingQualifies | network/network_test.go:28-33 | for [IPv4, link-local] the result is the not-found error for that interface |
| Cloudflare.GetDNSRecord | cloudflare/cloudflare.go:61-109 | a transport failure passes through; success=false yields the first error message, or the unknown error when there is none; a successful empty list is absence, not an error; otherwise the first listed record is returned unchanged |
| Cloudflare.CheckWrite | cloudflare/cloudflare.go:136-149 | a create or update succeeds exactly when the reply arrived with success=true; a refusal carries the first error message or the unknown error (updateDNSRecord, lines 177-190, is identical) |
| Cloudflare.SameRefusalRule | cloudflare/cloudflare.go:83-88 | the list call and the write calls reject the same envelopes with the same error (lines 141-146 and 182-187 repeat the rule) |
| Cloudflare.UpdateDNSRecord | cloudflare/cloudflare.go:194-228 | the lookup comes first and at most one write follows; a lookup error is wrapped and nothing is written; equal content writes nothing; no record creates exactly the AAAA/domain/address/TTL-1 record with empty ID; other content updates exactly once by the existing ID; every lookup outcome falls in one of these branches, so the final `return nil` is unreachable |
| Provider.Lookup | cloudflare/cloudflare.go:63 | the list call returns only records of type AAAA with the queried name; it is empty exactly when the zone has none; its head is the zone's first such record |
| Provider.FetchFromZone | cloudflare/cloudflare.go:90-108 | against the zone, the lookup never fails; it is absent exactly when no record matches, and otherwise it is the first matching record in zone order |
| Provider.NoWriteWhenCurrent | cloudflare/cloudflare.go:203-207 | when the zone's first match already holds the address, reconciliation issues only the lookup and reports no change, whatever a write would have been answered |
| Provider.HonestProviderAccepts | cloudflare/cloudflare.go:209-225 | against a provider that accepts every write, reconciliation always succeeds |
| Provider.ConvergesAfterSuccess | cloudflare/cloudflare.go:209-225 | after reconciliation, whether it skipped, created or updated, the zone's first record for the domain holds the new address |
| Provider.SecondCallIsNoOp | cloudflare/cloudflare.go:203-225 | idempotence: after one reconciliation, a second one with the same address writes nothing and leaves the zone as it is |
| Provider.OtherNamesUntouched | cloudflare/cloudflare.go:221-225 | with unique record IDs, reconciling one domain does not change what any other name resolves to |
| Provider.ReconcileKeepsWellFormed | cloudflare/cloudflare.go:209-225 | reconciliation keeps record IDs unique and clear of every ID still to be handed out: a create takes a fresh ID and an update keeps every ID, so OtherNamesUntouched applies at every step of a sweep |
| Cloudflare.TransportFailuresSurface | cloudflare/cloudflare.go:72-80 | a transport failure of the lookup reaches the result wrapped once; a transport failure of the write reaches it unwrapped; a transport error in the result comes only from an attempted write whose reply never arrived |
| Driver.CountSuccess | main.go:55 | the count is at most the number of outcomes; it equals that number exactly when all succeeded, and is zero exactly when all failed |
| Driver.LastFailure | main.go:53 | absent exactly when every outcome succeeded; otherwise the error of a failing outcome after which every outcome succeeded |
| Driver.Loop | main.go:49-57 | from any point of the loop, the remaining domains are all attempted in order; the count grows by their successes; the last error is replaced only by a later failure |
| Driver.UpdateDomains | main.go:45-67 | every configured domain is attempted in order; the success count is the number of successful outcomes and at most the number of domains; the result fails exactly when some domain failed, wrapping the last failure's error; an empty list succeeds |
| Driver.Step | main.go:81-98 | an address error sleeps the error interval and reconciles nothing; otherwise every domain is tried with the rendered address; the success interval is chosen exactly when every domain succeeded; when some domain failed the iteration reports the success count, the total and the wrapped error of the last failing domain |
| Driver.CallsFollowConfiguration | main.go:49-50 | with a reconciler that logs each call, the final log is the configured domains in configuration order, one call each |
| Driver.PartialFailureBacksOff | main.go:59-63 | one failure among successes still classifies the iteration as failed, with 0 < successes < total, and selects the error interval |
| Scenarios.FreshZoneGetsBothRecords | main.go:81-97 | two domains, an empty zone and 2001:db8::1 on the interface: both records are created with TTL 1 and the loop sleeps 300 s |
| Scenarios.MiddleDomainFails | main.go:45-63 | with d2 refused between d1 and d3, all three are tried, 2 of 3 succeed, the error wraps d2's refusal and the loop sleeps 60 s |

## Left out

- HTTP request construction, URLs, headers and the HTTP round trip are I/O. A failure there is the `Transport` error kind, with the failing stage as its constructor.
- JSON decoding is done by a library serializer. Envelopes arrive already decoded. A malformed body is the `DecodeFailed` transport failure.
- The `json.Marshal` error branch of the create and update calls is left out. Marshalling a record of strings and an int cannot fail.
- YAML configuration loading and flag parsing are file I/O. `Config` is an immutable input.
- `time.Sleep` and the endless `for` loop are not modelled as a loop. `Step` is one iteration and returns the seconds to sleep. Converting the interval to a `time.Duration` could overflow for very large values; that is not modelled.
- Go's standard library is not part of this model: `net.InterfaceByName`, `Addrs`, `IP.String`, `net.ParseIP`. The interface's state is the `InterfaceLookup` input. The textual form of an address is the `render` parameter of `Step`.
- `log.Printf` calls, including the partial-success log line, carry no behaviour. `Step` returns the success count and total in its result instead.
- The test that loops over the host's live interfaces depends on the machine. Only its assertions are used, as properties of `GetIPv6Address`.
- Provider.OtherNamesUntouched: takes unique record IDs as a precondition. A zone that starts WellFormed, the empty zone included, keeps it through every reconciliation (ReconcileKeepsWellFormed). A zone seeded with duplicate IDs is outside the lemma.
