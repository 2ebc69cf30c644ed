/**
  The record-store client (cloudflare/cloudflare.go). HTTP and JSON are
  replaced by already-decoded replies: a reply is either a transport failure
  or the provider's envelope {success, errors, result}.
 */
module Cloudflare {
  import opened Wrappers
  import opened Errors

  /** The record type this system manages (RFC 3596 section 2.1). */
  const AAAA := "AAAA"
  /** The provider's "automatic" TTL sentinel. */
  const AutoTTL := 1

  datatype DNSRecord = DNSRecord(id: string, rtype: string, name: string, content: string, ttl: int)

  /** The decoded JSON body of every provider reply; `errors` holds each entry's message. */
  datatype Envelope<T> = Envelope(success: bool, errors: seq<string>, result: T)

  /** What one HTTP call yields: a decoded envelope, or a failure before one existed. */
  datatype Reply<T> = Delivered(envelope: Envelope<T>) | Undelivered(failure: TransportFailure)

  /** The HTTP calls the client attempts, in the order it attempts them. */
  datatype Request =
    | Query(zone: string, rtype: string, name: string)        // GET  .../dns_records?type=&name=
    | Create(zone: string, record: DNSRecord)                  // POST .../dns_records
    | Update(zone: string, id: string, record: DNSRecord)      // PUT  .../dns_records/{id}
  {
    predicate IsWrite() {
      !Query?
    }
  }

  /** What a successful reconciliation did. */
  datatype Change = Unchanged | Created | Updated

  /**
    The outcome of one reconciliation together with every request it
    attempted; an attempt that failed before sending is still listed.
   */
  datatype Reconciliation = Reconciliation(result: Result<Change, Error>, requests: seq<Request>)

  /** The error an envelope reports, shared by the list, create and update calls. */
  function Refusal<T>(env: Envelope<T>): Option<Error> {
    if env.success then None
    else if |env.errors| > 0 then Some(ApiError(env.errors[0]))
    else Some(UnknownApiError)
  }

  /** getDNSRecord: the first listed record, or None when the list is empty. */
  function GetDNSRecord(reply: Reply<seq<DNSRecord>>): (r: Result<Option<DNSRecord>, Error>)
    ensures reply.Undelivered? ==> r == Failure(Transport(reply.failure))
    ensures r.Success? <==> reply.Delivered? && reply.envelope.success
    ensures reply.Delivered? && !reply.envelope.success ==>
              r.Failure? &&
              r.error == (if |reply.envelope.errors| > 0 then ApiError(reply.envelope.errors[0])
                          else UnknownApiError)
    ensures r == Success(None) <==> reply.Delivered? && reply.envelope.success && reply.envelope.result == []
    ensures r.Success? && r.value.Some? ==> r.value.value == reply.envelope.result[0]
  {
    match reply
    case Undelivered(t) => Failure(Transport(t))
    case Delivered(env) =>
      match Refusal(env)
      case Some(e) => Failure(e)
      case None =>
        if |env.result| == 0 then Success(None)
        else Success(Some(env.result[0]))
  }

  /**
    createDNSRecord and updateDNSRecord: both judge the reply by its
    success flag and error list alone; the returned record is not read.
   */
  function CheckWrite(reply: Reply<DNSRecord>): (r: Result<(), Error>)
    ensures reply.Undelivered? ==> r == Failure(Transport(reply.failure))
    ensures r.Success? <==> reply.Delivered? && reply.envelope.success
    ensures reply.Delivered? && !reply.envelope.success ==>
              r.Failure? &&
              r.error == (if |reply.envelope.errors| > 0 then ApiError(reply.envelope.errors[0])
                          else UnknownApiError)
  {
    match reply
    case Undelivered(t) => Failure(Transport(t))
    case Delivered(env) =>
      match Refusal(env)
      case Some(e) => Failure(e)
      case None => Success(())
  }

  /** The record every write sends: provider-assigned ID left empty. */
  function Desired(domain: string, ipv6: string): DNSRecord {
    DNSRecord("", AAAA, domain, ipv6, AutoTTL)
  }

  /** Tags a successful write with the change it made. */
  function Tag(written: Result<(), Error>, change: Change): Result<Change, Error> {
    match written
    case Success(_) => Success(change)
    case Failure(e) => Failure(e)
  }

  /**
    UpdateDNSRecord: fetch the existing record, then skip, create or update.
    `writeReply` is the provider's answer to the write, if one is attempted.
   */
  function UpdateDNSRecord(zone: string, domain: string, ipv6: string,
                           fetchReply: Reply<seq<DNSRecord>>, writeReply: Reply<DNSRecord>): (r: Reconciliation)
    // the lookup is always attempted first, and at most one write follows it
    ensures 1 <= |r.requests| <= 2 && r.requests[0] == Query(zone, AAAA, domain)
    ensures |r.requests| == 2 ==> r.requests[1].IsWrite()
    // a failed lookup is wrapped and nothing is written
    ensures GetDNSRecord(fetchReply).Failure? ==>
              && r.requests == [Query(zone, AAAA, domain)]
              && r.result == Failure(FetchFailed(GetDNSRecord(fetchReply).error))
    // the existing record already holds the address: nothing is written
    ensures var f := GetDNSRecord(fetchReply);
            f.Success? && f.value.Some? && f.value.value.content == ipv6 ==>
              && r.requests == [Query(zone, AAAA, domain)]
              && r.result == Success(Unchanged)
    // no record: exactly one create of the desired record
    ensures GetDNSRecord(fetchReply) == Success(None) ==>
              && r.requests == [Query(zone, AAAA, domain), Create(zone, Desired(domain, ipv6))]
              && (r.result.Success? <==> CheckWrite(writeReply).Success?)
              && (r.result.Success? ==> r.result.value == Created)
              && (r.result.Failure? ==> r.result.error == CheckWrite(writeReply).error)
    // a record with other content: exactly one update, by the existing record's ID
    ensures var f := GetDNSRecord(fetchReply);
            f.Success? && f.value.Some? && f.value.value.content != ipv6 ==>
              && r.requests == [Query(zone, AAAA, domain), Update(zone, f.value.value.id, Desired(domain, ipv6))]
              && (r.result.Success? <==> CheckWrite(writeReply).Success?)
              && (r.result.Success? ==> r.result.value == Updated)
              && (r.result.Failure? ==> r.result.error == CheckWrite(writeReply).error)
    // success without a write is exactly the unchanged case
    ensures r.result.Success? ==> (r.result.value == Unchanged <==> |r.requests| == 1)
  {
    var query := Query(zone, AAAA, domain);
    match GetDNSRecord(fetchReply)
    case Failure(e) => Reconciliation(Failure(FetchFailed(e)), [query])
    case Success(existing) =>
      if existing.Some? && existing.value.content == ipv6 then
        Reconciliation(Success(Unchanged), [query])
      else
        var record := Desired(domain, ipv6);
        if existing.None? then
          Reconciliation(Tag(CheckWrite(writeReply), Created), [query, Create(zone, record)])
        else if existing.value.content != ipv6 then
          Reconciliation(Tag(CheckWrite(writeReply), Updated), [query, Update(zone, existing.value.id, record)])
        else
          // the final `return nil` of the source: the branches above cover every lookup outcome
          assert false;
          Reconciliation(Success(Unchanged), [query])
  }

  /** The list, create and update calls apply one and the same rule to a refusing envelope. */
  lemma SameRefusalRule(success: bool, errors: seq<string>, listed: seq<DNSRecord>, written: DNSRecord)
    ensures GetDNSRecord(Delivered(Envelope(success, errors, listed))).Failure?
        <==> CheckWrite(Delivered(Envelope(success, errors, written))).Failure?
    ensures !success ==>
              GetDNSRecord(Delivered(Envelope(success, errors, listed))).error
              == CheckWrite(Delivered(Envelope(success, errors, written))).error
  {
  }

  /**
    Transport failures stay recognisable: a failed lookup reaches the result
    wrapped once, a failed write reaches it unwrapped.
   */
  lemma TransportFailuresSurface(zone: string, domain: string, ipv6: string,
                                 fetchReply: Reply<seq<DNSRecord>>, writeReply: Reply<DNSRecord>)
    ensures var r := UpdateDNSRecord(zone, domain, ipv6, fetchReply, writeReply);
            && (fetchReply.Undelivered? ==> r.result.Failure? && r.result.error.FetchFailed? && r.result.error.cause.IsTransport())
            && (|r.requests| == 2 && writeReply.Undelivered? ==> r.result.Failure? && r.result.error.IsTransport())
            && (r.result.Failure? && r.result.error.IsTransport() ==> |r.requests| == 2 && writeReply.Undelivered?)
  {
  }
}
