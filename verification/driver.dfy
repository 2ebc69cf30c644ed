/**
  The driver (main.go): reconcile every configured domain in order, fold the
  outcomes into a success count and a last error, and pick the next wait.
  The provider is a state `S` threaded through the per-domain calls, so the
  order in which domains are reconciled is observable.
 */
module Driver {
  import opened Wrappers
  import opened Errors
  import opened Network
  import opened Cloudflare

  /** The configuration, read once and never changed. Intervals are in seconds. */
  datatype Config = Config(
    apiToken: string,
    zoneId: string,
    domains: seq<string>,
    iface: string,
    successInterval: int,
    errorInterval: int)

  /** UpdateDNSRecord(zone, domain, ipv6) against a provider in state S. */
  type Reconciler<!S> = (S, string, string, string) -> (Result<Change, Error>, S)

  /** Reference semantics: each domain reconciled in order, the provider state threaded through. */
  function Sweep<S>(zone: string, domains: seq<string>, ipv6: string, s: S, reconcile: Reconciler<S>)
    : (out: (seq<Result<Change, Error>>, S))
    ensures |out.0| == |domains|
  {
    if domains == [] then ([], s)
    else
      var (r, s1) := reconcile(s, zone, domains[0], ipv6);
      var (rest, s2) := Sweep(zone, domains[1..], ipv6, s1, reconcile);
      ([r] + rest, s2)
  }

  /** How many outcomes are successes. */
  function CountSuccess(os: seq<Result<Change, Error>>): (c: nat)
    ensures c <= |os|
    ensures c == |os| <==> forall i :: 0 <= i < |os| ==> os[i].Success?
    ensures c == 0 <==> forall i :: 0 <= i < |os| ==> os[i].Failure?
  {
    if os == [] then 0
    else
      assert forall i :: 0 < i < |os| ==> os[i] == os[1..][i - 1];
      (if os[0].Success? then 1 else 0) + CountSuccess(os[1..])
  }

  /** Outcome k failed and every later one succeeded. */
  ghost predicate IsLastFailure(os: seq<Result<Change, Error>>, k: int) {
    && 0 <= k < |os|
    && os[k].Failure?
    && forall j :: k < j < |os| ==> os[j].Success?
  }

  /** The error of the last failing outcome, if any failed. */
  function LastFailure(os: seq<Result<Change, Error>>): (e: Option<Error>)
    ensures e.None? <==> forall i :: 0 <= i < |os| ==> os[i].Success?
    ensures e.Some? ==> exists k :: IsLastFailure(os, k) && os[k].error == e.value
  {
    if os == [] then None
    else
      var later := LastFailure(os[1..]);
      assert forall i :: 0 < i < |os| ==> os[i] == os[1..][i - 1];
      assert forall k :: IsLastFailure(os[1..], k) ==> IsLastFailure(os, k + 1);
      if later.Some? then later
      else if os[0].Failure? then
        assert IsLastFailure(os, 0);
        Some(os[0].error)
      else None
  }

  /**
    The variables of updateDomains' loop. `tried` lists the domains handed to
    the reconciler; the threaded state `S` is what makes the order of the
    calls observable (see CallsFollowConfiguration).
   */
  datatype Tally<S> = Tally(tried: seq<string>, successCount: nat, lastErr: Option<Error>, state: S)

  /** updateDomains' loop over the domains still to do; a failure is remembered, never an exit. */
  function Loop<S>(zone: string, rest: seq<string>, ipv6: string, reconcile: Reconciler<S>, t: Tally<S>)
    : (t': Tally<S>)
    ensures var (os, s') := Sweep(zone, rest, ipv6, t.state, reconcile);
            && t'.tried == t.tried + rest
            && t'.successCount == t.successCount + CountSuccess(os)
            && t'.lastErr == (if LastFailure(os).Some? then LastFailure(os) else t.lastErr)
            && t'.state == s'
    decreases |rest|
  {
    if rest == [] then t
    else
      var (r, s1) := reconcile(t.state, zone, rest[0], ipv6);
      var t1 :=
        if r.Failure? then Tally(t.tried + [rest[0]], t.successCount, Some(r.error), s1)
        else Tally(t.tried + [rest[0]], t.successCount + 1, t.lastErr, s1);
      var os := Sweep(zone, rest, ipv6, t.state, reconcile).0;
      assert os[1..] == Sweep(zone, rest[1..], ipv6, s1, reconcile).0;
      assert t.tried + [rest[0]] + rest[1..] == t.tried + rest;
      Loop(zone, rest[1..], ipv6, reconcile, t1)
  }

  /** What updateDomains reports. */
  datatype DomainsReport<S> = DomainsReport(tried: seq<string>, successCount: nat, result: Result<(), Error>, state: S)

  /** updateDomains: every domain attempted in order, failing overall if any one failed. */
  function UpdateDomains<S>(cfg: Config, ipv6: string, s: S, reconcile: Reconciler<S>): (u: DomainsReport<S>)
    ensures var (os, s') := Sweep(cfg.zoneId, cfg.domains, ipv6, s, reconcile);
            && u.tried == cfg.domains
            && u.state == s'
            && u.successCount == CountSuccess(os) <= |cfg.domains|
            && (u.result.Failure? <==> exists i :: 0 <= i < |os| && os[i].Failure?)
            && (u.result.Failure? ==> exists k :: IsLastFailure(os, k) && u.result.error == DomainsFailed(os[k].error))
    ensures cfg.domains == [] ==> u.result.Success? && u.successCount == 0
  {
    var t := Loop(cfg.zoneId, cfg.domains, ipv6, reconcile, Tally([], 0, None, s));
    var result := if t.lastErr.Some? then Failure(DomainsFailed(t.lastErr.value)) else Success(());
    DomainsReport(t.tried, t.successCount, result, t.state)
  }

  /** How one iteration of the main loop ended. */
  datatype Phase =
    | AddressUnavailable(err: Error)
    | DomainsIncomplete(err: Error, succeeded: nat, total: nat)
    | AllCurrent(ipv6: string)

  /** One iteration: its ending, the seconds to sleep, the domains tried and the provider state left. */
  datatype Iteration<S> = Iteration(phase: Phase, sleep: int, tried: seq<string>, state: S)

  /**
    One iteration of main's loop. `render` is the textual form of an address
    (Go's IP.String).
   */
  function Step<S>(cfg: Config, host: InterfaceLookup, render: IP -> string, s: S, reconcile: Reconciler<S>)
    : (it: Iteration<S>)
    ensures it.sleep == if it.phase.AllCurrent? then cfg.successInterval else cfg.errorInterval
    ensures var addr := GetIPv6Address(cfg.iface, host);
            addr.Failure? ==> it == Iteration(AddressUnavailable(addr.error), cfg.errorInterval, [], s)
    ensures var addr := GetIPv6Address(cfg.iface, host);
            addr.Success? ==>
              var (os, s') := Sweep(cfg.zoneId, cfg.domains, render(addr.value), s, reconcile);
              && it.tried == cfg.domains
              && it.state == s'
              && (it.phase.AllCurrent? <==> forall i :: 0 <= i < |os| ==> os[i].Success?)
              && (it.phase.AllCurrent? ==> it.phase.ipv6 == render(addr.value))
              && (it.phase.DomainsIncomplete? ==>
                    && it.phase.succeeded == CountSuccess(os)
                    && it.phase.succeeded < it.phase.total == |cfg.domains|)
    // some domain failed: the iteration reports the count and wraps the last failure's error
    ensures var addr := GetIPv6Address(cfg.iface, host);
            addr.Success? ==>
              var os := Sweep(cfg.zoneId, cfg.domains, render(addr.value), s, reconcile).0;
              (exists i :: 0 <= i < |os| && os[i].Failure?) ==>
                exists k :: IsLastFailure(os, k) &&
                  it.phase == DomainsIncomplete(DomainsFailed(os[k].error), CountSuccess(os), |cfg.domains|)
  {
    match GetIPv6Address(cfg.iface, host)
    case Failure(e) => Iteration(AddressUnavailable(e), cfg.errorInterval, [], s)
    case Success(ip) =>
      var ipv6 := render(ip);
      var u := UpdateDomains(cfg, ipv6, s, reconcile);
      match u.result
      case Failure(e) =>
        Iteration(DomainsIncomplete(e, u.successCount, |cfg.domains|), cfg.errorInterval, u.tried, u.state)
      case Success(_) =>
        Iteration(AllCurrent(ipv6), cfg.successInterval, u.tried, u.state)
  }

  /** Some domains succeeding does not rescue the iteration: one failure selects the error interval. */
  lemma PartialFailureBacksOff<S>(cfg: Config, host: InterfaceLookup, render: IP -> string, s: S,
                                  reconcile: Reconciler<S>, i: int, j: int)
    requires GetIPv6Address(cfg.iface, host).Success?
    requires var os := Sweep(cfg.zoneId, cfg.domains, render(GetIPv6Address(cfg.iface, host).value), s, reconcile).0;
             0 <= i < |os| && 0 <= j < |os| && os[i].Failure? && os[j].Success?
    ensures var it := Step(cfg, host, render, s, reconcile);
            && it.sleep == cfg.errorInterval
            && it.phase.DomainsIncomplete?
            && 0 < it.phase.succeeded < it.phase.total
  {
  }

  /** A reconciler that changes nothing and appends each domain it is called with to a log. */
  function Recorder(): Reconciler<seq<string>> {
    (log: seq<string>, zone: string, domain: string, ipv6: string) => (Success(Unchanged), log + [domain])
  }

  lemma {:induction false} RecorderSweep(zone: string, domains: seq<string>, ipv6: string, log: seq<string>)
    ensures Sweep(zone, domains, ipv6, log, Recorder()).1 == log + domains
    decreases |domains|
  {
    if domains != [] {
      RecorderSweep(zone, domains[1..], ipv6, log + [domains[0]]);
      assert log + [domains[0]] + domains[1..] == log + domains;
    }
  }

  /** The reconciler is called once per configured domain, in configuration order. */
  lemma CallsFollowConfiguration(cfg: Config, ipv6: string, log: seq<string>)
    ensures UpdateDomains(cfg, ipv6, log, Recorder()).state == log + cfg.domains
  {
    RecorderSweep(cfg.zoneId, cfg.domains, ipv6, log);
  }
}
