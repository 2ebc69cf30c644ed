/**
  Every error value the core can produce. Go builds these with fmt.Errorf;
  here each wrapping layer is a constructor, so the cause of a wrapped error
  stays inspectable, and Message renders the text Go would print.
 */
module Errors {

  /** Why a call to the provider never produced a decoded envelope. */
  datatype TransportFailure =
    | BuildFailed(detail: string)     // the HTTP request could not be built
    | SendFailed(detail: string)      // the HTTP round trip failed
    | DecodeFailed(detail: string)    // the reply body was not the expected JSON

  datatype Error =
    | Transport(failure: TransportFailure)
      /** the provider answered with success=false and at least one message */
    | ApiError(message: string)
      /** the provider answered with success=false and no message */
    | UnknownApiError
      /** the lookup of the existing record failed; wraps its error */
    | FetchFailed(cause: Error)
    | InterfaceFailed(detail: string)
    | AddrsFailed(detail: string)
    | NoIPv6Address(interfaceName: string)
      /** at least one domain failed; wraps the error of the last failing one */
    | DomainsFailed(cause: Error)
  {
    /** Transport errors and provider-reported errors are distinguishable kinds. */
    predicate IsTransport() {
      Transport?
    }

    /** The text Go's error value prints. */
    function Message(): string {
      match this
      case Transport(BuildFailed(d)) => "error creating request: " + d
      case Transport(SendFailed(d)) => "error making request: " + d
      case Transport(DecodeFailed(d)) => "error decoding response: " + d
      case ApiError(m) => "cloudflare API error: " + m
      case UnknownApiError => "unknown cloudflare API error"
      case FetchFailed(c) => "error getting existing record: " + c.Message()
      case InterfaceFailed(d) => "error getting interface: " + d
      case AddrsFailed(d) => "error getting addresses: " + d
      case NoIPv6Address(n) => "no IPv6 address found for interface " + n
      case DomainsFailed(c) => "error updating some domains: " + c.Message()
    }
  }
}
