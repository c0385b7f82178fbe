/** Values shared by every part of the ip_sources.list module model. */
module Types {

  datatype Option<+T> = None | Some(value: T)

  /** The `(value, error)` pair a Go function returns, as one value. */
  datatype Result<+T> = Ok(value: T) | Err(error: Error)

  /** A parsed CIDR range (Go's netip.Prefix): an address and a mask length.
      Its canonical form is the business of the CIDR parser, which the model
      takes as a parameter. */
  datatype Prefix = Prefix(addr: seq<bv8>, bits: nat)

  /** The errors the module returns or passes on. */
  datatype Error =
    | Transport(message: string)     // building or sending the HTTP request failed
    | BadStatus(code: int)           // a response outside 2xx (corrected fetch only)
    | BadCidr(expr: string)          // the CIDR parser refused a list entry
    | InitialFetch(cause: Error)     // Provision's wrapping of the first fetch's error
    | ArgErr                         // the Caddyfile dispenser's argument error
    | BadDuration(text: string)      // the duration parser refused an option value
}
