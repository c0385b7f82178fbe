/** Fetching one source URL (`fetch`, caddyfile.go:47-96) and the request
    deadline `getContext` chooses. The HTTP round trip is a parameter. */
module Fetch {
  import opened Types
  import opened Collect
  import opened Lines

  /** A response: its status code and the lines the scanner reads from its
      body. */
  datatype Response = Response(status: int, body: seq<string>)

  /** http.NewRequestWithContext plus http.DefaultClient.Do for a GET of a
      URL, under an optional deadline in nanoseconds. */
  type HttpGet = (string, Option<int>) -> Result<Response>

  /** getContext: a request is bounded by the timeout exactly when the
      timeout is positive; otherwise it is only cancellable. */
  function RequestDeadline(timeout: int): (deadline: Option<int>)
    ensures deadline.Some? <==> timeout > 0
    ensures deadline.Some? ==> deadline.value == timeout
  {
    if timeout > 0 then Some(timeout) else None
  }

  predicate IsSuccessStatus(status: int)
  {
    200 <= status <= 299
  }

  /** `fetch` as written: the body is parsed whatever the status code. */
  function FetchAsWritten(get: HttpGet, cidr: CidrParser, deadline: Option<int>, url: string): (r: Result<seq<Prefix>>)
    ensures r.Ok? ==> get(url, deadline).Ok?
    ensures get(url, deadline).Err? ==> r == Err(get(url, deadline).error)
    ensures get(url, deadline).Ok? && r.Err? ==> r.error.BadCidr?
  {
    match get(url, deadline)
    case Err(e) => Err(e)
    case Ok(resp) => ParseLines(resp.body, cidr)
  }

  /** `fetch` with the status check it lacks: only a 2xx body is a list. */
  function FetchChecked(get: HttpGet, cidr: CidrParser, deadline: Option<int>, url: string): (r: Result<seq<Prefix>>)
    ensures r.Ok? ==> get(url, deadline).Ok? && IsSuccessStatus(get(url, deadline).value.status)
  {
    match get(url, deadline)
    case Err(e) => Err(e)
    case Ok(resp) =>
      if IsSuccessStatus(resp.status) then ParseLines(resp.body, cidr)
      else Err(BadStatus(resp.status))
  }

  /** The per-URL fetch the aggregation runs: the code's `fetch`. */
  function Fetcher(get: HttpGet, cidr: CidrParser, deadline: Option<int>): string -> Result<seq<Prefix>>
  {
    url => FetchAsWritten(get, cidr, deadline, url)
  }

  /** As written, the status code is never consulted: two responses with the
      same body give the same result, whatever their status. */
  lemma FetchAsWrittenIgnoresStatus(get: HttpGet, get': HttpGet, cidr: CidrParser, deadline: Option<int>, url: string)
    requires get(url, deadline).Ok? && get'(url, deadline).Ok?
    requires get(url, deadline).value.body == get'(url, deadline).value.body
    ensures FetchAsWritten(get, cidr, deadline, url) == FetchAsWritten(get', cidr, deadline, url)
  {
  }

  /** As written, an error response whose body holds no expression (a 500 with
      an empty body) reads as a successful, empty list. */
  lemma ErrorPageAcceptedAsWritten(get: HttpGet, cidr: CidrParser, deadline: Option<int>, url: string)
    requires get(url, deadline) == Ok(Response(500, []))
    ensures FetchAsWritten(get, cidr, deadline, url) == Ok([])
  {
  }

  /** With the status check a list is only ever taken from a 2xx response,
      and then it is that body's list; a transport error passes unchanged. */
  lemma FetchCheckedOnlyFromSuccess(get: HttpGet, cidr: CidrParser, deadline: Option<int>, url: string)
    ensures var r := FetchChecked(get, cidr, deadline, url);
      && (r.Ok? ==> get(url, deadline).Ok? && IsSuccessStatus(get(url, deadline).value.status)
                    && r == ParseLines(get(url, deadline).value.body, cidr))
      && (get(url, deadline).Err? ==> r == Err(get(url, deadline).error))
      && (get(url, deadline).Ok? && !IsSuccessStatus(get(url, deadline).value.status) ==>
            r == Err(BadStatus(get(url, deadline).value.status)))
  {
  }

  /** The two agree on every 2xx response and on every transport error. */
  lemma FetchCheckedAgreesOnSuccess(get: HttpGet, cidr: CidrParser, deadline: Option<int>, url: string)
    requires get(url, deadline).Err? || IsSuccessStatus(get(url, deadline).value.status)
    ensures FetchChecked(get, cidr, deadline, url) == FetchAsWritten(get, cidr, deadline, url)
  {
  }
}
