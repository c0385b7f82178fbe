/** URLIPRange (caddyfile.go:23-37): the configured source URLs, the refresh
    interval and request timeout, and the prefix list it publishes. */
module IpRange {
  import opened Types
  import opened Collect
  import opened Lines
  import opened Fetch
  import opened Options

  /** The list in force after a provisioned `initial` list and a run of
      refresh outcomes: each success replaces it, each failure keeps it. */
  function LastGood(initial: seq<Prefix>, outcomes: seq<Result<seq<Prefix>>>): (r: seq<Prefix>)
    ensures r == initial || exists k :: 0 <= k < |outcomes| && outcomes[k] == Ok(r)
    decreases |outcomes|
  {
    if outcomes == [] then initial
    else match outcomes[|outcomes| - 1]
      case Ok(ps) => ps
      case Err(_) => LastGood(initial, outcomes[..|outcomes| - 1])
  }

  /** The list in force is the one the latest successful refresh fetched. */
  lemma {:induction false} LastGoodIsLatestSuccess(initial: seq<Prefix>, outcomes: seq<Result<seq<Prefix>>>, k: nat)
    requires k < |outcomes| && outcomes[k].Ok?
    requires forall j :: k < j < |outcomes| ==> outcomes[j].Err?
    ensures LastGood(initial, outcomes) == outcomes[k].value
    decreases |outcomes|
  {
    if k < |outcomes| - 1 {
      var init := outcomes[..|outcomes| - 1];
      assert init[k] == outcomes[k];
      forall j | k < j < |init| ensures init[j].Err? { assert init[j] == outcomes[j]; }
      LastGoodIsLatestSuccess(initial, init, k);
    }
  }

  /** Without a successful refresh the provisioned list stays in force. */
  lemma {:induction false} LastGoodWithoutSuccess(initial: seq<Prefix>, outcomes: seq<Result<seq<Prefix>>>)
    requires forall j :: 0 <= j < |outcomes| ==> outcomes[j].Err?
    ensures LastGood(initial, outcomes) == initial
    decreases |outcomes|
  {
    if outcomes != [] {
      var init := outcomes[..|outcomes| - 1];
      forall j | 0 <= j < |init| ensures init[j].Err? { assert init[j] == outcomes[j]; }
      LastGoodWithoutSuccess(initial, init);
    }
  }

  class URLIPRange {
    var URLs: seq<string>
    var Interval: int
    var Timeout: int
    /** The published prefix list. */
    var ranges: seq<Prefix>
    /** Whether Provision has started the refresh loop. */
    var running: bool

    /** The list Provision fetched, and the outcome of every refresh since. */
    ghost var initial: seq<Prefix>
    ghost var ticks: seq<Result<seq<Prefix>>>

    /** While the refresh loop runs, the published list is the last one
        fetched successfully. */
    ghost predicate Valid()
      reads this
    {
      running ==> ranges == LastGood(initial, ticks)
    }

    /** The configurable fields, as one value. */
    function Settings(): Config
      reads this
    {
      Config(URLs, Interval, Timeout)
    }

    /** The zero value `URLIPRange{}`. */
    constructor ()
      ensures Valid() && !running
      ensures Settings() == Config([], 0, 0) && ranges == []
    {
      URLs, Interval, Timeout := [], 0, 0;
      ranges, running := [], false;
      initial, ticks := [], [];
    }

    /** UnmarshalCaddyfile: reads the `list` directive into the options. */
    method UnmarshalCaddyfile(d: Directive, parse: DurationParser) returns (err: Option<Error>)
      requires Valid()
      modifies this`URLs, this`Interval, this`Timeout
      ensures Valid()
      ensures Unmarshalled(Settings(), err) == Unmarshal(old(Settings()), d, parse)
    {
      if d.args != [] {
        return Some(ArgErr);
      }
      var toks := d.block;
      var i := 0;
      while i < |toks|
        invariant 0 <= i <= |toks|
        invariant Block(Settings(), toks[i..], parse) == Block(old(Settings()), toks, parse)
        decreases |toks| - i
      {
        var word := toks[i].text;
        var hasArg := i + 1 < |toks| && toks[i + 1].line == toks[i].line;
        assert toks[i..][0] == toks[i];
        assert hasArg == HasArg(toks[i..]);
        if word == "interval" {
          if !hasArg {
            return Some(ArgErr);
          }
          var val := parse(toks[i + 1].text);
          if val.Err? {
            return Some(val.error);
          }
          Interval := val.value;
        } else if word == "timeout" {
          if !hasArg {
            return Some(ArgErr);
          }
          var val := parse(toks[i + 1].text);
          if val.Err? {
            return Some(val.error);
          }
          Timeout := val.value;
        } else if word == "url" {
          if !hasArg {
            return Some(ArgErr);
          }
          URLs := URLs + [toks[i + 1].text];
        } else {
          return Some(ArgErr);
        }
        assert toks[i..][1] == toks[i + 1] && toks[i..][2..] == toks[i + 2..];
        i := i + 2;
      }
      return None;
    }

    /** `fetch`: one GET under the deadline getContext chooses, and its body
        parsed line by line whatever the status code. */
    method Fetch(url: string, get: HttpGet, cidr: CidrParser) returns (r: Result<seq<Prefix>>)
      ensures r == FetchAsWritten(get, cidr, RequestDeadline(Timeout), url)
    {
      var deadline := RequestDeadline(Timeout);
      var resp := get(url, deadline);
      if resp.Err? {
        return Err(resp.error);
      }
      r := ParseBody(resp.value.body, cidr);
    }

    /** getPrefixes: the URLs fetched in order and their lists concatenated;
        the first failure is returned and no later URL is fetched.
        `fetched` records the URLs requested. */
    method GetPrefixes(get: HttpGet, cidr: CidrParser) returns (r: Result<seq<Prefix>>, ghost fetched: seq<string>)
      ensures r == CollectAll(URLs, Fetcher(get, cidr, RequestDeadline(Timeout)))
      ensures fetched <= URLs
      ensures r.Ok? ==> fetched == URLs
      ensures forall i :: 0 <= i < |fetched| - 1 ==> Fetcher(get, cidr, RequestDeadline(Timeout))(fetched[i]).Ok?
      ensures r.Err? ==> fetched != [] && r == FetchAsWritten(get, cidr, RequestDeadline(Timeout), fetched[|fetched| - 1])
    {
      ghost var f := Fetcher(get, cidr, RequestDeadline(Timeout));
      var fullPrefixes: seq<Prefix> := [];
      fetched := [];
      var i := 0;
      while i < |URLs|
        invariant 0 <= i <= |URLs|
        invariant fetched == URLs[..i]
        invariant CollectAll(fetched, f) == Ok(fullPrefixes)
      {
        var url := URLs[i];
        var prefixes := Fetch(url, get, cidr);
        fetched := URLs[..i + 1];
        if prefixes.Err? {
          CollectAllStopped(URLs, i, f, fullPrefixes, fetched);
          return prefixes, fetched;
        }
        CollectAllStep(URLs, i, f, fullPrefixes);
        fullPrefixes := fullPrefixes + prefixes.value;
        i := i + 1;
      }
      assert URLs[..i] == URLs;
      return Ok(fullPrefixes), fetched;
    }

    /** The start of refreshLoop: an unset interval becomes one hour. */
    method StartRefreshLoop()
      requires ranges == LastGood(initial, ticks)
      modifies this`Interval, this`running
      ensures Valid()
      ensures Interval == TickInterval(old(Interval)) && running
    {
      if Interval == 0 {
        Interval := HOUR;
      }
      running := true;
    }

    /** Provision: the initial fetch. On success the fetched list is
        published and the refresh loop starts; on failure the error is
        wrapped and nothing starts. */
    method Provision(get: HttpGet, cidr: CidrParser) returns (err: Option<Error>)
      requires Valid()
      modifies this
      ensures Valid()
      ensures URLs == old(URLs) && Timeout == old(Timeout)
      ensures var fetched := CollectAll(URLs, Fetcher(get, cidr, RequestDeadline(Timeout)));
        match fetched
        case Err(e) =>
          && err == Some(InitialFetch(e))
          && ranges == old(ranges) && running == old(running) && Interval == old(Interval)
          && initial == old(initial) && ticks == old(ticks)
        case Ok(ps) =>
          && err == None
          && ranges == ps && running && Interval == TickInterval(old(Interval))
          && initial == ps && ticks == []
    {
      var initialPrefixes, _ := GetPrefixes(get, cidr);
      if initialPrefixes.Err? {
        return Some(InitialFetch(initialPrefixes.error));
      }
      ranges := initialPrefixes.value;
      initial, ticks := ranges, [];
      StartRefreshLoop();
      return None;
    }

    /** One tick of refreshLoop: a successful fetch replaces the published
        list wholesale; a failed one is reported and the old list kept. */
    method RefreshTick(get: HttpGet, cidr: CidrParser) returns (err: Option<Error>)
      requires Valid() && running
      modifies this`ranges, this`ticks
      ensures Valid()
      ensures var fetched := CollectAll(URLs, Fetcher(get, cidr, RequestDeadline(Timeout)));
        && ticks == old(ticks) + [fetched]
        && (fetched.Err? ==> err == Some(fetched.error) && ranges == old(ranges))
        && (fetched.Ok? ==> err == None && ranges == fetched.value)
    {
      var fullPrefixes, _ := GetPrefixes(get, cidr);
      ticks := ticks + [fullPrefixes];
      assert ticks[..|ticks| - 1] == old(ticks);
      if fullPrefixes.Err? {
        return Some(fullPrefixes.error);
      }
      ranges := fullPrefixes.value;
      return None;
    }

    /** GetIPRanges: the published list, which while the refresh loop runs is
        the last list fetched successfully. */
    method GetIPRanges() returns (r: seq<Prefix>)
      ensures r == ranges
      ensures Valid() && running ==> r == LastGood(initial, ticks)
    {
      return ranges;
    }
  }

  /** The default configuration (a bare directive, so no URLs) reads
      without error and provisions with an empty list. */
  method DefaultConfigProvisions(parse: DurationParser, get: HttpGet, cidr: CidrParser)
    returns (unmarshalErr: Option<Error>, provisionErr: Option<Error>, published: seq<Prefix>)
    ensures unmarshalErr == None && provisionErr == None && published == []
  {
    var m := new URLIPRange();
    unmarshalErr := m.UnmarshalCaddyfile(Directive([], []), parse);
    assert m.URLs == [];
    provisionErr := m.Provision(get, cidr);
    published := m.GetIPRanges();
  }

  /** As written, an error page whose body holds no expression aggregates to
      an empty list rather than an error. */
  lemma ErrorPageAggregatesEmpty(get: HttpGet, cidr: CidrParser, deadline: Option<int>, url: string, status: int)
    requires get(url, deadline) == Ok(Response(status, []))
    ensures CollectAll([url], Fetcher(get, cidr, deadline)) == Ok([])
  {
    var f := Fetcher(get, cidr, deadline);
    assert [url][..0] == [] && [url][0] == url;
    assert f(url) == Ok([]);
    assert CollectAll([url], f) == Join(CollectAll([], f), f(url));
    JoinEmpty(CollectAll([], f));
  }

  /** A refresh tick whose only source answers 500 with an empty body
      publishes the empty list in place of the last good one. */
  method ErrorPageTickPublishesEmpty(m: URLIPRange, get: HttpGet, cidr: CidrParser, url: string)
    requires m.Valid() && m.running && m.URLs == [url]
    requires get(url, RequestDeadline(m.Timeout)) == Ok(Response(500, []))
    modifies m
    ensures m.ranges == []
  {
    ErrorPageAggregatesEmpty(get, cidr, RequestDeadline(m.Timeout), url, 500);
    var err := m.RefreshTick(get, cidr);
  }

  /** A client's view: provisioning, then a failed tick, keeps the
      provisioned list published. */
  method ProvisionThenFailedTick(m: URLIPRange, get: HttpGet, cidr: CidrParser, down: HttpGet)
    requires m.Valid()
    requires CollectAll(m.URLs, Fetcher(get, cidr, RequestDeadline(m.Timeout))).Ok?
    requires CollectAll(m.URLs, Fetcher(down, cidr, RequestDeadline(m.Timeout))).Err?
    modifies m
    ensures Ok(m.ranges) == CollectAll(m.URLs, Fetcher(get, cidr, RequestDeadline(m.Timeout)))
  {
    var err := m.Provision(get, cidr);
    assert err == None;
    err := m.RefreshTick(down, cidr);
    var seen := m.GetIPRanges();
    assert seen == LastGood(m.initial, m.ticks);
  }
}
