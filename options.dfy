/** The module's options: reading them from a Caddyfile `list` block
    (UnmarshalCaddyfile, caddyfile.go:179-218) and the default the refresh
    loop gives the interval (caddyfile.go:130-133). Durations are Go
    time.Duration values: whole nanoseconds. */
module Options {
  import opened Types

  /** caddy.ParseDuration. */
  type DurationParser = string -> Result<int>

  /** One Caddyfile token and the line it starts on. */
  datatype Token = Token(text: string, line: nat)

  /** A `list` directive as the dispenser delivers it: the arguments on the
      directive's own line after its name (not counting the block's opening
      brace), and the tokens inside its block, braces removed. */
  datatype Directive = Directive(args: seq<string>, block: seq<Token>)

  /** The configurable fields of URLIPRange. */
  datatype Config = Config(urls: seq<string>, interval: int, timeout: int)

  /** The fields as UnmarshalCaddyfile leaves them, and the error it returns.
      Options read before an error stay set. */
  datatype Unmarshalled = Unmarshalled(config: Config, err: Option<Error>)

  const HOUR: int := 3_600_000_000_000
  const MINUTE: int := 60_000_000_000
  const SECOND: int := 1_000_000_000

  predicate IsOption(word: string)
  {
    word == "interval" || word == "timeout" || word == "url"
  }

  /** Dispenser.NextArg: the next token exists and is on the same line. */
  predicate HasArg(toks: seq<Token>)
  {
    |toks| >= 2 && toks[1].line == toks[0].line
  }

  /** The effect of one option with its argument. */
  function SetOption(c: Config, name: string, arg: string, parse: DurationParser): (r: Result<Config>)
    requires IsOption(name)
    ensures r.Ok? <==> name == "url" || parse(arg).Ok?
    ensures r.Err? ==> r.error == parse(arg).error
    ensures r.Ok? ==> r.value.urls == (if name == "url" then c.urls + [arg] else c.urls)
    ensures r.Ok? && name != "interval" ==> r.value.interval == c.interval
    ensures r.Ok? && name != "timeout" ==> r.value.timeout == c.timeout
    ensures r.Ok? && name != "url" ==> DurationOf(r.value, name) == parse(arg).value
  {
    if name == "url" then Ok(c.(urls := c.urls + [arg]))
    else match parse(arg)
      case Err(e) => Err(e)
      case Ok(d) => Ok(if name == "interval" then c.(interval := d) else c.(timeout := d))
  }

  /** The `for nesting := d.Nesting(); d.NextBlock(nesting); { switch ... }`
      loop over the block's tokens. */
  function Block(c: Config, toks: seq<Token>, parse: DurationParser): (r: Unmarshalled)
    ensures c.urls <= r.config.urls
    ensures r.err.None? ==> |toks| % 2 == 0
    decreases |toks|
  {
    if toks == [] then Unmarshalled(c, None)
    else if !IsOption(toks[0].text) || !HasArg(toks) then Unmarshalled(c, Some(ArgErr))
    else match SetOption(c, toks[0].text, toks[1].text, parse)
      case Err(e) => Unmarshalled(c, Some(e))
      case Ok(next) => Block(next, toks[2..], parse)
  }

  /** UnmarshalCaddyfile on a configuration `c`. */
  function Unmarshal(c: Config, d: Directive, parse: DurationParser): (r: Unmarshalled)
    ensures c.urls <= r.config.urls
    ensures r.err.None? ==> d.args == [] && |d.block| % 2 == 0
  {
    if d.args != [] then Unmarshalled(c, Some(ArgErr)) else Block(c, d.block, parse)
  }

  /** The interval refreshLoop ticks at: one hour when unset. */
  function TickInterval(interval: int): (period: int)
    ensures period != 0
    ensures interval != 0 ==> period == interval
    ensures interval == 0 ==> period == HOUR
  {
    if interval == 0 then HOUR else interval
  }

  /** A block is read without error exactly when it is a run of
      `option argument` pairs, each on one line, naming a known option with a
      readable duration. */
  ghost predicate WellFormed(toks: seq<Token>, parse: DurationParser)
  {
    && |toks| % 2 == 0
    && forall k :: 0 <= k < |toks| - 1 && k % 2 == 0 ==>
         && IsOption(toks[k].text)
         && toks[k + 1].line == toks[k].line
         && (toks[k].text != "url" ==> parse(toks[k + 1].text).Ok?)
  }

  lemma WellFormedStep(toks: seq<Token>, parse: DurationParser)
    requires |toks| >= 2
    ensures WellFormed(toks, parse) <==>
      && IsOption(toks[0].text) && HasArg(toks)
      && (toks[0].text != "url" ==> parse(toks[1].text).Ok?)
      && WellFormed(toks[2..], parse)
  {
    var rest := toks[2..];
    if WellFormed(toks, parse) {
      forall k | 0 <= k < |rest| - 1 && k % 2 == 0
        ensures IsOption(rest[k].text) && rest[k + 1].line == rest[k].line
        ensures rest[k].text != "url" ==> parse(rest[k + 1].text).Ok?
      {
        assert rest[k] == toks[k + 2] && rest[k + 1] == toks[k + 3];
      }
    }
    if && IsOption(toks[0].text) && HasArg(toks)
       && (toks[0].text != "url" ==> parse(toks[1].text).Ok?)
       && WellFormed(rest, parse)
    {
      forall k | 2 <= k < |toks| - 1 && k % 2 == 0
        ensures IsOption(toks[k].text) && toks[k + 1].line == toks[k].line
        ensures toks[k].text != "url" ==> parse(toks[k + 1].text).Ok?
      {
        assert toks[k] == rest[k - 2] && toks[k + 1] == rest[k - 1];
      }
    }
  }

  /** Reading a block succeeds exactly when the block is well formed. */
  lemma {:induction false} BlockOk(c: Config, toks: seq<Token>, parse: DurationParser)
    ensures Block(c, toks, parse).err.None? <==> WellFormed(toks, parse)
    decreases |toks|
  {
    if |toks| == 1 {
      assert !HasArg(toks);
    } else if |toks| >= 2 {
      WellFormedStep(toks, parse);
      if IsOption(toks[0].text) && HasArg(toks) {
        var step := SetOption(c, toks[0].text, toks[1].text, parse);
        if step.Ok? {
          BlockOk(step.value, toks[2..], parse);
        }
      }
    }
  }

  /** Reading `a` and then `b` is reading `a + b`, when `a` splits at a pair
      boundary. */
  lemma {:induction false} BlockAppend(c: Config, a: seq<Token>, b: seq<Token>, parse: DurationParser)
    requires |a| % 2 == 0
    ensures Block(c, a + b, parse) ==
      (var r := Block(c, a, parse); if r.err.Some? then r else Block(r.config, b, parse))
    decreases |a|
  {
    if a == [] {
      assert a + b == b;
    } else {
      assert (a + b)[0] == a[0] && (a + b)[1] == a[1];
      assert HasArg(a + b) == HasArg(a);
      if IsOption(a[0].text) && HasArg(a) {
        var step := SetOption(c, a[0].text, a[1].text, parse);
        if step.Ok? {
          assert (a + b)[2..] == a[2..] + b;
          BlockAppend(step.value, a[2..], b, parse);
        }
      }
    }
  }

  /** The `url` arguments of a block, in order. */
  function UrlArgs(toks: seq<Token>): seq<string>
    decreases |toks|
  {
    if |toks| < 2 then []
    else (if toks[0].text == "url" then [toks[1].text] else []) + UrlArgs(toks[2..])
  }

  /** Every `url` appends to the list, in order; the list is never cut, and
      a block read without error adds exactly its `url` arguments. */
  lemma {:induction false} BlockUrls(c: Config, toks: seq<Token>, parse: DurationParser)
    ensures var r := Block(c, toks, parse);
      && c.urls <= r.config.urls
      && (r.err.None? ==> r.config.urls == c.urls + UrlArgs(toks))
    decreases |toks|
  {
    if toks != [] && IsOption(toks[0].text) && HasArg(toks) {
      var step := SetOption(c, toks[0].text, toks[1].text, parse);
      if step.Ok? {
        var rest := toks[2..];
        assert Block(c, toks, parse) == Block(step.value, rest, parse);
        BlockUrls(step.value, rest, parse);
        var mine := if toks[0].text == "url" then [toks[1].text] else [];
        assert UrlArgs(toks) == mine + UrlArgs(rest);
        assert step.value.urls == c.urls + mine;
        ConcatRegroup(c.urls, mine, UrlArgs(rest));
      }
    }
  }

  lemma ConcatRegroup(a: seq<string>, b: seq<string>, c: seq<string>)
    ensures a + b + c == a + (b + c)
  {
  }

  /** The duration option named `name`. */
  function DurationOf(c: Config, name: string): int
  {
    if name == "interval" then c.interval else c.timeout
  }

  /** An interval or timeout the block never sets keeps its value, even when
      the block fails. */
  lemma {:induction false} BlockKeepsUnset(c: Config, toks: seq<Token>, parse: DurationParser, name: string)
    requires name == "interval" || name == "timeout"
    requires forall k :: 0 <= k < |toks| && k % 2 == 0 ==> toks[k].text != name
    ensures DurationOf(Block(c, toks, parse).config, name) == DurationOf(c, name)
    decreases |toks|
  {
    if toks != [] && IsOption(toks[0].text) && HasArg(toks) {
      var step := SetOption(c, toks[0].text, toks[1].text, parse);
      if step.Ok? {
        assert DurationOf(step.value, name) == DurationOf(c, name);
        forall k | 0 <= k < |toks[2..]| && k % 2 == 0 ensures toks[2..][k].text != name {
          assert toks[2..][k] == toks[k + 2];
        }
        BlockKeepsUnset(step.value, toks[2..], parse, name);
      }
    }
  }

  /** For interval and timeout the last occurrence wins: after a block read
      without error the option holds the reading of its last argument. */
  lemma {:induction false} BlockLastWins(c: Config, toks: seq<Token>, parse: DurationParser, name: string, k: nat)
    requires name == "interval" || name == "timeout"
    requires Block(c, toks, parse).err.None?
    requires k + 1 < |toks| && k % 2 == 0 && toks[k].text == name
    requires forall j :: k < j < |toks| && j % 2 == 0 ==> toks[j].text != name
    ensures parse(toks[k + 1].text) == Ok(DurationOf(Block(c, toks, parse).config, name))
    decreases |toks|
  {
    var step := SetOption(c, toks[0].text, toks[1].text, parse);
    assert step.Ok?;
    var rest := toks[2..];
    if k == 0 {
      forall j | 0 <= j < |rest| && j % 2 == 0 ensures rest[j].text != name {
        assert rest[j] == toks[j + 2];
      }
      BlockKeepsUnset(step.value, rest, parse, name);
    } else {
      assert rest[k - 2] == toks[k] && rest[k - 1] == toks[k + 1];
      forall j | k - 2 < j < |rest| && j % 2 == 0 ensures rest[j].text != name {
        assert rest[j] == toks[j + 2];
      }
      BlockLastWins(step.value, rest, parse, name, k - 2);
    }
  }

  /** A stray token (an unknown option) or an option without an argument on
      its line fails the block with the argument error, keeping what came
      before it. */
  lemma BlockRejectsStray(c: Config, toks: seq<Token>, parse: DurationParser, k: nat)
    requires k < |toks| && k % 2 == 0 && WellFormed(toks[..k], parse)
    requires !IsOption(toks[k].text) || !HasArg(toks[k..])
    ensures Block(c, toks, parse) == Unmarshalled(Block(c, toks[..k], parse).config, Some(ArgErr))
  {
    BlockOk(c, toks[..k], parse);
    assert toks == toks[..k] + toks[k..];
    BlockAppend(c, toks[..k], toks[k..], parse);
  }

  /** A duration the parser refuses fails the block with the parser's error. */
  lemma BlockRejectsDuration(c: Config, toks: seq<Token>, parse: DurationParser, k: nat)
    requires k + 1 < |toks| && k % 2 == 0 && WellFormed(toks[..k], parse)
    requires (toks[k].text == "interval" || toks[k].text == "timeout") && toks[k + 1].line == toks[k].line
    requires parse(toks[k + 1].text).Err?
    ensures Block(c, toks, parse) ==
      Unmarshalled(Block(c, toks[..k], parse).config, Some(parse(toks[k + 1].text).error))
  {
    BlockOk(c, toks[..k], parse);
    assert toks == toks[..k] + toks[k..];
    BlockAppend(c, toks[..k], toks[k..], parse);
    assert toks[k..][0] == toks[k] && toks[k..][1] == toks[k + 1];
  }

  /** No argument may follow the directive's name on its own line. */
  lemma UnmarshalRejectsSameLineArg(c: Config, d: Directive, parse: DurationParser)
    requires d.args != []
    ensures Unmarshal(c, d, parse) == Unmarshalled(c, Some(ArgErr))
  {
  }

  /** A bare `list` or `list { }` leaves every option unset without error;
      `url` alone is the directive's name, not an option. */
  lemma EmptyDirectiveExample(parse: DurationParser)
    ensures Unmarshal(Config([], 0, 0), Directive([], []), parse) == Unmarshalled(Config([], 0, 0), None)
  {
  }

  /** `url ...`, `interval 1.5h`, `timeout 30s` on three lines give one URL, a
      90-minute interval and a 30-second timeout. */
  lemma UnmarshalExample(parse: DurationParser, url: string, toks: seq<Token>)
    requires parse("1.5h") == Ok(90 * MINUTE) && parse("30s") == Ok(30 * SECOND)
    requires |toks| == 6
    requires toks[0] == Token("url", 3) && toks[1] == Token(url, 3)
    requires toks[2] == Token("interval", 4) && toks[3] == Token("1.5h", 4)
    requires toks[4] == Token("timeout", 5) && toks[5] == Token("30s", 5)
    ensures Unmarshal(Config([], 0, 0), Directive([], toks), parse) ==
      Unmarshalled(Config([url], 5_400_000_000_000, 30_000_000_000), None)
  {
    var c1 := Config([url], 0, 0);
    var c2 := Config([url], 90 * MINUTE, 0);
    var c3 := Config([url], 90 * MINUTE, 30 * SECOND);
    assert [] + [url] == [url];
    assert Block(Config([], 0, 0), toks, parse) == Block(c1, toks[2..], parse);
    assert toks[2..][0] == toks[2] && toks[2..][1] == toks[3] && toks[2..][2..] == toks[4..];
    assert Block(c1, toks[2..], parse) == Block(c2, toks[4..], parse);
    assert toks[4..][0] == toks[4] && toks[4..][1] == toks[5] && toks[4..][2..] == [];
    assert Block(c2, toks[4..], parse) == Block(c3, [], parse);
  }

  /** There is no `retries` option: a block using it fails with the argument
      error after the options before it have been read. */
  lemma RetriesRejectedExample(parse: DurationParser, url: string, toks: seq<Token>)
    requires |toks| == 4
    requires toks[0] == Token("url", 3) && toks[1] == Token(url, 3)
    requires toks[2] == Token("retries", 4) && toks[3] == Token("2", 4)
    ensures Unmarshal(Config([], 0, 0), Directive([], toks), parse) ==
      Unmarshalled(Config([url], 0, 0), Some(ArgErr))
  {
    assert [] + [url] == [url];
    assert Block(Config([], 0, 0), toks, parse) == Block(Config([url], 0, 0), toks[2..], parse);
    assert toks[2..][0] == toks[2];
  }
}
