# caddy-ip-list: the `http.ip_sources.list` module, modelled in Dafny

The module gives Caddy a list of trusted IP prefixes (CIDR ranges). It reads
the list from one or more URLs that serve plain text, and refreshes it on a
timer. This project models the core of `caddyfile.go` and proves what it
promises:

- **Line parsing** (module `Lines`). Each line of a response body is cut at its first `#` and trimmed of whitespace, using Go's `unicode.IsSpace` set. A line that is then empty is skipped. Every other line must be a CIDR expression, or the whole list fails with the first refused expression.
- **Aggregation** (module `Collect`, used by `IpRange.URLIPRange.GetPrefixes`). The URLs are fetched in order and their lists are concatenated. The first failing URL ends the run with its error, and no URL after it is fetched. The body loop of `fetch` has the same fail-fast, append-in-order shape, so both are instances of one function, `CollectAll`.
- **The range holder** (class `IpRange.URLIPRange`). `Provision` publishes the first fetched list and starts the refresh loop. If that first fetch fails, the error is wrapped and nothing starts. A refresh tick replaces the list wholesale on success and keeps it on failure. `GetIPRanges` returns the published list. The class invariant `Valid()` states that, while the loop runs, the published list is the one from the last successful fetch.
- **Options** (module `Options`). `UnmarshalCaddyfile` reads `interval`, `timeout` and `url` from a block. It rejects a same-line argument, an unknown option and a missing argument. The last `interval` or `timeout` wins, and each `url` is appended in order. An interval of 0 becomes one hour when the refresh loop starts. A timeout bounds a request only when it is positive.

Three points where the model follows the code of `caddyfile.go` rather than what its tests or a reader might expect:

- `TestRetriesProvision` and `TestRetriesProvisionAllFail` (caddyfile_test.go:104-171) configure `retries 2`. `UnmarshalCaddyfile` has no case for `retries`, so its default branch rejects the block with an argument error (`Options.RetriesRejectedExample`). `caddyfile.go` has no retry loop.
- `fetch` never reads the response's status code, and the class runs `fetch` as written (`Fetch.FetchAsWritten`). A 500 response whose body holds no expression is therefore an empty list and no error (see Findings). The 500 responses in those two tests fail only because their body, `fail`, is not a CIDR expression.
- The interval default of one hour is applied when the refresh loop starts (caddyfile.go:131-133), not when the options are read. After `UnmarshalCaddyfile`, an unset interval is still 0.

Things the model takes as parameters:
- the HTTP round trip (`Fetch.HttpGet`, a function from URL and optional deadline to a response or an error);
- the CIDR parser (`Lines.CidrParser`, a function from text to an optional `Prefix`);
- `caddy.ParseDuration` (`Options.DurationParser`).

Durations are whole nanoseconds, as in Go's `time.Duration`.

## Model

| member | source | states |
|---|---|---|
| `Lines.IndexOf` | caddyfile.go:76 | the result is -1 exactly when the character is absent, and otherwise is the position of its first occurrence |
| `Lines.LeadingSpace` | caddyfile.go:81 | counts the whitespace run that opens the text; every counted character is whitespace and the next one is not |
| `Lines.TrailingSpace` | caddyfile.go:81 | counts the whitespace run that closes the text; every counted character is whitespace and the one before it is not |
| `Lines.TrimSpace` | caddyfile.go:80-81 | the result is a contiguous slice of the input with only whitespace removed on either side; it neither starts nor ends with whitespace; it is empty exactly when the input is all whitespace |
| `Lines.CommentStart` | caddyfile.go:75-78 | the cut point is the first `#`, or the end of the line; no `#` comes before it |
| `Lines.Normalise` | caddyfile.go:75-81 | a normalised line never contains `#`; it is the text before the first `#` with only surrounding whitespace removed; it is empty exactly when that text is all whitespace |
| `Lines.ParseLine` | caddyfile.go:75-93 | a line is skipped exactly when it normalises to nothing; it fails exactly when its normalised text is refused by the CIDR parser, with that text as the error; otherwise it gives exactly the parser's prefix |
| `Lines.ParseLines` | caddyfile.go:70-95 | on success every non-blank normalised line was accepted by the CIDR parser; a failure is always a refused expression, which is non-empty and holds no `#` |
| `Lines.NormaliseIdempotent` | caddyfile.go:75-81 | normalising a normalised line changes nothing |
| `Lines.Exprs` | caddyfile.go:83-86 | the expressions of a list (its non-blank normalised lines) are non-empty, contain no `#` and are no more than the lines |
| `Lines.ParseBody` | caddyfile.go:70-95 | the scanner loop returns exactly the fail-fast parse of the lines, `ParseLines` |
| `Lines.ParseLinesOk` | caddyfile.go:83-95 | all or nothing: the list parses exactly when every non-blank normalised line is accepted by the CIDR parser |
| `Lines.ParseLinesFirstError` | caddyfile.go:88-92 | the first refused non-blank line makes the whole list fail with that line's error, and no prefixes are returned |
| `Lines.ParseLinesValue` | caddyfile.go:88-95 | on success there is exactly one prefix per non-blank normalised line, in line order, each the parser's reading of its line |
| `Lines.ParseLinesSkipsBlank` | caddyfile.go:83-86 | a line that is empty after normalisation can be removed without changing the result |
| `Lines.CommentAndBlankExample` | caddyfile.go:70-95 | the lines `10.0.0.0/8 # note`, ``, `172.16.0.0/12` give exactly those two prefixes, in order |
| `Collect.CollectAll` | caddyfile.go:98-110 | a successful fail-fast concatenation means every item succeeded |
| `Collect.CollectAllErrFromItem` | caddyfile.go:102-105 | a failed run fails with the error of one of its items |
| `Collect.CollectAllOk` | caddyfile.go:98-110 | a fail-fast concatenation succeeds exactly when every item succeeds |
| `Collect.CollectAllValue` | caddyfile.go:106 | on success the result is the items' lists joined in item order |
| `Collect.CollectAllErrPrefix` | caddyfile.go:102-105 | an error among the first items is the error of the whole run |
| `Collect.CollectAllFirstError` | caddyfile.go:102-105 | the run returns the error of the first failing item |
| `Collect.CollectAllStopsAtFirstError` | caddyfile.go:100-105 | items after the first failure are never consulted: fetch functions that agree up to it give the same result |
| `Collect.CollectAllAppend` | caddyfile.go:100-107 | running over two URL lists one after the other equals running over their concatenation |
| `Fetch.RequestDeadline` | caddyfile.go:47-53 | a request gets a deadline exactly when the timeout is positive, and that deadline is the timeout |
| `Fetch.FetchAsWritten` | caddyfile.go:55-96 | a list comes only from a response that arrived; a transport error is returned unchanged; any other failure is a refused CIDR expression, whatever the status code |
| `Fetch.FetchChecked` | caddyfile.go:55-96 | with the status check, a list comes only from a response that arrived with a 2xx status |
| `Fetch.FetchAsWrittenIgnoresStatus` | caddyfile.go:64-72 | as written, two responses with the same body give the same result whatever their status codes |
| `Fetch.ErrorPageAcceptedAsWritten` | caddyfile.go:64-95 | as written, a 500 response with an empty body is read as a successful, empty list |
| `Fetch.FetchCheckedOnlyFromSuccess` | caddyfile.go:55-96 | with the status check, a list comes only from a 2xx response and is that body's parse; transport errors pass unchanged; any other status is an error |
| `Fetch.FetchCheckedAgreesOnSuccess` | caddyfile.go:55-96 | the checked and the as-written fetch agree on every 2xx response and on every transport error |
| `Options.TickInterval` | caddyfile.go:130-133 | an interval of 0 becomes one hour, any other interval is kept, and the tick period is never 0 |
| `Options.SetOption` | caddyfile.go:189-211 | for one of the three known options: `url` always succeeds and appends its argument; `interval` or `timeout` succeeds exactly when its duration parses, fails with the parser's error otherwise, and sets only the named option |
| `Options.Block` | caddyfile.go:187-215 | reading a block never shortens the URL list, and a block read without error has an even number of tokens (option-argument pairs) |
| `Options.Unmarshal` | caddyfile.go:179-218 | reading a directive never shortens the URL list; a directive read without error has no same-line argument and a block of option-argument pairs |
| `Options.BlockOk` | caddyfile.go:187-215 | a block is read without error exactly when it is a run of `option argument` pairs on single lines, each naming a known option whose duration parses |
| `Options.BlockAppend` | caddyfile.go:187-215 | reading a block in two parts split at a pair boundary equals reading it whole, and an error in the first part ends the read |
| `Options.BlockUrls` | caddyfile.go:207-211 | each `url` appends to the URL list in order; the list is never shortened, even on error; a block read without error adds exactly its `url` arguments |
| `Options.BlockKeepsUnset` | caddyfile.go:189-206 | an interval or timeout that the block never names keeps its value |
| `Options.BlockLastWins` | caddyfile.go:189-206 | after a block is read without error, an interval or timeout holds the parsed value of its last occurrence |
| `Options.BlockRejectsStray` | caddyfile.go:189-213 | an unknown option, or an option with no argument on its line, fails with the argument error, keeping the options read before it |
| `Options.BlockRejectsDuration` | caddyfile.go:193-205 | a duration the parser refuses fails the block with the parser's error, keeping the options read before it |
| `Options.UnmarshalRejectsSameLineArg` | caddyfile.go:182-185 | an argument on the directive's own line is an argument error, and no option changes |
| `Options.EmptyDirectiveExample` | caddyfile_test.go:15-18 | a bare `url` or `list { }` reads without error and sets no option |
| `Options.UnmarshalExample` | caddyfile_test.go:38-63 | `url ...`, `interval 1.5h`, `timeout 30s` give one URL, 90 minutes and 30 seconds |
| `Options.RetriesRejectedExample` | caddyfile_test.go:118-122 | `retries 2` is refused with the argument error, after the `url` before it has been appended |
| `IpRange.LastGood` | caddyfile.go:141-158 | the list in force is the provisioned list or the list of one of the refresh outcomes |
| `IpRange.ErrorPageAggregatesEmpty` | caddyfile.go:64-110 | as written, a single source answering with an empty body, whatever the status, aggregates to the empty list rather than an error |
| `IpRange.LastGoodIsLatestSuccess` | caddyfile.go:141-158 | after a run of refreshes, the list in force is the one fetched by the latest successful refresh |
| `IpRange.LastGoodWithoutSuccess` | caddyfile.go:142-154 | if no refresh has succeeded, the provisioned list stays in force |
| `IpRange.URLIPRange.constructor` | caddyfile.go:23-37 | the zero value has no URLs, zero durations, an empty list, and no refresh loop |
| `IpRange.URLIPRange.UnmarshalCaddyfile` | caddyfile.go:179-218 | the token loop leaves the options and the error exactly as `Options.Unmarshal` says, which includes the options set before an error |
| `IpRange.URLIPRange.Fetch` | caddyfile.go:55-96 | one URL is fetched under `RequestDeadline(Timeout)` and its body is parsed whatever the status; the result equals `FetchAsWritten` |
| `IpRange.URLIPRange.GetPrefixes` | caddyfile.go:98-110 | the result is the fail-fast concatenation over `URLs` in order; the URLs requested are a prefix of `URLs`, all of them on success; every URL requested before the last one was fetched successfully; on failure the last one requested is the failing one and its error is the result |
| `IpRange.URLIPRange.StartRefreshLoop` | caddyfile.go:130-135 | the interval is defaulted to one hour if it was 0, and the loop is marked running; given the published list is the last good one, `Valid()` holds afterwards |
| `IpRange.URLIPRange.Provision` | caddyfile.go:112-128 | a failed initial fetch returns the wrapped error and changes nothing; a successful one publishes exactly the fetched list and starts the loop |
| `IpRange.URLIPRange.RefreshTick` | caddyfile.go:141-158 | a failed refresh reports its error and leaves the list unchanged; a successful one replaces the list with exactly the fetched one; `Valid()` is kept |
| `IpRange.URLIPRange.GetIPRanges` | caddyfile.go:166-170 | returns the published list, which while the loop runs is the last one fetched successfully |
| `IpRange.DefaultConfigProvisions` | caddyfile_test.go:15-36 | a new instance given a bare directive reads it without error, provisions without error, and publishes the empty list |
| `IpRange.ErrorPageTickPublishesEmpty` | caddyfile.go:141-158 | as written, a refresh tick whose only source answers 500 with an empty body replaces the last good list with the empty list |
| `IpRange.ProvisionThenFailedTick` | caddyfile.go:117-158 | a successful provision followed by a failed tick leaves the provisioned list published |

## Findings

| source | as written | input that shows it | evidently intended | confidence | as-written member | corrected member |
|---|---|---|---|---|---|---|
| caddyfile.go:64-72 | the response body is scanned as a prefix list whatever `resp.StatusCode` is | a 500 (or 404, 503) response with an empty or comment-only body: `fetch` returns an empty list and no error, and the next refresh tick publishes that empty list | a response outside 2xx fails the fetch, so that the refresh keeps the last good list | not executed; medium | `Fetch.ErrorPageAcceptedAsWritten` | `Fetch.FetchCheckedOnlyFromSuccess` |

`Fetch.FetchAsWritten` is the code as it stands, and `IpRange.URLIPRange.Fetch` and so aggregation, provisioning and refresh run it; `IpRange.ErrorPageTickPublishesEmpty` shows the effect on a refresh tick. `Fetch.FetchChecked` is the corrected definition, with the status check. The two agree on every 2xx response and every transport error (`Fetch.FetchCheckedAgreesOnSuccess`).

## Left out

- HTTP: building the request, `http.DefaultClient.Do`, contexts and cancellation (caddyfile.go:56-68). These are network I/O, so they are the `HttpGet` parameter. The deadline chosen by `getContext` is passed to it.
- `bufio.Scanner` (caddyfile.go:70-73). The body is the sequence of lines the scanner delivers, so CR stripping and the 64 KiB token limit are not modelled. The code never consults `scanner.Err()`: a read error or an over-long line ends the scan quietly, and the lines read so far are returned as success. The model cannot show this, because it takes the delivered lines as the whole body.
- `caddyhttp.CIDRExpressionToPrefix` and `netip.Prefix` (caddyfile.go:89). They are foreign code, so they become the opaque `CidrParser` and the `Prefix` datatype. The refused expression is carried as `BadCidr(expr)`; Go's error text is not modelled.
- `caddy.ParseDuration` (caddyfile.go:193, 202). It is foreign, so it is a parameter. Durations are unbounded integers: the int64 range of `time.Duration` is not modelled.
- The goroutine, the ticker, `ctx.Done()` shutdown and the `sync.RWMutex` (caddyfile.go:126, 135-163, 167-168). They exist for concurrency and timing, so one tick is a sequential method and locking is plain access. A negative interval, which `time.NewTicker` refuses with a panic, is not modelled.
- IpRange.URLIPRange.Provision: a second `Provision` on a running instance would start a second refresh loop in Go. The model has a single `running` flag.
- Logging through zap (caddyfile.go:147-151), module registration (`init`, `CaddyModule`, caddyfile.go:19-45) and the interface guards (caddyfile.go:220-226). These are host plumbing.
- The Caddyfile dispenser: skipping the directive name, nesting and braces (caddyfile.go:180, 187). A directive is given as its same-line arguments and its block tokens, each token carrying its line number. `NextArg` is modelled as "the next block token is on the same line".
- Text encoding: Go strings are UTF-8 bytes, and the model works on characters. Invalid UTF-8 is not modelled.
- Error wrapping: Provision's `fmt.Errorf("... %w", err)` is `InitialFetch(cause)`. The message text is not modelled.
- Retries: `caddyfile_test.go:104-171` configures them, but `caddyfile.go` has no code for them, so there is nothing to model.
- IpRange.URLIPRange.GetIPRanges: called before any `Provision`, Go dereferences a nil lock and panics (caddyfile.go:114, 167). The model has no lock and returns the empty list.
