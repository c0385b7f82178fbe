/** The list format of a remote source: one CIDR expression per line, `#`
    starting a comment, blank lines ignored. This is the loop in `fetch`
    that runs over the lines of a response body (caddyfile.go:70-95). */
module Lines {
  import opened Types
  import opened Collect

  /** caddyhttp.CIDRExpressionToPrefix: an expression is a prefix or refused. */
  type CidrParser = string -> Option<Prefix>

  /** Go's unicode.IsSpace, the test strings.TrimSpace trims by. */
  predicate IsSpace(c: char)
  {
    var n := c as int;
    (0x09 <= n <= 0x0D) || n == 0x20 || n == 0x85 || n == 0xA0 || n == 0x1680
    || (0x2000 <= n <= 0x200A) || n == 0x2028 || n == 0x2029 || n == 0x202F
    || n == 0x205F || n == 0x3000
  }

  /** strings.Index for a one-character needle: the first position of `c`, or -1. */
  function IndexOf(s: string, c: char): (i: int)
    ensures -1 <= i < |s|
    ensures i == -1 <==> c !in s
    ensures 0 <= i ==> s[i] == c && c !in s[..i]
  {
    if s == [] then -1
    else if s[0] == c then 0
    else
      var j := IndexOf(s[1..], c);
      if j == -1 then -1
      else
        assert s[..j + 1] == [s[0]] + s[1..][..j];
        j + 1
  }

  /** The number of whitespace characters that open `s`. */
  function LeadingSpace(s: string): (n: nat)
    ensures n <= |s|
    ensures forall k :: 0 <= k < n ==> IsSpace(s[k])
    ensures n < |s| ==> !IsSpace(s[n])
  {
    if s != [] && IsSpace(s[0]) then 1 + LeadingSpace(s[1..]) else 0
  }

  /** The number of whitespace characters that close `s`. */
  function TrailingSpace(s: string): (n: nat)
    ensures n <= |s|
    ensures forall k :: |s| - n <= k < |s| ==> IsSpace(s[k])
    ensures n < |s| ==> !IsSpace(s[|s| - 1 - n])
  {
    if s != [] && IsSpace(s[|s| - 1]) then 1 + TrailingSpace(s[..|s| - 1]) else 0
  }

  /** strings.TrimSpace: `s` without its leading and trailing whitespace. */
  function TrimSpace(s: string): (r: string)
    ensures LeadingSpace(s) + |r| <= |s|
    ensures r == s[LeadingSpace(s)..LeadingSpace(s) + |r|]
    ensures forall k :: LeadingSpace(s) + |r| <= k < |s| ==> IsSpace(s[k])
    ensures r == [] || (!IsSpace(r[0]) && !IsSpace(r[|r| - 1]))
    ensures r == [] <==> forall k :: 0 <= k < |s| ==> IsSpace(s[k])
  {
    var t := s[LeadingSpace(s)..];
    t[..|t| - TrailingSpace(t)]
  }

  /** Where the comment of `line` starts, or its length if it has none. */
  function CommentStart(line: string): (cut: nat)
    ensures cut <= |line| && '#' !in line[..cut]
    ensures cut < |line| ==> line[cut] == '#'
  {
    var idx := IndexOf(line, '#');
    if idx == -1 then (assert line[..|line|] == line; |line|) else idx
  }

  /** A line cut at its first `#` and trimmed of surrounding whitespace. */
  function Normalise(line: string): (r: string)
    ensures '#' !in r
    ensures r == [] || (!IsSpace(r[0]) && !IsSpace(r[|r| - 1]))
    ensures var cut := CommentStart(line); var i := LeadingSpace(line[..cut]);
      && i + |r| <= cut
      && r == line[i..i + |r|]
      && (forall k :: 0 <= k < i ==> IsSpace(line[k]))
      && (forall k :: i + |r| <= k < cut ==> IsSpace(line[k]))
    ensures r == [] <==> forall k :: 0 <= k < CommentStart(line) ==> IsSpace(line[k])
  {
    TrimmedCommentFacts(line);
    TrimSpace(line[..CommentStart(line)])
  }

  lemma TrimmedCommentFacts(line: string)
    ensures var cut := CommentStart(line); var r := TrimSpace(line[..cut]); var i := LeadingSpace(line[..cut]);
      && '#' !in r
      && i + |r| <= cut
      && r == line[i..i + |r|]
      && (forall k :: 0 <= k < i ==> IsSpace(line[k]))
      && (forall k :: i + |r| <= k < cut ==> IsSpace(line[k]))
      && (r == [] <==> forall k :: 0 <= k < cut ==> IsSpace(line[k]))
  {
    var cut := CommentStart(line);
    var s := line[..cut];
    var i := LeadingSpace(s);
    var r := TrimSpace(s);
    assert forall k :: 0 <= k < |s| ==> s[k] == line[k];
    assert forall k :: 0 <= k < |r| ==> r[k] == s[i + k];
    assert forall k :: 0 <= k < |r| ==> r[k] != '#';
    assert r == line[i..i + |r|];
  }

  /** One line's contribution: nothing for a blank line, else one prefix or
      the parser's refusal. */
  function ParseLine(line: string, cidr: CidrParser): (r: Result<seq<Prefix>>)
    ensures r == Ok([]) <==> Normalise(line) == []
    ensures r.Err? <==> Normalise(line) != [] && cidr(Normalise(line)).None?
    ensures r.Err? ==> r.error == BadCidr(Normalise(line))
    ensures r.Ok? && r.value != [] ==> Some(r.value[0]) == cidr(Normalise(line)) && |r.value| == 1
  {
    var expr := Normalise(line);
    if expr == [] then Ok([])
    else match cidr(expr)
      case None => Err(BadCidr(expr))
      case Some(p) => Ok([p])
  }

  function LineParser(cidr: CidrParser): string -> Result<seq<Prefix>>
  {
    line => ParseLine(line, cidr)
  }

  /** What the line loop of `fetch` returns for a body of `lines`. */
  function ParseLines(lines: seq<string>, cidr: CidrParser): (r: Result<seq<Prefix>>)
    ensures r.Ok? ==> forall i :: 0 <= i < |lines| && Normalise(lines[i]) != [] ==> cidr(Normalise(lines[i])).Some?
    ensures r.Err? ==> r.error.BadCidr? && r.error.expr != [] && '#' !in r.error.expr
  {
    CollectAllErrFromItem(lines, LineParser(cidr));
    CollectAll(lines, LineParser(cidr))
  }

  /** The expressions of a list: its non-blank normalised lines, in order. */
  function Exprs(lines: seq<string>): (es: seq<string>)
    ensures |es| <= |lines|
    ensures forall k :: 0 <= k < |es| ==> es[k] != [] && '#' !in es[k]
  {
    if lines == [] then []
    else
      var e := Normalise(lines[0]);
      (if e == [] then [] else [e]) + Exprs(lines[1..])
  }

  lemma ParseLinesSnoc(lines: seq<string>, i: nat, cidr: CidrParser)
    requires i < |lines|
    ensures ParseLines(lines[..i + 1], cidr) == Join(ParseLines(lines[..i], cidr), ParseLine(lines[i], cidr))
  {
    assert lines[..i + 1][..i] == lines[..i];
    assert lines[..i + 1][i] == lines[i];
  }

  /** Normalise written the way `fetch` computes it. */
  lemma NormaliseSteps(line: string)
    ensures Normalise(line) == TrimSpace(if IndexOf(line, '#') == -1 then line else line[..IndexOf(line, '#')])
  {
    assert line[..|line|] == line;
  }

  /** One pass of the line loop: a blank line keeps the list, an accepted
      expression appends its prefix, a refused one is the error of the whole
      body. */
  lemma ParseLinesStep(lines: seq<string>, i: nat, cidr: CidrParser, prefixes: seq<Prefix>)
    requires i < |lines| && ParseLines(lines[..i], cidr) == Ok(prefixes)
    ensures var e := Normalise(lines[i]);
      && (e == [] ==> ParseLines(lines[..i + 1], cidr) == Ok(prefixes))
      && (e != [] && cidr(e).Some? ==> ParseLines(lines[..i + 1], cidr) == Ok(prefixes + [cidr(e).value]))
      && (e != [] && cidr(e).None? ==> ParseLines(lines, cidr) == Err(BadCidr(e)))
  {
    ParseLinesSnoc(lines, i, cidr);
    var e := Normalise(lines[i]);
    if e == [] {
      assert prefixes + [] == prefixes;
    } else if cidr(e).None? {
      CollectAllErrPrefix(lines, LineParser(cidr), i + 1);
    }
  }

  /** The `for scanner.Scan()` loop of `fetch`, over the lines the scanner
      delivers. */
  method ParseBody(lines: seq<string>, cidr: CidrParser) returns (r: Result<seq<Prefix>>)
    ensures r == ParseLines(lines, cidr)
  {
    var prefixes: seq<Prefix> := [];
    var i := 0;
    while i < |lines|
      invariant 0 <= i <= |lines|
      invariant ParseLines(lines[..i], cidr) == Ok(prefixes)
    {
      NormaliseSteps(lines[i]);
      ParseLinesStep(lines, i, cidr, prefixes);
      var line := lines[i];
      var idx := IndexOf(line, '#');
      if idx != -1 {
        line := line[..idx];
      }
      line := TrimSpace(line);
      if line != [] {
        var prefix := cidr(line);
        if prefix.None? {
          return Err(BadCidr(line));
        }
        prefixes := prefixes + [prefix.value];
      }
      i := i + 1;
    }
    assert lines[..i] == lines;
    return Ok(prefixes);
  }

  /** Normalising twice changes nothing. */
  lemma NormaliseIdempotent(line: string)
    ensures Normalise(Normalise(line)) == Normalise(line)
  {
    var r := Normalise(line);
    assert CommentStart(r) == |r|;
    assert r[..|r|] == r;
    assert LeadingSpace(r) == 0;
    assert TrailingSpace(r) == 0;
  }

  /** All-or-nothing: the list parses exactly when every non-blank
      normalised line is a CIDR expression. */
  lemma ParseLinesOk(lines: seq<string>, cidr: CidrParser)
    ensures ParseLines(lines, cidr).Ok? <==>
      forall i :: 0 <= i < |lines| && Normalise(lines[i]) != [] ==> cidr(Normalise(lines[i])).Some?
  {
    CollectAllOk(lines, LineParser(cidr));
  }

  /** The first refused line is the error of the whole list. */
  lemma ParseLinesFirstError(lines: seq<string>, cidr: CidrParser, k: nat)
    requires k < |lines| && Normalise(lines[k]) != [] && cidr(Normalise(lines[k])).None?
    requires forall i :: 0 <= i < k && Normalise(lines[i]) != [] ==> cidr(Normalise(lines[i])).Some?
    ensures ParseLines(lines, cidr) == Err(BadCidr(Normalise(lines[k])))
  {
    forall i | 0 <= i < k ensures LineParser(cidr)(lines[..k][i]).Ok? { assert lines[..k][i] == lines[i]; }
    CollectAllFirstError(lines, LineParser(cidr), k);
  }

  lemma {:induction false} FlatExprs(lines: seq<string>, cidr: CidrParser)
    requires AllOk(lines, LineParser(cidr))
    ensures var ps := Flat(lines, LineParser(cidr)); var es := Exprs(lines);
      |ps| == |es| && forall k :: 0 <= k < |es| ==> cidr(es[k]) == Some(ps[k])
  {
    if lines != [] {
      var f := LineParser(cidr);
      var tail := lines[1..];
      assert AllOk(tail, f) by {
        forall i | 0 <= i < |tail| ensures f(tail[i]).Ok? {
          assert f(lines[i + 1]).Ok?;
        }
      }
      FlatExprs(tail, cidr);
      var e := Normalise(lines[0]);
      var ps', es' := Flat(tail, f), Exprs(tail);
      assert f(lines[0]).Ok?;
      assert Flat(lines, f) == f(lines[0]).value + ps';
      assert Exprs(lines) == (if e == [] then [] else [e]) + es';
      if e != [] {
        var ps, es := Flat(lines, f), Exprs(lines);
        assert f(lines[0]).value == [cidr(e).value];
        forall k | 0 <= k < |es| ensures cidr(es[k]) == Some(ps[k]) {
          if k > 0 { assert es[k] == es'[k - 1] && ps[k] == ps'[k - 1]; }
        }
      } else {
        assert f(lines[0]).value == [];
        assert [] + ps' == ps' && [] + es' == es';
      }
    }
  }

  /** On success there is exactly one prefix per non-blank normalised line,
      in line order, each the parser's reading of that line. */
  lemma ParseLinesValue(lines: seq<string>, cidr: CidrParser)
    requires ParseLines(lines, cidr).Ok?
    ensures var ps := ParseLines(lines, cidr).value; var es := Exprs(lines);
      |ps| == |es| && forall k :: 0 <= k < |es| ==> cidr(es[k]) == Some(ps[k])
  {
    CollectAllOk(lines, LineParser(cidr));
    CollectAllValue(lines, LineParser(cidr));
    FlatExprs(lines, cidr);
  }

  /** A line that is blank after normalisation can be dropped without
      changing the outcome. */
  lemma ParseLinesSkipsBlank(before: seq<string>, line: string, after: seq<string>, cidr: CidrParser)
    requires Normalise(line) == []
    ensures ParseLines(before + [line] + after, cidr) == ParseLines(before + after, cidr)
  {
    var f := LineParser(cidr);
    var b := CollectAll(before, f);
    var a := CollectAll(after, f);
    assert [line][..0] == [] && [line][0] == line;
    assert f(line) == Ok([]);
    assert CollectAll([line], f) == Join(CollectAll([], f), f(line));
    JoinEmpty(CollectAll([], f));
    assert CollectAll([line], f) == Ok([]);
    CollectAllAppend(before, [line], f);
    JoinEmpty(b);
    assert CollectAll(before + [line], f) == b;
    CollectAllAppend(before + [line], after, f);
    CollectAllAppend(before, after, f);
  }

  /** A comment that starts right after a `#`-free text is cut there. */
  lemma CutAtComment(s: string, rest: string)
    requires '#' !in s && (rest == [] || rest[0] == '#')
    ensures CommentStart(s + rest) == |s|
  {
    var line := s + rest;
    assert forall k :: 0 <= k < |s| ==> line[k] == s[k];
    assert forall j :: |s| < j <= |line| ==> line[..j][|s|] == rest[0];
  }

  /** Trimming an expression followed by whitespace gives the expression. */
  lemma TrimPadded(expr: string, pad: string)
    requires expr != [] && !IsSpace(expr[0]) && !IsSpace(expr[|expr| - 1])
    requires forall k :: 0 <= k < |pad| ==> IsSpace(pad[k])
    ensures TrimSpace(expr + pad) == expr
  {
    var s := expr + pad;
    assert s[0] == expr[0];
    assert LeadingSpace(s) == 0;
    var r := TrimSpace(s);
    assert r == s[..|r|];
    assert !IsSpace(s[|expr| - 1]);
    assert forall k :: |expr| <= k < |s| ==> IsSpace(s[k]);
    assert r != [] ==> r[|r| - 1] == s[|r| - 1];
    assert |r| == |expr|;
    assert s[..|expr|] == expr;
  }

  /** A line made of an expression, whitespace and possibly a comment
      normalises to the expression. */
  lemma NormaliseOf(expr: string, pad: string, rest: string)
    requires expr != [] && '#' !in expr && !IsSpace(expr[0]) && !IsSpace(expr[|expr| - 1])
    requires forall k :: 0 <= k < |pad| ==> IsSpace(pad[k])
    requires rest == [] || rest[0] == '#'
    ensures Normalise(expr + pad + rest) == expr
  {
    var s := expr + pad;
    assert '#' !in s by {
      forall k | 0 <= k < |s| ensures s[k] != '#' {
        if k < |expr| { assert s[k] == expr[k]; } else { assert IsSpace(pad[k - |expr|]); }
      }
    }
    CutAtComment(s, rest);
    assert (s + rest)[..|s|] == s;
    TrimPadded(expr, pad);
  }

  lemma ThreeLines<X, T>(xs: seq<X>, f: X -> Result<seq<T>>, p: T, q: T)
    requires |xs| == 3 && f(xs[0]) == Ok([p]) && f(xs[1]) == Ok([]) && f(xs[2]) == Ok([q])
    ensures CollectAll(xs, f) == Ok([p, q])
  {
    assert xs[..3] == xs && xs[..3][..2] == xs[..2] && xs[..2][..1] == xs[..1] && xs[..1][..0] == [];
    assert CollectAll(xs[..1], f) == Ok([] + [p]);
    assert [] + [p] == [p] && [p] + [] == [p] && [p] + [q] == [p, q];
    assert CollectAll(xs[..2], f) == Ok([p]);
  }

  lemma CommentedLine(line: string, cidr: CidrParser, p: Prefix)
    requires line == "10.0.0.0/8 # note" && cidr("10.0.0.0/8") == Some(p)
    ensures ParseLine(line, cidr) == Ok([p])
  {
    assert "10.0.0.0/8" + " " + "# note" == "10.0.0.0/8 # note";
    NormaliseOf("10.0.0.0/8", " ", "# note");
  }

  lemma PlainLine(line: string, cidr: CidrParser, q: Prefix)
    requires line == "172.16.0.0/12" && cidr("172.16.0.0/12") == Some(q)
    ensures ParseLine(line, cidr) == Ok([q])
  {
    assert "172.16.0.0/12" + "" + "" == "172.16.0.0/12";
    NormaliseOf("172.16.0.0/12", "", "");
  }

  lemma BlankLine(line: string, cidr: CidrParser)
    requires line == ""
    ensures ParseLine(line, cidr) == Ok([])
  {
  }

  /** The list "10.0.0.0/8 # note", "", "172.16.0.0/12" gives exactly the two
      prefixes, in order. */
  lemma CommentAndBlankExample(cidr: CidrParser, p: Prefix, q: Prefix, lines: seq<string>)
    requires |lines| == 3 && lines[0] == "10.0.0.0/8 # note" && lines[1] == "" && lines[2] == "172.16.0.0/12"
    requires cidr("10.0.0.0/8") == Some(p) && cidr("172.16.0.0/12") == Some(q)
    ensures ParseLines(lines, cidr) == Ok([p, q])
  {
    CommentedLine(lines[0], cidr, p);
    BlankLine(lines[1], cidr);
    PlainLine(lines[2], cidr, q);
    ThreeLines(lines, LineParser(cidr), p, q);
  }
}
