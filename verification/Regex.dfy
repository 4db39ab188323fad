/** The regular expressions that CODEOWNERS patterns compile to, with the usual match relation.
    Paths hold no newline, so `.` is any character and `$` is the end. */
module Regex {

  datatype Span = Span(low: char, high: char)

  datatype Regex =
    | Chars(negated: bool, spans: seq<Span>)
    | Dot
    | Begin
    | End
    | Cat(first: Regex, second: Regex)
    | Alt(left: Regex, right: Regex)
    | Opt(inner: Regex)
    | Star(body: Regex)

  predicate InSpans(spans: seq<Span>, c: char) {
    exists i :: 0 <= i < |spans| && spans[i].low <= c <= spans[i].high
  }

  /** r matches s[i..j]. */
  ghost predicate Match(r: Regex, s: string, i: nat, j: nat)
    requires i <= j <= |s|
    decreases r, j - i
  {
    match r
    case Chars(negated, spans) => j == i + 1 && (InSpans(spans, s[i]) != negated)
    case Dot => j == i + 1 && s[i] != '\n'
    case Begin => i == j == 0
    case End => i == j == |s|
    case Cat(a, b) => exists k :: i <= k <= j && Match(a, s, i, k) && Match(b, s, k, j)
    case Alt(a, b) => Match(a, s, i, j) || Match(b, s, i, j)
    case Opt(a) => i == j || Match(a, s, i, j)
    case Star(a) => i == j || exists k :: i < k <= j && Match(a, s, i, k) && Match(r, s, k, j)
  }

  /** The concatenation of rs matches s[i..j]. */
  ghost predicate MatchAll(rs: seq<Regex>, s: string, i: nat, j: nat)
    requires i <= j <= |s|
  {
    if rs == [] then i == j
    else exists k :: i <= k <= j && Match(rs[0], s, i, k) && MatchAll(rs[1..], s, k, j)
  }

  ghost predicate Search(rs: seq<Regex>, s: string) {
    exists i, j :: 0 <= i <= j <= |s| && MatchAll(rs, s, i, j)
  }

  ghost predicate OneLine(s: string) {
    forall i :: 0 <= i < |s| ==> s[i] != '\n'
  }

  function Lit(c: char): Regex { Chars(false, [Span(c, c)]) }

  function NotSlash(): Regex { Chars(true, [Span('/', '/')]) }

  lemma LitMatches(c: char, s: string, i: nat, j: nat)
    requires i <= j <= |s|
    ensures Match(Lit(c), s, i, j) <==> j == i + 1 && s[i] == c
  {
    if j == i + 1 { assert [Span(c, c)][0].low <= s[i] <= [Span(c, c)][0].high <==> s[i] == c; }
  }

  lemma NotSlashMatches(s: string, i: nat, j: nat)
    requires i <= j <= |s|
    ensures Match(NotSlash(), s, i, j) <==> j == i + 1 && s[i] != '/'
  {
    if j == i + 1 { assert [Span('/', '/')][0].low <= s[i] <= [Span('/', '/')][0].high <==> s[i] == '/'; }
  }

  /** `.*` */
  lemma {:induction false} AnyMatches(s: string, i: nat, j: nat)
    requires OneLine(s) && i <= j <= |s|
    ensures Match(Anything(), s, i, j)
    decreases j - i
  {
    if i < j {
      AnyMatches(s, i + 1, j);
      assert Match(Dot, s, i, i + 1);
    }
  }

  ghost predicate SlashFree(s: string, i: nat, j: nat)
    requires i <= j <= |s|
  {
    forall k :: i <= k < j ==> s[k] != '/'
  }

  /** `[^/]*` */
  lemma {:induction false} SegmentMatches(s: string, i: nat, j: nat)
    requires i <= j <= |s|
    ensures Match(Star(NotSlash()), s, i, j) <==> SlashFree(s, i, j)
    decreases j - i
  {
    if i < j {
      SegmentMatches(s, i + 1, j);
      NotSlashMatches(s, i, i + 1);
      forall k | i < k <= j ensures Match(NotSlash(), s, i, k) <==> k == i + 1 && s[i] != '/' {
        NotSlashMatches(s, i, k);
      }
    }
  }

  function Anything(): Regex { Star(Dot) }

  function ToSlash(): Regex { Cat(Anything(), Lit('/')) }

  /** `.*` and a slash. */
  lemma ToSlashMatches(s: string, i: nat, j: nat)
    requires OneLine(s) && i <= j <= |s|
    ensures Match(ToSlash(), s, i, j) <==> i < j && s[j - 1] == '/'
  {
    forall k | i <= k <= j
      ensures Match(Anything(), s, i, k) && (Match(Lit('/'), s, k, j) <==> j == k + 1 && s[k] == '/') {
      AnyMatches(s, i, k);
      LitMatches('/', s, k, j);
    }
  }

  ghost predicate Then(r: Regex, rest: seq<Regex>, s: string, i: nat, j: nat)
    requires i <= j <= |s|
  {
    exists k :: i <= k <= j && Match(r, s, i, k) && MatchAll(rest, s, k, j)
  }

  ghost predicate Before(rest: seq<Regex>, r: Regex, s: string, i: nat, j: nat)
    requires i <= j <= |s|
  {
    exists k :: i <= k <= j && MatchAll(rest, s, i, k) && Match(r, s, k, j)
  }

  lemma FirstOf(r: Regex, rest: seq<Regex>, s: string, i: nat, j: nat)
    requires i <= j <= |s|
    ensures MatchAll([r] + rest, s, i, j) <==> Then(r, rest, s, i, j)
  {
    var rs := [r] + rest;
    assert rs[0] == r && rs[1..] == rest;
    assert MatchAll(rs, s, i, j) <==> exists k :: i <= k <= j && Match(rs[0], s, i, k) && MatchAll(rs[1..], s, k, j);
  }

  lemma {:induction false} LastOf(rest: seq<Regex>, r: Regex, s: string, i: nat, j: nat)
    requires i <= j <= |s|
    ensures MatchAll(rest + [r], s, i, j) <==> Before(rest, r, s, i, j)
  {
    if rest == [] {
      assert rest + [r] == [r] + [];
      FirstOf(r, [], s, i, j);
    } else {
      var tail := rest[1..];
      assert rest == [rest[0]] + tail && rest + [r] == [rest[0]] + (tail + [r]);
      FirstOf(rest[0], tail + [r], s, i, j);
      forall m: nat | i <= m <= j ensures MatchAll(tail + [r], s, m, j) <==> Before(tail, r, s, m, j) {
        LastOf(tail, r, s, m, j);
      }
      if MatchAll(rest + [r], s, i, j) {
        var m :| i <= m <= j && Match(rest[0], s, i, m) && MatchAll(tail + [r], s, m, j);
        var k :| m <= k <= j && MatchAll(tail, s, m, k) && Match(r, s, k, j);
        FirstOf(rest[0], tail, s, i, k);
      }
      if Before(rest, r, s, i, j) {
        var k :| i <= k <= j && MatchAll(rest, s, i, k) && Match(r, s, k, j);
        FirstOf(rest[0], tail, s, i, k);
        var m :| i <= m <= k && Match(rest[0], s, i, m) && MatchAll(tail, s, m, k);
        assert Before(tail, r, s, m, j);
      }
    }
  }
}
