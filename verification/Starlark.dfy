/** Finding and removing top-level calls in Starlark files: a view of the file with strings and
    comments blanked out, and whole-line call blocks found in that view. */
module Starlark {
  import opened Wrappers

  // ---------------------------------------------------------------- masking

  predicate IsQuote(c: char) { c == '\'' || c == '"' }

  /** A comment or a string literal starts at i. */
  predicate StartsData(s: string, i: nat)
    requires i < |s|
  {
    s[i] == '#' || IsQuote(s[i])
  }

  function LineEnd(s: string, i: nat): (r: nat)
    requires i <= |s|
    ensures i <= r <= |s| && (r < |s| ==> s[r] == '\n') && forall k :: i <= k < r ==> s[k] != '\n'
    decreases |s| - i
  {
    if i == |s| || s[i] == '\n' then i else LineEnd(s, i + 1)
  }

  predicate Triple(s: string, i: nat)
    requires i < |s|
  {
    i + 2 < |s| && s[i + 1] == s[i] && s[i + 2] == s[i]
  }

  /** The delimiter of the string literal at i. */
  function Delimiter(s: string, i: nat): (r: string)
    requires i < |s|
    ensures 1 <= |r| && i + |r| <= |s|
  {
    if Triple(s, i) then [s[i], s[i], s[i]] else [s[i]]
  }

  predicate HasPrefix(s: string, i: nat, d: string)
    requires i <= |s|
  {
    i + |d| <= |s| && s[i..i + |d|] == d
  }

  /** Where a string whose text goes on at i ends: after its delimiter, or with the file. */
  function StringEnd(s: string, i: nat, d: string): (r: nat)
    requires i <= |s| && d != ""
    ensures i <= r <= |s|
    decreases |s| - i
  {
    if i == |s| then i
    else if s[i] == '\\' && i + 1 < |s| then StringEnd(s, i + 2, d)
    else if HasPrefix(s, i, d) then i + |d|
    else StringEnd(s, i + 1, d)
  }

  function TokenEnd(s: string, i: nat): (r: nat)
    requires i < |s|
    ensures i < r <= |s|
  {
    if s[i] == '#' then LineEnd(s, i + 1)
    else if IsQuote(s[i]) then StringEnd(s, i + |Delimiter(s, i)|, Delimiter(s, i))
    else i + 1
  }

  function Blank(s: string): (r: string)
    ensures |r| == |s|
  {
    seq(|s|, k requires 0 <= k < |s| => if s[k] == '\n' then '\n' else ' ')
  }

  /** The masked text from i on, where i is not inside a string or a comment. */
  function MaskFrom(s: string, i: nat): string
    requires i <= |s|
    decreases |s| - i
  {
    if i == |s| then ""
    else (if StartsData(s, i) then Blank(s[i..TokenEnd(s, i)]) else [s[i]]) + MaskFrom(s, TokenEnd(s, i))
  }

  function Mask(s: string): string { MaskFrom(s, 0) }

  method BlankRange(masked: array<char>, start: nat, end: nat)
    requires start <= end <= masked.Length
    modifies masked
    ensures masked[..start] == old(masked[..start]) && masked[end..] == old(masked[end..])
    ensures masked[start..end] == Blank(old(masked[start..end]))
  {
    for i := start to end
      invariant forall k :: 0 <= k < masked.Length && !(start <= k < i) ==> masked[k] == old(masked[k])
      invariant forall k :: start <= k < i ==> masked[k] == (if old(masked[k]) == '\n' then '\n' else ' ')
    {
      if masked[i] != '\n' {
        masked[i] := ' ';
      }
    }
  }

  method SkipString(s: string, start: nat) returns (i: nat)
    requires start < |s| && IsQuote(s[start])
    ensures i == TokenEnd(s, start)
  {
    var delimiter := s[start..start + 1];
    if Triple(s, start) { delimiter := [s[start], s[start], s[start]]; }
    i := start + |delimiter|;
    assert delimiter == Delimiter(s, start);
    while i < |s|
      invariant start < i <= |s|
      invariant StringEnd(s, i, delimiter) == TokenEnd(s, start)
    {
      if s[i] == '\\' && i + 1 < |s| {
        i := i + 2;
      } else if HasPrefix(s, i, delimiter) {
        i := i + |delimiter|;
        return;
      } else {
        i := i + 1;
      }
    }
  }

  method SkipComment(s: string, start: nat) returns (i: nat)
    requires start < |s| && s[start] == '#'
    ensures i == TokenEnd(s, start)
  {
    i := start;
    while i < |s| && s[i] != '\n'
      invariant start <= i <= |s|
      invariant LineEnd(s, i) == LineEnd(s, start)
    {
      i := i + 1;
    }
  }

  /** `maskStarlarkStringsAndComments`. */
  method MaskStringsAndComments(content: string) returns (masked: array<char>)
    ensures fresh(masked) && masked[..] == Mask(content)
  {
    masked := new char[|content|](k requires 0 <= k < |content| => content[k]);
    assert masked[..] == content;
    var i := 0;
    while i < |content|
      invariant i <= |content| && fresh(masked) && masked.Length == |content|
      invariant masked[i..] == content[i..]
      invariant masked[..i] + MaskFrom(content, i) == Mask(content)
    {
      ghost var done := masked[..i];
      var next := MaskToken(content, masked, i);
      MaskStep(content, i, done);
      i := next;
    }
    assert masked[..i] + "" == masked[..];
  }

  /** What the token at i becomes. */
  function MaskedToken(s: string, i: nat): string
    requires i < |s|
  {
    if StartsData(s, i) then Blank(s[i..TokenEnd(s, i)]) else [s[i]]
  }

  method MaskToken(content: string, masked: array<char>, start: nat) returns (i: nat)
    requires start < |content| == masked.Length && masked[start..] == content[start..]
    modifies masked
    ensures i == TokenEnd(content, start)
    ensures masked[..i] == old(masked[..start]) + MaskedToken(content, start) && masked[i..] == content[i..]
  {
    assert masked[start] == masked[start..][0] == content[start..][0] == content[start];
    if content[start] == '#' {
      i := SkipComment(content, start);
    } else if IsQuote(content[start]) {
      i := SkipString(content, start);
    } else {
      i := start + 1;
    }
    assert masked[start..i] == masked[start..][..i - start] == content[start..][..i - start] == content[start..i];
    assert masked[i..] == masked[start..][i - start..] == content[start..][i - start..] == content[i..];
    if StartsData(content, start) {
      BlankRange(masked, start, i);
    }
    assert masked[..i] == masked[..start] + masked[start..i];
  }

  lemma MaskStep(s: string, i: nat, done: string)
    requires i < |s|
    ensures done + MaskFrom(s, i) == done + MaskedToken(s, i) + MaskFrom(s, TokenEnd(s, i))
  {
  }

  // ---------------------------------------------------------------- what masking keeps

  ghost predicate MaskOf(s: string, m: string) {
    && |m| == |s|
    && (forall k :: 0 <= k < |s| ==> (m[k] == '\n' <==> s[k] == '\n'))
    && (forall k :: 0 <= k < |s| ==> m[k] == s[k] || m[k] == ' ')
    && Clean(m)
  }

  /** No quote and no comment sign. */
  ghost predicate Clean(m: string) {
    forall k :: 0 <= k < |m| ==> m[k] != '#' && m[k] != '\'' && m[k] != '"'
  }

  lemma {:induction false} MaskShape(s: string, i: nat)
    requires i <= |s|
    ensures MaskOf(s[i..], MaskFrom(s, i))
    decreases |s| - i
  {
    if i < |s| {
      var n := TokenEnd(s, i);
      MaskShape(s, n);
      var first := if StartsData(s, i) then Blank(s[i..n]) else [s[i]];
      assert s[i..] == s[i..n] + s[n..];
      assert MaskOf(s[i..n], first);
      MaskAppend(s[i..n], first, s[n..], MaskFrom(s, n));
    }
  }

  lemma MaskAppend(a: string, m: string, b: string, n: string)
    requires MaskOf(a, m) && MaskOf(b, n)
    ensures MaskOf(a + b, m + n)
  {
  }

  /** Text without quotes and comment signs is its own mask. */
  lemma {:induction false} CleanMask(s: string, i: nat)
    requires i <= |s| && Clean(s)
    ensures MaskFrom(s, i) == s[i..]
    decreases |s| - i
  {
    if i < |s| { CleanMask(s, i + 1); }
  }

  /** Masking keeps length and line structure, leaves no quote or comment sign, and only blanks characters. */
  lemma MaskMeaning(s: string)
    ensures MaskOf(s, Mask(s))
  {
    MaskShape(s, 0);
    assert s[0..] == s;
  }

  lemma MaskIdempotent(s: string)
    ensures Mask(Mask(s)) == Mask(s)
  {
    MaskMeaning(s);
    CleanMask(Mask(s), 0);
  }

  /** Code outside strings and comments is untouched: a prefix that is already clean masks to itself. */
  lemma {:induction false} CodeUntouched(code: string, rest: string, i: nat)
    requires Clean(code) && i <= |code|
    ensures MaskFrom(code + rest, i) == code[i..] + MaskFrom(code + rest, |code|)
    decreases |code| - i
  {
    if i < |code| {
      CodeUntouched(code, rest, i + 1);
    }
  }

  // ---------------------------------------------------------------- where strings and comments end

  /** The backslashes that stand right before k, counted back to i at most. */
  function Backslashes(s: string, i: nat, k: nat): nat
    requires i <= k <= |s|
  {
    if k == i || s[k - 1] != '\\' then 0 else 1 + Backslashes(s, i, k - 1)
  }

  /** The delimiter stands at k, in a text from i on, behind an even number of backslashes. */
  ghost predicate Closes(s: string, i: nat, d: string, k: nat) {
    i <= k && k + |d| <= |s| && s[k..k + |d|] == d && Backslashes(s, i, k) % 2 == 0
  }

  lemma {:induction false} SkipEscape(s: string, i: nat, k: nat)
    requires i + 2 <= k <= |s| && s[i] == '\\'
    ensures Backslashes(s, i, k) % 2 == Backslashes(s, i + 2, k) % 2
  {
    if k > i + 2 {
      SkipEscape(s, i, k - 1);
    } else {
      assert Backslashes(s, i, i + 1) == 1;
    }
  }

  lemma {:induction false} SkipPlain(s: string, i: nat, k: nat)
    requires i + 1 <= k <= |s| && s[i] != '\\'
    ensures Backslashes(s, i, k) == Backslashes(s, i + 1, k)
  {
    if k > i + 1 { SkipPlain(s, i, k - 1); }
  }

  /** A string ends behind the first delimiter that no backslash escapes, or with the file. */
  ghost predicate EndsString(s: string, i: nat, d: string, r: nat) {
    || (exists k: nat :: Closes(s, i, d, k) && r == k + |d| && forall j: nat :: j < k ==> !Closes(s, i, d, j))
    || (r == |s| && forall k: nat :: !Closes(s, i, d, k))
  }

  lemma {:induction false} StringEndIs(s: string, i: nat, d: string)
    requires i <= |s| && d != "" && d[0] != '\\'
    ensures EndsString(s, i, d, StringEnd(s, i, d))
    decreases |s| - i
  {
    if i == |s| {
      assert forall k: nat :: !Closes(s, i, d, k);
    } else if s[i] == '\\' && i + 1 < |s| {
      StringEndIs(s, i + 2, d);
      EscapeCloses(s, i, d);
      EndsAlike(s, i, i + 2, d, StringEnd(s, i + 2, d));
    } else if HasPrefix(s, i, d) {
      assert Closes(s, i, d, i) && forall j: nat :: j < i ==> !Closes(s, i, d, j);
    } else {
      StringEndIs(s, i + 1, d);
      PlainCloses(s, i, d);
      EndsAlike(s, i, i + 1, d, StringEnd(s, i + 1, d));
    }
  }

  lemma EndsAlike(s: string, i: nat, i': nat, d: string, r: nat)
    requires EndsString(s, i', d, r) && forall k: nat :: Closes(s, i, d, k) <==> Closes(s, i', d, k)
    ensures EndsString(s, i, d, r)
  {
    if k: nat :| Closes(s, i', d, k) && r == k + |d| && forall j: nat :: j < k ==> !Closes(s, i', d, j) {
      assert Closes(s, i, d, k);
    }
  }

  lemma EscapeCloses(s: string, i: nat, d: string)
    requires i + 1 < |s| && s[i] == '\\' && d != "" && d[0] != '\\'
    ensures forall k: nat :: Closes(s, i, d, k) <==> Closes(s, i + 2, d, k)
  {
    assert Backslashes(s, i, i + 1) == 1;
    forall k: nat ensures Closes(s, i, d, k) <==> Closes(s, i + 2, d, k) {
      if i + 2 <= k <= |s| { SkipEscape(s, i, k); }
      if k == i && k + |d| <= |s| { assert s[k..k + |d|][0] == '\\'; }
    }
  }

  lemma PlainCloses(s: string, i: nat, d: string)
    requires i < |s| && d != "" && d[0] != '\\' && !HasPrefix(s, i, d) && (s[i] == '\\' ==> i + 1 == |s|)
    ensures forall k: nat :: Closes(s, i, d, k) <==> Closes(s, i + 1, d, k)
  {
    forall k: nat ensures Closes(s, i, d, k) <==> Closes(s, i + 1, d, k) {
      if i + 1 <= k <= |s| && s[i] != '\\' { SkipPlain(s, i, k); }
    }
  }

  /** What is blanked from a quote or comment sign on: a comment up to the end of its line; a string with its
      delimiters, three quotes where three stand, up to the first delimiter that is not escaped. */
  lemma TokenEndIs(s: string, i: nat)
    requires i < |s| && (s[i] == '#' || s[i] == '\'' || s[i] == '"')
    ensures StartsData(s, i)
    ensures var r, q := TokenEnd(s, i), [s[i]];
            && (s[i] == '#' ==> (forall k :: i <= k < r ==> s[k] != '\n') && (r == |s| || s[r] == '\n'))
            && (s[i] != '#' && i + 3 <= |s| && s[i..i + 3] == q + q + q ==> EndsString(s, i + 3, q + q + q, r))
            && (s[i] != '#' && !(i + 3 <= |s| && s[i..i + 3] == q + q + q) ==> EndsString(s, i + 1, q, r))
  {
    if s[i] != '#' {
      TripleIs(s, i);
      StringEndIs(s, i + |Delimiter(s, i)|, Delimiter(s, i));
    }
  }

  lemma TripleIs(s: string, i: nat)
    requires i < |s|
    ensures var q := [s[i]];
            && (Triple(s, i) <==> i + 3 <= |s| && s[i..i + 3] == q + q + q)
            && Delimiter(s, i) == if Triple(s, i) then q + q + q else q
  {
    var q := [s[i]];
    if i + 3 <= |s| {
      assert s[i..i + 3] == [s[i], s[i + 1], s[i + 2]];
    }
  }

  // ---------------------------------------------------------------- lines

  /** Where the line at i ends, its newline included. */
  function LineStop(s: string, i: nat): (r: nat)
    requires i < |s|
    ensures i < r <= |s|
  {
    var e := LineEnd(s, i);
    if e < |s| then e + 1 else e
  }

  /** The offsets at which the lines from i on start, and the end of the text. */
  function Starts(s: string, i: nat): (r: seq<nat>)
    requires i <= |s|
    ensures r != [] && r[0] == i && r[|r| - 1] == |s|
    ensures forall k :: 0 <= k < |r| ==> i <= r[k] <= |s|
    ensures forall k :: 0 < k < |r| ==> r[k - 1] < r[k]
    decreases |s| - i
  {
    if i == |s| then [i] else [i] + Starts(s, LineStop(s, i))
  }

  /** `splitLinesPreserveNewline`. */
  function Line(s: string, starts: seq<nat>, k: nat): string
    requires k + 1 < |starts| && starts[k] <= starts[k + 1] <= |s|
  {
    s[starts[k]..starts[k + 1]]
  }

  ghost predicate SameBreaks(s: string, m: string) {
    |m| == |s| && forall k :: 0 <= k < |s| ==> (m[k] == '\n' <==> s[k] == '\n')
  }

  lemma {:induction false} SameLineEnd(s: string, m: string, i: nat)
    requires SameBreaks(s, m) && i <= |s|
    ensures LineEnd(m, i) == LineEnd(s, i)
    decreases |s| - i
  {
    if i < |s| && s[i] != '\n' { SameLineEnd(s, m, i + 1); }
  }

  lemma {:induction false} SameStarts(s: string, m: string, i: nat)
    requires SameBreaks(s, m) && i <= |s|
    ensures Starts(m, i) == Starts(s, i)
    decreases |s| - i
  {
    if i < |s| {
      SameLineEnd(s, m, i);
      var next := LineStop(s, i);
      SameStarts(s, m, next);
      assert LineStop(m, i) == next;
      assert Starts(s, i) == [i] + Starts(s, next) && Starts(m, i) == [i] + Starts(m, next);
    }
  }

  /** The masked view has the lines of the file, at the same offsets. */
  lemma MaskedLinesAlign(s: string)
    ensures |Mask(s)| == |s| && Starts(Mask(s), 0) == Starts(s, 0)
  {
    MaskMeaning(s);
    SameStarts(s, Mask(s), 0);
  }

  // ---------------------------------------------------------------- call blocks

  /** What the start pattern captures on a masked line. */
  datatype Header = Header(assign: string, function_: string)

  datatype Block = Block(header: Header, text: string, start: nat, end: nat)

  /** A call block as a range of lines. */
  datatype Span = Span(header: Header, first: nat, last: nat)

  function Depth(line: string): int {
    if line == "" then 0 else (if line[0] == '(' then 1 else if line[0] == ')' then -1 else 0) + Depth(line[1..])
  }

  /** Opening parentheses count up and closing ones down. */
  lemma {:induction false} DepthCounts(line: string)
    ensures Depth(line) + multiset(line)[')'] == multiset(line)['(']
  {
    if line != "" {
      DepthCounts(line[1..]);
      assert line == [line[0]] + line[1..];
    }
  }

  /** The last line of a call whose parentheses are open to `depth` after line j. */
  function LastLine(lines: seq<string>, j: nat, depth: int): (r: nat)
    requires j < |lines|
    ensures j <= r < |lines|
    decreases |lines| - j
  {
    if depth > 0 && j + 1 < |lines| then LastLine(lines, j + 1, depth + Depth(lines[j + 1])) else j
  }

  function SpansFrom(lines: seq<string>, header: string -> Option<Header>, i: nat): seq<Span>
    requires i <= |lines|
    decreases |lines| - i
  {
    if i == |lines| then []
    else if header(lines[i]).None? then SpansFrom(lines, header, i + 1)
    else
      var last := LastLine(lines, i, Depth(lines[i]));
      [Span(header(lines[i]).value, i, last)] + SpansFrom(lines, header, last + 1)
  }

  /** Ranges of lines that follow each other without overlap, from line i on. */
  ghost predicate Ordered(spans: seq<Span>, n: nat, i: nat) {
    && (forall k :: 0 <= k < |spans| ==> i <= spans[k].first <= spans[k].last < n)
    && (forall j, k :: 0 <= j < k < |spans| ==> spans[j].last < spans[k].first)
  }

  lemma {:induction false} SpansOrdered(lines: seq<string>, header: string -> Option<Header>, i: nat)
    requires i <= |lines|
    ensures Ordered(SpansFrom(lines, header, i), |lines|, i)
    decreases |lines| - i
  {
    if i < |lines| {
      if header(lines[i]).None? {
        SpansOrdered(lines, header, i + 1);
      } else {
        SpansOrdered(lines, header, LastLine(lines, i, Depth(lines[i])) + 1);
      }
    }
  }

  ghost predicate Covered(spans: seq<Span>, line: nat) {
    exists k :: 0 <= k < |spans| && spans[k].first <= line <= spans[k].last
  }

  /** No call start is missed: every line that matches the pattern lies in some block. */
  lemma {:induction false} SpansCover(lines: seq<string>, header: string -> Option<Header>, i: nat, line: nat)
    requires i <= line < |lines| && header(lines[line]).Some?
    ensures Covered(SpansFrom(lines, header, i), line)
    decreases |lines| - i
  {
    var spans := SpansFrom(lines, header, i);
    if header(lines[i]).None? {
      SpansCover(lines, header, i + 1, line);
    } else {
      var last := LastLine(lines, i, Depth(lines[i]));
      if line <= last {
        assert spans[0].first <= line <= spans[0].last;
      } else {
        SpansCover(lines, header, last + 1, line);
        var rest := SpansFrom(lines, header, last + 1);
        var k :| 0 <= k < |rest| && rest[k].first <= line <= rest[k].last;
        assert spans[k + 1] == rest[k];
      }
    }
  }

  function TotalDepth(lines: seq<string>, i: nat, j: nat): int
    requires i <= j <= |lines|
  {
    if i == j then 0 else TotalDepth(lines, i, j - 1) + Depth(lines[j - 1])
  }

  /** A block ends with the first line that closes all its parentheses, or with the file. */
  lemma {:induction false} LastLineCloses(lines: seq<string>, i: nat, j: nat, depth: int)
    requires i <= j < |lines| && depth == TotalDepth(lines, i, j + 1)
    ensures var last := LastLine(lines, j, depth);
            && (forall k: nat | j < k <= last :: TotalDepth(lines, i, k) > 0)
            && (TotalDepth(lines, i, last + 1) <= 0 || last == |lines| - 1)
    decreases |lines| - j
  {
    if depth > 0 && j + 1 < |lines| {
      LastLineCloses(lines, i, j + 1, depth + Depth(lines[j + 1]));
    }
  }

  // ---------------------------------------------------------------- the operations on call blocks

  function LinesOf(s: string, starts: seq<nat>): (r: seq<string>)
    requires starts != [] && forall k :: 0 < k < |starts| ==> starts[k - 1] <= starts[k] <= |s|
    ensures |r| == |starts| - 1
  {
    seq(|starts| - 1, k requires 0 <= k < |starts| - 1 => Line(s, starts, k))
  }

  /** The lines of the masked view. */
  function SyntaxLines(content: string): (r: seq<string>)
    ensures |r| == |Starts(content, 0)| - 1
  {
    MaskedLinesAlign(content);
    LinesOf(Mask(content), Starts(content, 0))
  }

  function Spans(content: string, header: string -> Option<Header>): seq<Span> {
    SpansFrom(SyntaxLines(content), header, 0)
  }

  /** The block of a span: whole lines of the original text. */
  ghost predicate BlockOf(content: string, b: Block, s: Span) {
    var starts := Starts(content, 0);
    && s.first <= s.last < |starts| - 1
    && b.header == s.header && b.start == starts[s.first] && b.end == starts[s.last + 1]
    && b.start < b.end <= |content| && b.text == content[b.start..b.end]
  }

  ghost predicate BlocksOf(content: string, blocks: seq<Block>, spans: seq<Span>) {
    |blocks| == |spans| && forall k :: 0 <= k < |blocks| ==> BlockOf(content, blocks[k], spans[k])
  }

  lemma {:induction false} StartsIncrease(starts: seq<nat>, i: nat, j: nat)
    requires (forall k :: 0 < k < |starts| ==> starts[k - 1] < starts[k]) && i < j < |starts|
    ensures starts[i] < starts[j]
    decreases j
  {
    if i < j - 1 { StartsIncrease(starts, i, j - 1); }
  }

  /** `topLevelCallBlocks`. */
  method TopLevelCallBlocks(content: string, header: string -> Option<Header>) returns (blocks: seq<Block>)
    ensures BlocksOf(content, blocks, Spans(content, header))
  {
    blocks := ScanBlocks(content, Starts(content, 0), SyntaxLines(content), header);
  }

  method ScanBlocks(content: string, starts: seq<nat>, syntax: seq<string>, header: string -> Option<Header>)
      returns (blocks: seq<Block>)
    requires starts == Starts(content, 0) && |syntax| == |starts| - 1
    ensures BlocksOf(content, blocks, SpansFrom(syntax, header, 0))
  {
    blocks := [];
    ghost var all, done: seq<Span> := SpansFrom(syntax, header, 0), [];
    var i := 0;
    while i < |syntax|
      invariant i <= |syntax|
      invariant all == done + SpansFrom(syntax, header, i)
      invariant BlocksOf(content, blocks, done)
    {
      var h := header(syntax[i]);
      if h.None? {
        i := i + 1;
        continue;
      }
      var block, j := ReadBlock(content, starts, syntax, h.value, i);
      SpansStep(syntax, header, i, done);
      BlocksStep(content, blocks, done, block, Span(h.value, i, j));
      blocks := blocks + [block];
      done := done + [Span(h.value, i, j)];
      i := j + 1;
    }
    assert done + [] == done;
  }

  method ReadBlock(content: string, starts: seq<nat>, syntax: seq<string>, h: Header, i: nat)
      returns (block: Block, j: nat)
    requires starts == Starts(content, 0) && |syntax| == |starts| - 1 && i < |syntax|
    ensures j == LastLine(syntax, i, Depth(syntax[i])) && BlockOf(content, block, Span(h, i, j))
  {
    j := ScanCall(syntax, i);
    StartsIncrease(starts, i, j + 1);
    block := Block(h, content[starts[i]..starts[j + 1]], starts[i], starts[j + 1]);
  }

  lemma BlocksStep(content: string, blocks: seq<Block>, spans: seq<Span>, b: Block, s: Span)
    requires BlocksOf(content, blocks, spans) && BlockOf(content, b, s)
    ensures BlocksOf(content, blocks + [b], spans + [s])
  {
  }

  method ScanCall(syntax: seq<string>, i: nat) returns (j: nat)
    requires i < |syntax|
    ensures j == LastLine(syntax, i, Depth(syntax[i]))
  {
    var depth := Depth(syntax[i]);
    j := i;
    while depth > 0 && j + 1 < |syntax|
      invariant i <= j < |syntax|
      invariant LastLine(syntax, j, depth) == LastLine(syntax, i, Depth(syntax[i]))
      decreases |syntax| - j
    {
      j := j + 1;
      depth := depth + Depth(syntax[j]);
    }
  }

  lemma SpansStep(lines: seq<string>, header: string -> Option<Header>, i: nat, done: seq<Span>)
    requires i < |lines| && header(lines[i]).Some?
    ensures var j := LastLine(lines, i, Depth(lines[i]));
            done + SpansFrom(lines, header, i) ==
              (done + [Span(header(lines[i]).value, i, j)]) + SpansFrom(lines, header, j + 1)
  {
  }

  /** Call blocks are disjoint, increasing intervals of whole lines. */
  lemma BlocksDisjoint(content: string, header: string -> Option<Header>, blocks: seq<Block>)
    requires BlocksOf(content, blocks, Spans(content, header))
    ensures forall j, k :: 0 <= j < k < |blocks| ==> blocks[j].end <= blocks[k].start
    ensures forall k :: 0 <= k < |blocks| ==>
            blocks[k].start in Starts(content, 0) && blocks[k].end in Starts(content, 0)
  {
    var starts, spans := Starts(content, 0), Spans(content, header);
    SpansOrdered(SyntaxLines(content), header, 0);
    forall j, k | 0 <= j < k < |blocks| ensures blocks[j].end <= blocks[k].start {
      assert BlockOf(content, blocks[j], spans[j]) && BlockOf(content, blocks[k], spans[k]);
      if spans[j].last + 1 < spans[k].first { StartsIncrease(starts, spans[j].last + 1, spans[k].first); }
    }
  }

  // ---------------------------------------------------------------- removing a named target

  predicate Named(b: Block, nameOf: string -> string, target: string) {
    b.header.function_ != "load" && nameOf(b.text) == target
  }

  /** Position k lies in a block of the target. */
  ghost predicate Cut(blocks: seq<Block>, nameOf: string -> string, target: string, k: nat) {
    exists b :: b in blocks && b.header.function_ != "load" && nameOf(b.text) == target && b.start <= k < b.end
  }

  /** The characters of content[from..] at the positions not cut. */
  ghost function Kept(content: string, blocks: seq<Block>, nameOf: string -> string, target: string, from: nat): string
    requires from <= |content|
    decreases |content| - from
  {
    if from == |content| then ""
    else
      (if Cut(blocks, nameOf, target, from) then "" else [content[from]]) +
        Kept(content, blocks, nameOf, target, from + 1)
  }

  ghost predicate Blocks(content: string, blocks: seq<Block>) {
    && (forall k :: 0 <= k < |blocks| ==> blocks[k].start <= blocks[k].end <= |content|)
    && (forall j, k :: 0 <= j < k < |blocks| ==> blocks[j].end <= blocks[k].start)
  }

  lemma Prepend(content: string, from: nat, to: nat, tail: string)
    requires from < to <= |content|
    ensures [content[from]] + (content[from + 1..to] + tail) == content[from..to] + tail
  {
    assert content[from..to] == [content[from]] + content[from + 1..to];
  }

  lemma {:induction false} KeptPlain(content: string, blocks: seq<Block>, nameOf: string -> string, target: string,
      from: nat, to: nat)
    requires from <= to <= |content|
    requires forall k: nat | from <= k < to :: !Cut(blocks, nameOf, target, k)
    ensures Kept(content, blocks, nameOf, target, from) == content[from..to] + Kept(content, blocks, nameOf, target, to)
    decreases |content| - from
  {
    if from < to {
      KeptPlain(content, blocks, nameOf, target, from + 1, to);
      Prepend(content, from, to, Kept(content, blocks, nameOf, target, to));
    }
  }

  lemma {:induction false} KeptCut(content: string, blocks: seq<Block>, nameOf: string -> string, target: string,
      from: nat, to: nat)
    requires from <= to <= |content|
    requires forall k: nat | from <= k < to :: Cut(blocks, nameOf, target, k)
    ensures Kept(content, blocks, nameOf, target, from) == Kept(content, blocks, nameOf, target, to)
    decreases |content| - from
  {
    if from < to { KeptCut(content, blocks, nameOf, target, from + 1, to); }
  }

  /** `removeNamedTarget`: exactly the lines of the target's blocks go. */
  method RemoveNamedTarget(content: string, header: string -> Option<Header>, nameOf: string -> string,
      target: string) returns (r: string)
    ensures exists blocks ::
            BlocksOf(content, blocks, Spans(content, header)) && r == Kept(content, blocks, nameOf, target, 0)
  {
    var blocks := TopLevelCallBlocks(content, header);
    BlocksDisjoint(content, header, blocks);
    r := CutBlocks(content, blocks, nameOf, target);
  }

  method CutBlocks(content: string, blocks: seq<Block>, nameOf: string -> string, target: string) returns (out: string)
    requires Blocks(content, blocks)
    ensures out == Kept(content, blocks, nameOf, target, 0)
  {
    out := "";
    var last: nat := 0;
    for k := 0 to |blocks|
      invariant last <= |content| && forall j :: k <= j < |blocks| ==> last <= blocks[j].start
      invariant Kept(content, blocks, nameOf, target, 0) == out + Kept(content, blocks, nameOf, target, last)
      invariant forall j :: 0 <= j < k && Named(blocks[j], nameOf, target) ==> blocks[j].end <= last
    {
      var b := blocks[k];
      if !Named(b, nameOf, target) { continue; }
      CutStep(content, blocks, nameOf, target, k, last);
      out := out + content[last..b.start];
      last := b.end;
    }
    NoneLeft(content, blocks, nameOf, target, last);
    out := out + content[last..];
  }

  lemma CutStep(content: string, blocks: seq<Block>, nameOf: string -> string, target: string, k: nat, last: nat)
    requires Blocks(content, blocks) && k < |blocks| && Named(blocks[k], nameOf, target) && last <= blocks[k].start
    requires forall j :: 0 <= j < k && Named(blocks[j], nameOf, target) ==> blocks[j].end <= last
    ensures Kept(content, blocks, nameOf, target, last) ==
            content[last..blocks[k].start] + Kept(content, blocks, nameOf, target, blocks[k].end)
  {
    var b := blocks[k];
    forall q: nat | last <= q < b.start ensures !Cut(blocks, nameOf, target, q) {
      forall c | c in blocks && Named(c, nameOf, target) ensures !(c.start <= q < c.end) {
        var j :| 0 <= j < |blocks| && blocks[j] == c;
      }
    }
    forall q: nat | b.start <= q < b.end ensures Cut(blocks, nameOf, target, q) {
      assert b in blocks;
    }
    KeptPlain(content, blocks, nameOf, target, last, b.start);
    KeptCut(content, blocks, nameOf, target, b.start, b.end);
  }

  lemma NoneLeft(content: string, blocks: seq<Block>, nameOf: string -> string, target: string, last: nat)
    requires last <= |content| &&
             forall j :: 0 <= j < |blocks| && Named(blocks[j], nameOf, target) ==> blocks[j].end <= last
    ensures Kept(content, blocks, nameOf, target, last) == content[last..]
  {
    forall q: nat | last <= q < |content| ensures !Cut(blocks, nameOf, target, q) {
      forall c | c in blocks && Named(c, nameOf, target) ensures !(c.start <= q < c.end) {
        var j :| 0 <= j < |blocks| && blocks[j] == c;
      }
    }
    KeptPlain(content, blocks, nameOf, target, last, |content|);
    assert content[last..|content|] + "" == content[last..];
  }
}
