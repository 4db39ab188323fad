/** CODEOWNERS globs: their direct meaning, their compilation to regular expressions, and rule selection. */
module CodeOwners {
  import opened Regex
  import opened Wrappers

  // ---------------------------------------------------------------- reading a character class

  /** A piece of the text of a regex character class. */
  datatype Token = Plain(c: char) | Escaped(c: char)

  datatype ClassText = Closed(body: seq<Token>, next: nat) | Unclosed

  /** The end of the prefix of a class that cannot close it: `!` or `^`, then a leading `]`. */
  function AfterSign(p: string, start: nat): nat
    requires start < |p|
  {
    if start + 1 < |p| && (p[start + 1] == '!' || p[start + 1] == '^') then start + 2 else start + 1
  }

  function SignTokens(p: string, start: nat): seq<Token>
    requires start < |p|
  {
    if start + 1 < |p| && p[start + 1] == '!' then [Plain('^')]
    else if start + 1 < |p| && p[start + 1] == '^' then [Escaped('^')]
    else []
  }

  function Token1(c: char): Token {
    if c == '\\' || c == '^' || c == '[' then Escaped(c) else Plain(c)
  }

  function Tokens(text: string): (r: seq<Token>)
    ensures |r| == |text| && forall i :: 0 <= i < |text| ==> r[i] == Token1(text[i])
  {
    seq(|text|, i requires 0 <= i < |text| => Token1(text[i]))
  }

  /** The first `]` at or after `index`, or |p|. */
  function Closing(p: string, index: nat): (r: nat)
    requires index <= |p|
    ensures index <= r <= |p| && (r < |p| ==> p[r] == ']') && forall i :: index <= i < r ==> p[i] != ']'
    decreases |p| - index
  {
    if index == |p| || p[index] == ']' then index else Closing(p, index + 1)
  }

  /** `_character_class`: the class that starts at `start`, when it is closed. */
  method CharacterClass(p: string, start: nat) returns (r: ClassText)
    requires start < |p| && p[start] == '['
    ensures r == ClassTextAt(p, start)
  {
    var head, from := ScanHead(p, start);
    var items, close := ScanItems(p, from);
    r := if close < |p| then Closed(head + items, close + 1) else Unclosed;
  }

  method ScanHead(p: string, start: nat) returns (head: seq<Token>, from: nat)
    requires start < |p|
    ensures head == HeadTokens(p, start) && from == ItemsFrom(p, start)
  {
    from, head := start + 1, [];
    if from < |p| && p[from] == '!' {
      head := [Plain('^')];
      from := from + 1;
    } else if from < |p| && p[from] == '^' {
      head := [Escaped('^')];
      from := from + 1;
    }
    assert from == AfterSign(p, start) && head == SignTokens(p, start);
    if from < |p| && p[from] == ']' {
      head := head + [Escaped(']')];
      from := from + 1;
    } else {
      assert head + [] == head;
    }
  }

  method ScanItems(p: string, from: nat) returns (items: seq<Token>, close: nat)
    requires from <= |p|
    ensures close == Closing(p, from) && items == Tokens(p[from..close])
  {
    items, close := [], from;
    while close < |p| && p[close] != ']'
      invariant from <= close <= |p|
      invariant items == Tokens(p[from..close])
      invariant Closing(p, from) == Closing(p, close)
    {
      assert p[from..close + 1] == p[from..close] + [p[close]];
      items := items + [Token1(p[close])];
      close := close + 1;
    }
  }

  function HeadTokens(p: string, start: nat): seq<Token>
    requires start < |p|
  {
    SignTokens(p, start) + if ItemsFrom(p, start) > AfterSign(p, start) then [Escaped(']')] else []
  }

  /** Where the first character that may close the class stands. */
  function ItemsFrom(p: string, start: nat): (r: nat)
    requires start < |p|
    ensures start < r <= |p|
  {
    var sign := AfterSign(p, start);
    if sign < |p| && p[sign] == ']' then sign + 1 else sign
  }

  /** The class text, up to its closing bracket. */
  function ClassTextAt(p: string, start: nat): ClassText
    requires start < |p|
  {
    var from := ItemsFrom(p, start);
    var close := Closing(p, from);
    if close < |p| then Closed(HeadTokens(p, start) + Tokens(p[from..close]), close + 1) else Unclosed
  }

  /** How the regex compiler reads the items of a class: single characters and ranges; None when a range is reversed. */
  function ParseItems(ts: seq<Token>): (r: Option<seq<Span>>)
    ensures r.Some? ==> (r.value == [] <==> ts == [])
  {
    if ts == [] then Some([])
    else if |ts| >= 3 && ts[1] == Plain('-') then
      if ts[2].c < ts[0].c then None else Prepend(Span(ts[0].c, ts[2].c), ParseItems(ts[3..]))
    else Prepend(Span(ts[0].c, ts[0].c), ParseItems(ts[1..]))
  }

  function Prepend(x: Span, r: Option<seq<Span>>): Option<seq<Span>> {
    if r.None? then None else Some([x] + r.value)
  }

  /** The regex compiler's reading of a class text. */
  function ParseClass(body: seq<Token>): Option<Regex> {
    var items := ParseItems(Shown(body));
    if items.None? then None else Some(Chars(Signed(body), items.value))
  }

  /** The class text starts with the regex negation sign. */
  predicate Signed(body: seq<Token>) { body != [] && body[0] == Plain('^') }

  /** The items after the negation sign, if there is one. */
  function Shown(body: seq<Token>): seq<Token> { if Signed(body) then body[1..] else body }

  // ---------------------------------------------------------------- the meaning of a glob, read directly

  /** The text between the brackets of a class, without its negation sign. */
  function ClassBody(p: string, start: nat): Option<string>
    requires start < |p|
  {
    var close := Closing(p, ItemsFrom(p, start));
    if close < |p| then Some(p[ClassFirst(p, start)..close]) else None
  }

  /** Where the listed characters start: after the negation sign, if there is one. */
  function ClassFirst(p: string, start: nat): (r: nat)
    requires start < |p|
    ensures r <= ItemsFrom(p, start)
  {
    if Negated(p, start) then start + 2 else start + 1
  }

  function ClassEnd(p: string, start: nat): (r: nat)
    requires start < |p| && ClassBody(p, start).Some?
    ensures start < r <= |p|
  {
    Closing(p, ItemsFrom(p, start)) + 1
  }

  predicate Negated(p: string, start: nat)
    requires start < |p|
  {
    start + 1 < |p| && p[start + 1] == '!'
  }

  /** A character is listed, or falls in a listed range. */
  predicate Listed(text: string, c: char) {
    if text == "" then false
    else if |text| >= 3 && text[1] == '-' then text[0] <= c <= text[2] || Listed(text[3..], c)
    else text[0] == c || Listed(text[1..], c)
  }

  predicate Reversed(text: string) {
    if text == "" then false
    else if |text| >= 3 && text[1] == '-' then text[2] < text[0] || Reversed(text[3..])
    else Reversed(text[1..])
  }

  /** s[a..k] is empty or ends with a slash. */
  predicate AfterSlash(s: string, a: nat, k: nat)
    requires a <= k <= |s|
  {
    k == a || s[k - 1] == '/'
  }

  predicate Within(a: nat, k: nat, b: nat) { a <= k <= b }

  /** The glob p[i..] matches s[a..b]. */
  ghost predicate Glob(p: string, i: nat, s: string, a: nat, b: nat)
    requires i <= |p| && a <= b <= |s|
    decreases |p| - i
  {
    if i == |p| then a == b
    else if p[i] == '\\' then
      if i + 1 < |p| then a < b && s[a] == p[i + 1] && Glob(p, i + 2, s, a + 1, b)
      else a < b && s[a] == '\\' && Glob(p, i + 1, s, a + 1, b)
    else if p[i] == '*' && i + 1 < |p| && p[i + 1] == '*' then
      if i + 2 < |p| && p[i + 2] == '/' then
        exists k :: a <= k <= b && AfterSlash(s, a, k) && Glob(p, i + 3, s, k, b)
      else
        var next := i + 2;
        exists k: nat :: Within(a, k, b) && Glob(p, next, s, k, b)
    else if p[i] == '*' then
      exists k :: a <= k <= b && SlashFree(s, a, k) && Glob(p, i + 1, s, k, b)
    else if p[i] == '?' then a < b && s[a] != '/' && Glob(p, i + 1, s, a + 1, b)
    else if p[i] == '[' && ClassBody(p, i).Some? then
      a < b && Listed(ClassBody(p, i).value, s[a]) != Negated(p, i) && Glob(p, ClassEnd(p, i), s, a + 1, b)
    else a < b && s[a] == p[i] && Glob(p, i + 1, s, a + 1, b)
  }

  // ---------------------------------------------------------------- compilation

  datatype Piece = Piece(regex: Option<Regex>, next: nat)

  /** The regex for the glob element at i, and where the next element starts. */
  function PieceAt(p: string, i: nat): (r: Piece)
    requires i < |p|
    ensures i < r.next <= |p|
  {
    if p[i] == '\\' then
      if i + 1 < |p| then Piece(Some(Lit(p[i + 1])), i + 2) else Piece(Some(Lit('\\')), i + 1)
    else if p[i] == '*' && i + 1 < |p| && p[i + 1] == '*' then
      if i + 2 < |p| && p[i + 2] == '/' then Piece(Some(Opt(ToSlash())), i + 3) else Piece(Some(Anything()), i + 2)
    else if p[i] == '*' then Piece(Some(Star(NotSlash())), i + 1)
    else if p[i] == '?' then Piece(Some(NotSlash()), i + 1)
    else if p[i] == '[' then
      var t := ClassTextAt(p, i);
      if t.Closed? then Piece(ParseClass(t.body), t.next) else Piece(Some(Lit('[')), i + 1)
    else Piece(Some(Lit(p[i])), i + 1)
  }

  /** All pieces from i on; None when a character range is reversed. */
  function Pieces(p: string, i: nat): Option<seq<Regex>>
    requires i <= |p|
    decreases |p| - i
  {
    if i == |p| then Some([])
    else
      var x := PieceAt(p, i);
      var rest := Pieces(p, x.next);
      if x.regex.None? || rest.None? then None else Some([x.regex.value] + rest.value)
  }

  /** `_glob_to_regex`. */
  method GlobToRegex(p: string) returns (r: Option<seq<Regex>>)
    ensures r == Pieces(p, 0)
  {
    var output: seq<Regex> := [];
    var index := 0;
    assert Pieces(p, 0).Some? ==> [] + Pieces(p, 0).value == Pieces(p, 0).value;
    while index < |p|
      invariant index <= |p|
      invariant Pieces(p, 0) == if Pieces(p, index).None? then None else Some(output + Pieces(p, index).value)
    {
      var regex, next := OnePiece(p, index);
      if regex.None? {
        return None;
      }
      PiecesStep(p, index, output);
      output := output + [regex.value];
      index := next;
    }
    assert output + [] == output;
    r := Some(output);
  }

  lemma PiecesStep(p: string, index: nat, output: seq<Regex>)
    requires index < |p| && PieceAt(p, index).regex.Some?
    ensures var x := PieceAt(p, index);
            (if Pieces(p, index).None? then None else Some(output + Pieces(p, index).value))
            == if Pieces(p, x.next).None? then None else Some((output + [x.regex.value]) + Pieces(p, x.next).value)
  {
    var x := PieceAt(p, index);
    if Pieces(p, x.next).Some? {
      assert output + ([x.regex.value] + Pieces(p, x.next).value) ==
        (output + [x.regex.value]) + Pieces(p, x.next).value;
    }
  }

  method OnePiece(p: string, index: nat) returns (regex: Option<Regex>, next: nat)
    requires index < |p|
    ensures Piece(regex, next) == PieceAt(p, index)
  {
    var c := p[index];
    if c == '\\' {
      if index + 1 < |p| { return Some(Lit(p[index + 1])), index + 2; }
      return Some(Lit('\\')), index + 1;
    }
    if c == '*' && index + 1 < |p| && p[index + 1] == '*' {
      if index + 2 < |p| && p[index + 2] == '/' { return Some(Opt(ToSlash())), index + 3; }
      return Some(Anything()), index + 2;
    }
    if c == '*' { return Some(Star(NotSlash())), index + 1; }
    if c == '?' { return Some(NotSlash()), index + 1; }
    if c == '[' {
      var text := CharacterClass(p, index);
      if text.Closed? { return ParseClass(text.body), text.next; }
      return Some(Lit('[')), index + 1;
    }
    return Some(Lit(c)), index + 1;
  }

  // ---------------------------------------------------------------- classes mean what they list

  ghost predicate Spells(ts: seq<Token>, text: string) {
    |ts| == |text| && forall i :: 0 <= i < |ts| ==> ts[i].c == text[i] && (ts[i] == Plain('-') <==> text[i] == '-')
  }

  lemma SpansStep(x: Span, rest: seq<Span>, c: char)
    ensures InSpans([x] + rest, c) <==> x.low <= c <= x.high || InSpans(rest, c)
  {
    var all := [x] + rest;
    assert all[0] == x && forall i :: 0 <= i < |rest| ==> all[i + 1] == rest[i];
    if InSpans(rest, c) {
      var i :| 0 <= i < |rest| && rest[i].low <= c <= rest[i].high;
      assert all[i + 1].low <= c <= all[i + 1].high;
    }
  }

  lemma {:induction false} ItemsMeaning(ts: seq<Token>, text: string, c: char)
    requires Spells(ts, text)
    ensures ParseItems(ts).None? <==> Reversed(text)
    ensures ParseItems(ts).Some? ==> (InSpans(ParseItems(ts).value, c) <==> Listed(text, c))
  {
    if ts != [] {
      var n := if |ts| >= 3 && ts[1] == Plain('-') then 3 else 1;
      ItemsMeaning(ts[n..], text[n..], c);
      var x := if n == 3 then Span(ts[0].c, ts[2].c) else Span(ts[0].c, ts[0].c);
      if ParseItems(ts[n..]).Some? { SpansStep(x, ParseItems(ts[n..]).value, c); }
    }
  }

  lemma ClassSpelling(p: string, start: nat)
    requires start < |p| && p[start] == '[' && ClassTextAt(p, start).Closed?
    ensures ClassBody(p, start).Some? && ClassTextAt(p, start).next == ClassEnd(p, start)
    ensures Negated(p, start) <==> Signed(ClassTextAt(p, start).body)
    ensures Spells(Shown(ClassTextAt(p, start).body), ClassBody(p, start).value)
  {
    var from := ItemsFrom(p, start);
    var close := Closing(p, from);
    var first := ClassFirst(p, start);
    HeadSpelling(p, start);
    BodySpelling(HeadTokens(p, start), p[first..from], p[from..close], p[first..close]);
  }

  /** The head of a class, followed by ordinary items, which never look like a negation sign. */
  lemma BodySpelling(head: seq<Token>, headText: string, text: string, whole: string)
    requires Spells(Shown(head), headText) && whole == headText + text
    ensures var body := head + Tokens(text);
            Signed(body) == Signed(head) && Spells(Shown(body), whole)
  {
    var body := head + Tokens(text);
    if head == [] && text != "" { assert body[0] == Token1(text[0]); }
    assert Shown(body) == Shown(head) + Tokens(text);
    SpellsAppend(Shown(head), headText, text, Shown(body), whole);
  }

  lemma SpellsAppend(ts: seq<Token>, text: string, more: string, all: seq<Token>, whole: string)
    requires Spells(ts, text) && all == ts + Tokens(more) && whole == text + more
    ensures Spells(all, whole)
  {
    forall i | 0 <= i < |all| ensures all[i].c == whole[i] && (all[i] == Plain('-') <==> whole[i] == '-') {
      if i >= |ts| { assert all[i] == Token1(more[i - |ts|]); }
    }
  }

  /** What stands before the ordinary items of a class. */
  lemma HeadSpelling(p: string, start: nat)
    requires start < |p|
    ensures ClassFirst(p, start) <= ItemsFrom(p, start)
    ensures Negated(p, start) <==> Signed(HeadTokens(p, start))
    ensures Spells(Shown(HeadTokens(p, start)), p[ClassFirst(p, start)..ItemsFrom(p, start)])
  {
    var sign, from, first := AfterSign(p, start), ItemsFrom(p, start), ClassFirst(p, start);
    var bracket := if from > sign then [Escaped(']')] else [];
    var signs := SignTokens(p, start);
    assert HeadTokens(p, start) == signs + bracket;
    if Negated(p, start) {
      assert Shown(signs + bracket) == bracket;
    } else {
      assert Shown(signs + bracket) == signs + bracket;
    }
    assert p[first..from] == p[first..sign] + p[sign..from];
  }

  lemma ClassMeaning(p: string, start: nat, s: string, a: nat, b: nat)
    requires start < |p| && p[start] == '[' && ClassTextAt(p, start).Closed? && a <= b <= |s|
    ensures ClassBody(p, start).Some? && ClassTextAt(p, start).next == ClassEnd(p, start)
    ensures var r := ParseClass(ClassTextAt(p, start).body);
            && (r.None? <==> Reversed(ClassBody(p, start).value))
            && (r.Some? ==>
                 (Match(r.value, s, a, b) <==>
                 b == a + 1 && Listed(ClassBody(p, start).value, s[a]) != Negated(p, start)))
  {
    ClassSpelling(p, start);
    ItemsMeaning(Shown(ClassTextAt(p, start).body), ClassBody(p, start).value, if a < |s| then s[a] else 'x');
  }

  // ---------------------------------------------------------------- compilation preserves meaning

  /** Some regex element, then the rest of the glob. */
  ghost predicate ThenGlob(r: Regex, p: string, next: nat, s: string, a: nat, b: nat)
    requires next <= |p| && a <= b <= |s|
  {
    exists k :: a <= k <= b && Match(r, s, a, k) && Glob(p, next, s, k, b)
  }

  lemma OneThen(r: Regex, p: string, next: nat, s: string, a: nat, b: nat, ok: bool)
    requires next <= |p| && a <= b <= |s|
    requires forall k :: a <= k <= b ==> (Match(r, s, a, k) <==> k == a + 1 && ok)
    ensures ThenGlob(r, p, next, s, a, b) <==> a < b && ok && Glob(p, next, s, a + 1, b)
  {
    if a < b { assert Match(r, s, a, a + 1) <==> ok; }
  }

  lemma LitThen(c: char, p: string, next: nat, s: string, a: nat, b: nat)
    requires next <= |p| && a <= b <= |s|
    ensures ThenGlob(Lit(c), p, next, s, a, b) <==> a < b && s[a] == c && Glob(p, next, s, a + 1, b)
  {
    forall k | a <= k <= b ensures Match(Lit(c), s, a, k) <==> k == a + 1 && a < |s| && s[a] == c {
      LitMatches(c, s, a, k);
    }
    OneThen(Lit(c), p, next, s, a, b, a < |s| && s[a] == c);
  }

  lemma QuestionThen(p: string, next: nat, s: string, a: nat, b: nat)
    requires next <= |p| && a <= b <= |s|
    ensures ThenGlob(NotSlash(), p, next, s, a, b) <==> a < b && s[a] != '/' && Glob(p, next, s, a + 1, b)
  {
    forall k | a <= k <= b ensures Match(NotSlash(), s, a, k) <==> k == a + 1 && a < |s| && s[a] != '/' {
      NotSlashMatches(s, a, k);
    }
    OneThen(NotSlash(), p, next, s, a, b, a < |s| && s[a] != '/');
  }

  lemma ClassThen(p: string, i: nat, s: string, a: nat, b: nat)
    requires i < |p| && p[i] == '[' && ClassTextAt(p, i).Closed? && ParseClass(ClassTextAt(p, i).body).Some?
    requires a <= b <= |s|
    ensures ClassBody(p, i).Some? && ClassTextAt(p, i).next == ClassEnd(p, i)
    ensures ThenGlob(ParseClass(ClassTextAt(p, i).body).value, p, ClassEnd(p, i), s, a, b) <==>
            a < b && Listed(ClassBody(p, i).value, s[a]) != Negated(p, i) && Glob(p, ClassEnd(p, i), s, a + 1, b)
  {
    var r := ParseClass(ClassTextAt(p, i).body).value;
    ClassMeaning(p, i, s, a, b);
    var ok := a < |s| && Listed(ClassBody(p, i).value, s[a]) != Negated(p, i);
    forall k | a <= k <= b ensures Match(r, s, a, k) <==> k == a + 1 && ok {
      ClassMeaning(p, i, s, a, k);
    }
    OneThen(r, p, ClassEnd(p, i), s, a, b, ok);
  }

  lemma StarThen(p: string, next: nat, s: string, a: nat, b: nat)
    requires next <= |p| && a <= b <= |s|
    ensures ThenGlob(Star(NotSlash()), p, next, s, a, b) <==>
            exists k :: a <= k <= b && SlashFree(s, a, k) && Glob(p, next, s, k, b)
  {
    forall k | a <= k <= b ensures Match(Star(NotSlash()), s, a, k) <==> SlashFree(s, a, k) {
      SegmentMatches(s, a, k);
    }
  }

  lemma AnyThen(p: string, next: nat, s: string, a: nat, b: nat)
    requires next <= |p| && a <= b <= |s| && OneLine(s)
    ensures ThenGlob(Anything(), p, next, s, a, b) <==> exists k: nat :: Within(a, k, b) && Glob(p, next, s, k, b)
  {
    var any := Anything();
    forall k: nat | Within(a, k, b) ensures Match(any, s, a, k) {
      AnyMatches(s, a, k);
    }
    if ThenGlob(any, p, next, s, a, b) {
      var k :| a <= k <= b && Match(any, s, a, k) && Glob(p, next, s, k, b);
      assert Within(a, k, b);
    }
  }

  lemma DirectoriesThen(p: string, next: nat, s: string, a: nat, b: nat)
    requires next <= |p| && a <= b <= |s| && OneLine(s)
    ensures ThenGlob(Opt(ToSlash()), p, next, s, a, b) <==>
            exists k :: a <= k <= b && AfterSlash(s, a, k) && Glob(p, next, s, k, b)
  {
    forall k | a <= k <= b ensures Match(Opt(ToSlash()), s, a, k) <==> AfterSlash(s, a, k) {
      ToSlashMatches(s, a, k);
    }
  }

  lemma ElementMeaning(p: string, i: nat, s: string, a: nat, b: nat)
    requires i < |p| && PieceAt(p, i).regex.Some? && a <= b <= |s| && OneLine(s)
    ensures Glob(p, i, s, a, b) <==> ThenGlob(PieceAt(p, i).regex.value, p, PieceAt(p, i).next, s, a, b)
  {
    var next := PieceAt(p, i).next;
    if p[i] == '[' {
      if ClassTextAt(p, i).Closed? {
        ClassThen(p, i, s, a, b);
      } else {
        LitThen('[', p, next, s, a, b);
      }
    } else if p[i] == '*' {
      if i + 1 < |p| && p[i + 1] == '*' {
        if i + 2 < |p| && p[i + 2] == '/' {
          DirectoriesThen(p, next, s, a, b);
        } else {
          AnyThen(p, next, s, a, b);
        }
      } else {
        StarThen(p, next, s, a, b);
      }
    } else if p[i] == '?' {
      QuestionThen(p, next, s, a, b);
    } else if p[i] == '\\' {
      LitThen(if i + 1 < |p| then p[i + 1] else '\\', p, next, s, a, b);
    } else {
      LitThen(p[i], p, next, s, a, b);
    }
  }

  /** The compiled pieces match exactly what the glob matches. */
  lemma {:induction false} GlobMeaning(p: string, i: nat, s: string, a: nat, b: nat)
    requires i <= |p| && Pieces(p, i).Some? && a <= b <= |s| && OneLine(s)
    ensures MatchAll(Pieces(p, i).value, s, a, b) <==> Glob(p, i, s, a, b)
    decreases |p| - i
  {
    if i < |p| {
      var x := PieceAt(p, i);
      var rest := Pieces(p, x.next).value;
      FirstOf(x.regex.value, rest, s, a, b);
      forall k | a <= k <= b ensures MatchAll(rest, s, k, b) <==> Glob(p, x.next, s, k, b) {
        GlobMeaning(p, x.next, s, k, b);
      }
      assert Then(x.regex.value, rest, s, a, b) <==> ThenGlob(x.regex.value, p, x.next, s, a, b);
      ElementMeaning(p, i, s, a, b);
    }
  }

  /** Some class of the glob holds a reversed range. */
  predicate BadRange(p: string, i: nat)
    requires i <= |p|
    decreases |p| - i
  {
    i < |p| &&
      (BadRange(p, PieceAt(p, i).next) || (p[i] == '[' && ClassBody(p, i).Some? && Reversed(ClassBody(p, i).value)))
  }

  lemma {:induction false} PiecesFail(p: string, i: nat)
    requires i <= |p|
    ensures Pieces(p, i).None? <==> BadRange(p, i)
    decreases |p| - i
  {
    if i < |p| {
      PiecesFail(p, PieceAt(p, i).next);
      if p[i] == '[' && ClassTextAt(p, i).Closed? { ClassMeaning(p, i, "", 0, 0); }
    }
  }

  // ---------------------------------------------------------------- whole patterns

  predicate Anchored(pattern: string) { pattern != "" && pattern[0] == '/' }

  predicate DirectoryOnly(pattern: string) { pattern != "" && pattern[|pattern| - 1] == '/' }

  /** The pattern without its leading and trailing slash. */
  function Raw(pattern: string): string {
    var raw := if Anchored(pattern) then pattern[1..] else pattern;
    if DirectoryOnly(pattern) && raw != "" then raw[..|raw| - 1] else raw
  }

  predicate FromRoot(pattern: string) { Anchored(pattern) || '/' in Raw(pattern) }

  /** Where a match may start: the root, or any path segment for a bare name. */
  predicate AllowedStart(pattern: string, s: string, a: nat)
    requires a <= |s|
  {
    a == 0 || (!FromRoot(pattern) && s[a - 1] == '/')
  }

  /** Where a match may end: before a slash, or at the end unless only directories match. */
  predicate AllowedEnd(pattern: string, s: string, b: nat)
    requires b <= |s|
  {
    if b == |s| then !DirectoryOnly(pattern) else s[b] == '/'
  }

  /** What the pattern means, read directly. */
  ghost predicate Owns(pattern: string, s: string) {
    exists a, b ::
      0 <= a <= b <= |s| && AllowedStart(pattern, s, a) && AllowedEnd(pattern, s, b) && Glob(Raw(pattern), 0, s, a, b)
  }

  /** A glob without the slashes that anchor it or ask for a directory. */
  predicate Bare(core: string, anchored: bool, directory: bool) {
    core != "" && (!anchored ==> core[0] != '/') && (!directory ==> core[|core| - 1] != '/')
  }

  function Pattern(core: string, anchored: bool, directory: bool): string {
    (if anchored then "/" else "") + (core + if directory then "/" else "")
  }

  /** The glob matches s[a..b], from a segment where it may start to one where it may end. */
  ghost predicate Covers(core: string, anchored: bool, directory: bool, s: string, a: nat, b: nat) {
    && a <= b <= |s| && Glob(core, 0, s, a, b)
    && (a == 0 || (!anchored && '/' !in core && s[a - 1] == '/'))
    && (if b == |s| then !directory else s[b] == '/')
  }

  /** What the slashes around and inside a glob say: it matches whole path segments, from the root when a slash
      leads or stands inside and from any segment else, and what it matches goes on below when a slash trails. */
  lemma OwnsForms(core: string, anchored: bool, directory: bool, s: string)
    requires Bare(core, anchored, directory)
    ensures Owns(Pattern(core, anchored, directory), s) <==>
            exists a: nat, b: nat :: Covers(core, anchored, directory, s, a, b)
  {
    var pattern := Pattern(core, anchored, directory);
    BareParts(core, anchored, directory);
    if Owns(pattern, s) {
      var a, b :| 0 <= a <= b <= |s| && AllowedStart(pattern, s, a) && AllowedEnd(pattern, s, b) &&
        Glob(core, 0, s, a, b);
      assert Covers(core, anchored, directory, s, a, b);
    }
    if a: nat, b: nat :| Covers(core, anchored, directory, s, a, b) {
      assert AllowedStart(pattern, s, a) && AllowedEnd(pattern, s, b) && Glob(core, 0, s, a, b);
    }
  }

  lemma BareParts(core: string, anchored: bool, directory: bool)
    requires Bare(core, anchored, directory)
    ensures var pattern := Pattern(core, anchored, directory);
            && (Anchored(pattern) <==> anchored) && (DirectoryOnly(pattern) <==> directory)
            && Raw(pattern) == core && (FromRoot(pattern) <==> anchored || '/' in core)
  {
    var pattern, tail := Pattern(core, anchored, directory), core + if directory then "/" else "";
    assert tail[0] == core[0] && tail[|tail| - 1] == if directory then '/' else core[|core| - 1];
    assert pattern[|pattern| - 1] == tail[|tail| - 1];
    if anchored { assert pattern[1..] == tail; } else { assert pattern == tail; }
    if directory { assert tail[..|tail| - 1] == core; }
  }

  function Prefix(pattern: string): Regex {
    if FromRoot(pattern) then Begin else Alt(Begin, ToSlash())
  }

  function Below(): Regex { Cat(Lit('/'), Anything()) }

  function Suffix(pattern: string): Regex {
    if DirectoryOnly(pattern) then Cat(Below(), End) else Alt(End, Below())
  }

  /** `compile_pattern`: None stands for its ValueError and for the regex compiler's error. */
  method CompilePattern(pattern: string) returns (r: Option<seq<Regex>>)
    ensures r.None? <==> Raw(pattern) == "" || BadRange(Raw(pattern), 0)
    ensures r.Some? ==> forall s :: OneLine(s) ==> (Search(r.value, s) <==> Owns(pattern, s))
  {
    var raw := Raw(pattern);
    PiecesFail(raw, 0);
    if raw == "" { return None; }
    var body := GlobToRegex(raw);
    if body.None? { return None; }
    r := Some([Prefix(pattern)] + (body.value + [Suffix(pattern)]));
    forall s | OneLine(s) ensures Search(r.value, s) <==> Owns(pattern, s) {
      CompiledMeaning(pattern, body.value, s);
    }
  }

  lemma PrefixMeaning(pattern: string, s: string, i: nat, a: nat)
    requires OneLine(s) && i <= a <= |s|
    ensures Match(Prefix(pattern), s, i, a) ==> AllowedStart(pattern, s, a)
    ensures AllowedStart(pattern, s, a) ==> Match(Prefix(pattern), s, 0, a)
  {
    ToSlashMatches(s, i, a);
    ToSlashMatches(s, 0, a);
    assert Match(Begin, s, i, a) <==> i == a == 0;
    assert Match(Begin, s, 0, a) <==> a == 0;
  }

  lemma BelowMatches(s: string, b: nat, j: nat)
    requires OneLine(s) && b <= j <= |s|
    ensures Match(Below(), s, b, j) <==> b < j && s[b] == '/'
  {
    forall k | b <= k <= j
      ensures (Match(Lit('/'), s, b, k) <==> k == b + 1 && s[b] == '/') && Match(Anything(), s, k, j) {
      LitMatches('/', s, b, k);
      AnyMatches(s, k, j);
    }
    if b < j { assert Match(Lit('/'), s, b, b + 1) <==> s[b] == '/'; }
  }

  lemma SuffixMeaning(pattern: string, s: string, b: nat, j: nat)
    requires OneLine(s) && b <= j <= |s|
    ensures Match(Suffix(pattern), s, b, j) ==> AllowedEnd(pattern, s, b)
    ensures AllowedEnd(pattern, s, b) ==> Match(Suffix(pattern), s, b, |s|)
  {
    if DirectoryOnly(pattern) {
      if Match(Suffix(pattern), s, b, j) {
        var below := Below();
        assert Match(Cat(below, End), s, b, j);
        var k :| b <= k <= j && Match(below, s, b, k) && Match(End, s, k, j);
        BelowMatches(s, b, k);
      }
      BelowMatches(s, b, |s|);
      assert Match(End, s, |s|, |s|);
    } else {
      BelowMatches(s, b, j);
      BelowMatches(s, b, |s|);
      assert Match(End, s, b, j) <==> b == j == |s|;
      assert Match(End, s, b, |s|) <==> b == |s|;
    }
  }

  ghost predicate Parts(pattern: string, body: seq<Regex>, s: string, i: nat, a: nat, b: nat, j: nat)
    requires i <= a <= b <= j <= |s|
  {
    Match(Prefix(pattern), s, i, a) && MatchAll(body, s, a, b) && Match(Suffix(pattern), s, b, j)
  }

  lemma SearchParts(pattern: string, body: seq<Regex>, s: string)
    ensures Search([Prefix(pattern)] + (body + [Suffix(pattern)]), s) <==>
            exists i, a, b, j :: 0 <= i <= a <= b <= j <= |s| && Parts(pattern, body, s, i, a, b, j)
  {
    var tail := body + [Suffix(pattern)];
    if Search([Prefix(pattern)] + tail, s) {
      var i, j :| 0 <= i <= j <= |s| && MatchAll([Prefix(pattern)] + tail, s, i, j);
      FirstOf(Prefix(pattern), tail, s, i, j);
      var a :| i <= a <= j && Match(Prefix(pattern), s, i, a) && MatchAll(tail, s, a, j);
      LastOf(body, Suffix(pattern), s, a, j);
      var b :| a <= b <= j && MatchAll(body, s, a, b) && Match(Suffix(pattern), s, b, j);
      assert Parts(pattern, body, s, i, a, b, j);
    }
    if i, a, b, j :| 0 <= i <= a <= b <= j <= |s| && Parts(pattern, body, s, i, a, b, j) {
      LastOf(body, Suffix(pattern), s, a, j);
      FirstOf(Prefix(pattern), tail, s, i, j);
      assert MatchAll([Prefix(pattern)] + tail, s, i, j);
    }
  }

  /** Searching with the compiled pattern finds exactly what the pattern owns. */
  lemma CompiledMeaning(pattern: string, body: seq<Regex>, s: string)
    requires OneLine(s) && Pieces(Raw(pattern), 0) == Some(body)
    ensures Search([Prefix(pattern)] + (body + [Suffix(pattern)]), s) <==> Owns(pattern, s)
  {
    SearchParts(pattern, body, s);
    if i, a, b, j :| 0 <= i <= a <= b <= j <= |s| && Parts(pattern, body, s, i, a, b, j) {
      PrefixMeaning(pattern, s, i, a);
      SuffixMeaning(pattern, s, b, j);
      GlobMeaning(Raw(pattern), 0, s, a, b);
    }
    if Owns(pattern, s) {
      var a, b :| 0 <= a <= b <= |s| && AllowedStart(pattern, s, a) && AllowedEnd(pattern, s, b) &&
        Glob(Raw(pattern), 0, s, a, b);
      PrefixMeaning(pattern, s, 0, a);
      SuffixMeaning(pattern, s, b, |s|);
      GlobMeaning(Raw(pattern), 0, s, a, b);
      assert Parts(pattern, body, s, 0, a, b, |s|);
    }
  }

  // ---------------------------------------------------------------- rule selection

  datatype Rule = Rule(pattern: string, owners: seq<string>)

  /** The last of the first n rules that owns the candidate, or none. */
  ghost predicate LastOwner(rules: seq<Rule>, n: nat, candidate: string, r: Option<nat>)
    requires n <= |rules|
  {
    match r
    case None => forall k :: 0 <= k < n ==> !Owns(rules[k].pattern, candidate)
    case Some(m) =>
      m < n && Owns(rules[m].pattern, candidate) && forall k :: m < k < n ==> !Owns(rules[k].pattern, candidate)
  }

  /** The rules that compiled, each with its regex search as a total function. */
  ghost predicate Searches(rules: seq<Rule>, search: (nat, string) -> bool) {
    forall k: nat, s: string | k < |rules| && OneLine(s) :: search(k, s) <==> Owns(rules[k].pattern, s)
  }

  /** `_match_candidate`: the last matching rule wins. */
  method MatchCandidate(rules: seq<Rule>, search: (nat, string) -> bool, candidate: string) returns (r: Option<nat>)
    requires Searches(rules, search) && OneLine(candidate)
    ensures LastOwner(rules, |rules|, candidate, r)
  {
    r := None;
    for k := 0 to |rules|
      invariant LastOwner(rules, k, candidate, r)
    {
      if search(k, candidate) {
        r := Some(k);
      }
    }
  }

  /** `match_source`: the first candidate that any rule owns decides, even with no owners. */
  method MatchSource(rules: seq<Rule>, search: (nat, string) -> bool, candidates: seq<string>)
    returns (matched: Option<nat>, candidate: nat)
    requires Searches(rules, search) && forall c :: c in candidates ==> OneLine(c)
    ensures candidate <= |candidates| && (matched.Some? <==> candidate < |candidates|)
    ensures forall c :: 0 <= c < candidate ==> LastOwner(rules, |rules|, candidates[c], None)
    ensures matched.Some? ==> LastOwner(rules, |rules|, candidates[candidate], matched)
  {
    for c := 0 to |candidates|
      invariant forall d :: 0 <= d < c ==> LastOwner(rules, |rules|, candidates[d], None)
    {
      matched := MatchCandidate(rules, search, candidates[c]);
      if matched.Some? {
        return matched, c;
      }
    }
    return None, |candidates|;
  }
}
