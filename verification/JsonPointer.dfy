/** Local references inside a schema document (JSON Pointer, sections 3 and 4 of RFC 6901). */
module JsonPointer {
  import opened Json
  import opened Paths
  import opened Wrappers

  datatype RefError =
    | Unsupported
    | MissingSegment(key: string)
    | NotAnIndex(part: string)
    | OutOfBounds(index: nat)
    | NonContainer
    | NotAnObject

  datatype Target = Found(value: Json) | Failed(error: RefError)

  /** `str.replace` of a two-character pattern by one character. */
  function Replace(s: string, a: char, b: char, c: char): string {
    if |s| < 2 then s
    else if s[0] == a && s[1] == b then [c] + Replace(s[2..], a, b, c)
    else [s[0]] + Replace(s[1..], a, b, c)
  }

  function Unescape(part: string): string {
    Replace(Replace(part, '~', '1', '/'), '~', '0', '~')
  }

  predicate IsDigit(c: char) { '0' <= c <= '9' }

  predicate AllDigits(s: string) { s != "" && forall i :: 0 <= i < |s| ==> IsDigit(s[i]) }

  function ToInt(s: string): nat
    requires s == "" || AllDigits(s)
  {
    if s == "" then 0
    else
      assert IsDigit(s[|s| - 1]);
      ToInt(s[..|s| - 1]) * 10 + (s[|s| - 1] as nat - '0' as nat)
  }

  /** One segment, already unescaped. */
  function Descend(current: Json, part: string): Target {
    match current
    case Obj(fields) => if Get(fields, part).Some? then Found(Get(fields, part).value) else Failed(MissingSegment(part))
    case Arr(items) =>
      if !AllDigits(part) then Failed(NotAnIndex(part))
      else if ToInt(part) < |items| then Found(items[ToInt(part)]) else Failed(OutOfBounds(ToInt(part)))
    case _ => Failed(NonContainer)
  }

  /** A segment names a key of an object or a position of an array; each failure has its own error. */
  lemma DescendMeans(current: Json, part: string, t: Target)
    ensures Descend(current, part) == t <==>
            || (current.Obj? && Get(current.fields, part).Some? && t == Found(Get(current.fields, part).value))
            || (current.Obj? && Get(current.fields, part) == None && t == Failed(MissingSegment(part)))
            || (current.Arr? && !AllDigits(part) && t == Failed(NotAnIndex(part)))
            || (current.Arr? && AllDigits(part) && ToInt(part) >= |current.items| &&
                 t == Failed(OutOfBounds(ToInt(part))))
            || (current.Arr? && AllDigits(part) && ToInt(part) < |current.items| &&
                 t == Found(current.items[ToInt(part)]))
            || (!current.Obj? && !current.Arr? && t == Failed(NonContainer))
  {
  }

  function Walk(current: Json, parts: seq<string>): Target {
    if parts == [] then Found(current)
    else
      var next := Descend(current, Unescape(parts[0]));
      if next.Failed? then next else Walk(next.value, parts[1..])
  }

  function Resolve(root: Json, ref: string): Target {
    if |ref| < 2 || ref[0] != '#' || ref[1] != '/' then Failed(Unsupported)
    else
      var t := Walk(root, Split(ref[2..]));
      if t.Found? && !t.value.Obj? then Failed(NotAnObject) else t
  }

  /** `_resolve_ref`. */
  method ResolveRef(root: Json, ref: string) returns (t: Target)
    ensures t == Resolve(root, ref)
  {
    if |ref| < 2 || ref[0] != '#' || ref[1] != '/' {
      return Failed(Unsupported);
    }
    var parts := Split(ref[2..]);
    var current := root;
    for i := 0 to |parts|
      invariant Walk(root, parts) == Walk(current, parts[i..])
    {
      var next := Descend(current, Unescape(parts[i]));
      assert parts[i..][1..] == parts[i + 1..];
      if next.Failed? {
        return next;
      }
      current := next.value;
    }
    t := if current.Obj? then Found(current) else Failed(NotAnObject);
  }

  // ---------------------------------------------------------------- JSON Pointers written for a path

  datatype Segment = Key(key: string) | Index(index: nat)

  /** The value at a path. */
  function At(current: Json, path: seq<Segment>): Option<Json> {
    if path == [] then Some(current)
    else
      match path[0]
      case Key(k) =>
        if current.Obj? && Get(current.fields, k).Some? then At(Get(current.fields, k).value, path[1..]) else None
      case Index(i) => if current.Arr? && i < |current.items| then At(current.items[i], path[1..]) else None
  }

  function Escape(s: string): string {
    if s == "" then ""
    else (if s[0] == '~' then "~0" else if s[0] == '/' then "~1" else [s[0]]) + Escape(s[1..])
  }

  function Decimal(n: nat): string {
    (if n < 10 then "" else Decimal(n / 10)) + ['0' + (n % 10) as char]
  }

  function Token(s: Segment): string {
    match s
    case Key(k) => Escape(k)
    case Index(i) => Decimal(i)
  }

  /** The tokens of a path, separated by slashes. */
  function Tokens(path: seq<Segment>): string
    requires path != []
  {
    Token(path[0]) + if |path| == 1 then "" else "/" + Tokens(path[1..])
  }

  function Pointer(path: seq<Segment>): string
    requires path != []
  {
    "#/" + Tokens(path)
  }

  /** Only the tilde escaped, as after the first replacement. */
  function EscapeTilde(s: string): string {
    if s == "" then "" else (if s[0] == '~' then "~0" else [s[0]]) + EscapeTilde(s[1..])
  }

  lemma {:induction false} FirstPass(s: string)
    ensures Replace(Escape(s), '~', '1', '/') == EscapeTilde(s)
  {
    if s != "" {
      FirstPass(s[1..]);
      var rest := Escape(s[1..]);
      var e := Escape(s);
      if s[0] == '~' {
        assert e == ['~', '0'] + rest && e[1..] == ['0'] + rest && e[1..][1..] == rest;
      } else if s[0] == '/' {
        assert e[2..] == rest;
      } else {
        assert e[1..] == rest;
      }
    }
  }

  lemma {:induction false} SecondPass(s: string)
    ensures Replace(EscapeTilde(s), '~', '0', '~') == s
  {
    if s != "" {
      SecondPass(s[1..]);
      var rest := EscapeTilde(s[1..]);
      var e := EscapeTilde(s);
      if s[0] == '~' {
        assert e[2..] == rest;
      } else {
        assert e[1..] == rest;
      }
    }
  }

  lemma UnescapeEscape(s: string)
    ensures Unescape(Escape(s)) == s
  {
    FirstPass(s);
    SecondPass(s);
  }

  lemma {:induction false} DecimalDigits(n: nat)
    ensures AllDigits(Decimal(n)) && ToInt(Decimal(n)) == n
  {
    if n >= 10 { DecimalDigits(n / 10); }
    var d, last := Decimal(n), '0' + (n % 10) as char;
    assert d[..|d| - 1] == if n < 10 then "" else Decimal(n / 10);
    assert d[|d| - 1] == last;
  }

  lemma {:induction false} DigitsUnescaped(s: string, a: char, b: char, c: char)
    requires (forall i :: 0 <= i < |s| ==> IsDigit(s[i])) && !IsDigit(a)
    ensures Replace(s, a, b, c) == s
  {
    if |s| >= 2 { DigitsUnescaped(s[1..], a, b, c); }
  }

  /** The unescaped part names the segment. */
  predicate Names(part: string, s: Segment) {
    match s
    case Key(k) => part == k
    case Index(i) => AllDigits(part) && ToInt(part) == i
  }

  lemma TokenUnescapes(s: Segment)
    ensures Names(Unescape(Token(s)), s)
  {
    match s
    case Key(k) => UnescapeEscape(k);
    case Index(i) =>
      DecimalDigits(i);
      DigitsUnescaped(Decimal(i), '~', '1', '/');
      DigitsUnescaped(Decimal(i), '~', '0', '~');
  }

  lemma {:induction false} EscapeNoSlash(s: string)
    ensures NoSlash(Escape(s))
  {
    if s != "" { EscapeNoSlash(s[1..]); }
  }

  lemma TokenNoSlash(s: Segment)
    ensures NoSlash(Token(s))
  {
    match s
    case Key(k) => EscapeNoSlash(k);
    case Index(i) => DecimalDigits(i);
  }

  lemma DescendNamed(current: Json, path: seq<Segment>, part: string)
    requires path != [] && At(current, path).Some? && Names(part, path[0])
    ensures Descend(current, part).Found? && At(current, path) == At(Descend(current, part).value, path[1..])
  {
  }

  lemma SplitTokens(path: seq<Segment>)
    requires path != []
    ensures Split(Tokens(path)) == [Token(path[0])] + if |path| == 1 then [] else Split(Tokens(path[1..]))
  {
    var s := Token(path[0]);
    TokenNoSlash(path[0]);
    if |path| == 1 {
      assert s + "" == s;
      SplitToken(s, "");
    } else {
      SplitToken(s, Tokens(path[1..]));
    }
  }

  lemma WalkStep(current: Json, s: string, parts: seq<string>)
    requires Descend(current, Unescape(s)).Found?
    ensures Walk(current, [s] + parts) == Walk(Descend(current, Unescape(s)).value, parts)
  {
    assert ([s] + parts)[1..] == parts;
  }

  /** Following the JSON Pointer written for a path reaches the value at that path. */
  lemma {:induction false} WalkTokens(current: Json, path: seq<Segment>)
    requires path != [] && At(current, path).Some?
    ensures Walk(current, Split(Tokens(path))) == Found(At(current, path).value)
  {
    var s := Token(path[0]);
    TokenUnescapes(path[0]);
    DescendNamed(current, path, Unescape(s));
    SplitTokens(path);
    var next := Descend(current, Unescape(s)).value;
    if |path| == 1 {
      WalkStep(current, s, []);
    } else {
      WalkStep(current, s, Split(Tokens(path[1..])));
      WalkTokens(next, path[1..]);
    }
  }

  lemma ResolvePointer(root: Json, path: seq<Segment>)
    requires path != [] && At(root, path).Some?
    ensures Resolve(root, Pointer(path)) == if At(root, path).value.Obj? then Found(At(root, path).value)
            else Failed(NotAnObject)
  {
    WalkTokens(root, path);
    assert Pointer(path)[2..] == Tokens(path);
  }
}
