/** What a request body says: compact serialization can be read back in one way only, so equal bodies hold equal
    events and equal other fields. */
module Legibility {
  import opened Json
  import opened Serialization
  import opened Splitting

  predicate Scalar(v: Json) { !v.Arr? && !v.Obj? }

  predicate Structural(b: byte) {
    b == LEFT_BRACE || b == RIGHT_BRACE || b == LEFT_BRACKET || b == RIGHT_BRACKET || b == COMMA || b == COLON
  }

  /** A structural byte after x does not make it the beginning of y. */
  predicate Delimited(x: Bytes, y: Bytes) {
    |x| < |y| && y[..|x|] == x ==> !Structural(y[|x|])
  }

  /** Two images of a printer: not empty, not starting structurally, and told apart by what follows them. */
  predicate Apart(x: Bytes, y: Bytes) {
    x != [] && y != [] && !Structural(x[0]) && !Structural(y[0]) && Delimited(x, y) && Delimited(y, x)
  }

  /** JSON's own scalars and strings: distinct values have distinct images, and no image followed by a structural
      byte begins another. Printers of quoted strings, literals and numbers satisfy this. */
  ghost predicate Legible(p: Printer) {
    && (forall v, w :: Scalar(v) && Scalar(w) && p.printable(v) && p.printable(w) ==>
          Apart(p.scalar(v), p.scalar(w)) && (p.scalar(v) == p.scalar(w) ==> v == w))
    && (forall k, l :: p.printable(Str(k)) && p.printable(Str(l)) ==>
          Apart(p.text(k), p.text(l)) && (p.text(k) == p.text(l) ==> k == l))
  }

  /** What may follow a value: nothing, or a structural byte. */
  predicate Stops(rest: Bytes) { rest == [] || Structural(rest[0]) }

  /** Images that are told apart are cut off a text in one way. */
  lemma CutOff(x: Bytes, r: Bytes, y: Bytes, t: Bytes)
    requires Apart(x, y) && Stops(r) && Stops(t) && x + r == y + t
    ensures x == y && r == t
  {
    var s := x + r;
    assert s[..|x|] == x && s[|x|..] == r;
    assert s[..|y|] == y && s[|y|..] == t;
    if |x| <= |y| { assert y[..|x|] == s[..|y|][..|x|] == x; }
    if |y| <= |x| { assert x[..|y|] == s[..|x|][..|y|] == y; }
  }

  // ---------------------------------------------------------------- lists read from the left

  /** What follows the first element of an array: the others, each after a comma, and the closing bracket. */
  function ItemsTail(p: Printer, items: seq<Json>, rest: Bytes): Bytes {
    if items == [] then [RIGHT_BRACKET] + rest else [COMMA] + (Encode(p, items[0]) + ItemsTail(p, items[1..], rest))
  }

  function FieldsTail(p: Printer, fields: Dict, rest: Bytes): Bytes {
    if fields == [] then [RIGHT_BRACE] + rest else [COMMA] + (FieldText(p, fields[0], FieldsTail(p, fields[1..], rest)))
  }

  function FieldText(p: Printer, f: Field, rest: Bytes): Bytes {
    p.text(f.key) + ([COLON] + (Encode(p, f.value) + rest))
  }

  lemma {:induction false} ItemsText(p: Printer, items: seq<Json>, rest: Bytes)
    requires items != []
    ensures Join(EncodeAll(p, items)) + ([RIGHT_BRACKET] + rest) == Encode(p, items[0]) + ItemsTail(p, items[1..], rest)
  {
    if |items| > 1 {
      ItemsText(p, items[1..], rest);
      Regroup(Encode(p, items[0]), Join(EncodeAll(p, items[1..])), [RIGHT_BRACKET] + rest);
    }
  }

  lemma Regroup(a: Bytes, b: Bytes, c: Bytes)
    ensures a + [COMMA] + b + c == a + ([COMMA] + (b + c))
  {
  }

  lemma {:induction false} FieldsText(p: Printer, fields: Dict, rest: Bytes)
    requires fields != []
    ensures Join(EncodeFields(p, fields)) + ([RIGHT_BRACE] + rest) ==
            FieldText(p, fields[0], FieldsTail(p, fields[1..], rest))
  {
    FieldIs(p, fields[0], FieldsTail(p, fields[1..], rest));
    if |fields| > 1 {
      FieldsText(p, fields[1..], rest);
      Regroup(EncodeField(p, fields[0]), Join(EncodeFields(p, fields[1..])), [RIGHT_BRACE] + rest);
    }
  }

  lemma FieldIs(p: Printer, f: Field, rest: Bytes)
    ensures EncodeField(p, f) + rest == FieldText(p, f, rest)
  {
  }

  /** What follows the opening byte of an array or object. */
  function ArrayBody(p: Printer, items: seq<Json>, rest: Bytes): Bytes {
    if items == [] then [RIGHT_BRACKET] + rest else Encode(p, items[0]) + ItemsTail(p, items[1..], rest)
  }

  function ObjectBody(p: Printer, fields: Dict, rest: Bytes): Bytes {
    if fields == [] then [RIGHT_BRACE] + rest else FieldText(p, fields[0], FieldsTail(p, fields[1..], rest))
  }

  lemma ArrayText(p: Printer, items: seq<Json>, rest: Bytes)
    ensures Encode(p, Arr(items)) + rest == [LEFT_BRACKET] + ArrayBody(p, items, rest)
  {
    var text := Join(EncodeAll(p, items));
    assert Encode(p, Arr(items)) + rest == [LEFT_BRACKET] + (text + ([RIGHT_BRACKET] + rest));
    if items != [] { ItemsText(p, items, rest); }
  }

  lemma ObjectText(p: Printer, fields: Dict, rest: Bytes)
    ensures Encode(p, Obj(fields)) + rest == [LEFT_BRACE] + ObjectBody(p, fields, rest)
  {
    var text := Join(EncodeFields(p, fields));
    assert Encode(p, Obj(fields)) + rest == [LEFT_BRACE] + (text + ([RIGHT_BRACE] + rest));
    if fields != [] { FieldsText(p, fields, rest); }
  }

  // ---------------------------------------------------------------- one way to read

  /** The first byte tells arrays, objects and scalars apart, and never closes or separates. */
  lemma FirstByte(p: Printer, v: Json)
    requires Legible(p) && Encodable(p, v)
    ensures Encode(p, v) != []
    ensures Encode(p, v)[0] == LEFT_BRACKET <==> v.Arr?
    ensures Encode(p, v)[0] == LEFT_BRACE <==> v.Obj?
    ensures Structural(Encode(p, v)[0]) ==> v.Arr? || v.Obj?
  {
    if Scalar(v) { assert Apart(p.scalar(v), p.scalar(v)); }
  }

  lemma SameStart(x: Bytes, r: Bytes, y: Bytes, t: Bytes)
    requires x != [] && y != [] && x + r == y + t
    ensures x[0] == y[0]
  {
    assert (x + r)[0] == x[0] && (y + t)[0] == y[0];
  }

  lemma Uncons(b: byte, x: Bytes, c: byte, y: Bytes)
    requires [b] + x == [c] + y
    ensures b == c && x == y
  {
    assert ([b] + x)[0] == b && ([c] + y)[0] == c;
    assert ([b] + x)[1..] == x && ([c] + y)[1..] == y;
  }

  /** A value and what follows it are read off a text in one way. */
  lemma {:induction false} ReadsOnce(p: Printer, v: Json, r: Bytes, w: Json, t: Bytes)
    requires Legible(p) && Encodable(p, v) && Encodable(p, w) && Stops(r) && Stops(t)
    requires Encode(p, v) + r == Encode(p, w) + t
    ensures v == w && r == t
    decreases v
  {
    FirstByte(p, v);
    FirstByte(p, w);
    SameStart(Encode(p, v), r, Encode(p, w), t);
    if v.Arr? {
      ArrayText(p, v.items, r);
      ArrayText(p, w.items, t);
      Uncons(LEFT_BRACKET, ArrayBody(p, v.items, r), LEFT_BRACKET, ArrayBody(p, w.items, t));
      ArrayOnce(p, v.items, r, w.items, t);
    } else if v.Obj? {
      ObjectText(p, v.fields, r);
      ObjectText(p, w.fields, t);
      Uncons(LEFT_BRACE, ObjectBody(p, v.fields, r), LEFT_BRACE, ObjectBody(p, w.fields, t));
      ObjectOnce(p, v.fields, r, w.fields, t);
    } else {
      CutOff(p.scalar(v), r, p.scalar(w), t);
    }
  }

  ghost predicate AllEncodable(p: Printer, items: seq<Json>) {
    forall i :: 0 <= i < |items| ==> Encodable(p, items[i])
  }

  ghost predicate FieldsEncodable(p: Printer, fields: Dict) {
    forall i :: 0 <= i < |fields| ==> p.printable(Str(fields[i].key)) && Encodable(p, fields[i].value)
  }

  lemma {:induction false} ArrayOnce(p: Printer, a: seq<Json>, r: Bytes, b: seq<Json>, t: Bytes)
    requires Legible(p) && AllEncodable(p, a) && AllEncodable(p, b)
    requires ArrayBody(p, a, r) == ArrayBody(p, b, t)
    ensures a == b && r == t
    decreases a, 1
  {
    EmptyArray(p, a, r);
    EmptyArray(p, b, t);
    if a == [] {
      Uncons(RIGHT_BRACKET, r, RIGHT_BRACKET, t);
    } else {
      ElementOnce(p, a, r, b, t);
    }
  }

  lemma EmptyArray(p: Printer, items: seq<Json>, rest: Bytes)
    requires Legible(p) && AllEncodable(p, items)
    ensures ArrayBody(p, items, rest) != []
    ensures ArrayBody(p, items, rest)[0] == RIGHT_BRACKET <==> items == []
  {
    if items != [] { FirstByte(p, items[0]); }
  }

  lemma {:induction false} ElementOnce(p: Printer, a: seq<Json>, r: Bytes, b: seq<Json>, t: Bytes)
    requires Legible(p) && AllEncodable(p, a) && AllEncodable(p, b) && a != [] && b != []
    requires Encode(p, a[0]) + ItemsTail(p, a[1..], r) == Encode(p, b[0]) + ItemsTail(p, b[1..], t)
    ensures a == b && r == t
    decreases a, 0
  {
    ReadsOnce(p, a[0], ItemsTail(p, a[1..], r), b[0], ItemsTail(p, b[1..], t));
    TailOnce(p, a[1..], r, b[1..], t);
    assert a == [a[0]] + a[1..] && b == [b[0]] + b[1..];
  }

  lemma {:induction false} TailOnce(p: Printer, a: seq<Json>, r: Bytes, b: seq<Json>, t: Bytes)
    requires Legible(p) && AllEncodable(p, a) && AllEncodable(p, b) && ItemsTail(p, a, r) == ItemsTail(p, b, t)
    ensures a == b && r == t
    decreases a, 2
  {
    SameStart(ItemsTail(p, a, r), [], ItemsTail(p, b, t), []);
    if a == [] {
      Uncons(RIGHT_BRACKET, r, RIGHT_BRACKET, t);
    } else {
      Uncons(COMMA, Encode(p, a[0]) + ItemsTail(p, a[1..], r), COMMA, Encode(p, b[0]) + ItemsTail(p, b[1..], t));
      ElementOnce(p, a, r, b, t);
    }
  }

  lemma {:induction false} ObjectOnce(p: Printer, a: Dict, r: Bytes, b: Dict, t: Bytes)
    requires Legible(p) && FieldsEncodable(p, a) && FieldsEncodable(p, b)
    requires ObjectBody(p, a, r) == ObjectBody(p, b, t)
    ensures a == b && r == t
    decreases a, 1
  {
    EmptyObject(p, a, r);
    EmptyObject(p, b, t);
    if a == [] {
      Uncons(RIGHT_BRACE, r, RIGHT_BRACE, t);
    } else {
      MemberOnce(p, a, r, b, t);
    }
  }

  lemma EmptyObject(p: Printer, fields: Dict, rest: Bytes)
    requires Legible(p) && FieldsEncodable(p, fields)
    ensures ObjectBody(p, fields, rest) != []
    ensures ObjectBody(p, fields, rest)[0] == RIGHT_BRACE <==> fields == []
  {
    if fields != [] { assert Apart(p.text(fields[0].key), p.text(fields[0].key)); }
  }

  lemma {:induction false} MemberOnce(p: Printer, a: Dict, r: Bytes, b: Dict, t: Bytes)
    requires Legible(p) && FieldsEncodable(p, a) && FieldsEncodable(p, b) && a != [] && b != []
    requires FieldText(p, a[0], FieldsTail(p, a[1..], r)) == FieldText(p, b[0], FieldsTail(p, b[1..], t))
    ensures a == b && r == t
    decreases a, 0
  {
    var x, y := Encode(p, a[0].value) + FieldsTail(p, a[1..], r), Encode(p, b[0].value) + FieldsTail(p, b[1..], t);
    CutOff(p.text(a[0].key), [COLON] + x, p.text(b[0].key), [COLON] + y);
    Uncons(COLON, x, COLON, y);
    ReadsOnce(p, a[0].value, FieldsTail(p, a[1..], r), b[0].value, FieldsTail(p, b[1..], t));
    MembersOnce(p, a[1..], r, b[1..], t);
    assert a == [a[0]] + a[1..] && b == [b[0]] + b[1..];
  }

  lemma {:induction false} MembersOnce(p: Printer, a: Dict, r: Bytes, b: Dict, t: Bytes)
    requires Legible(p) && FieldsEncodable(p, a) && FieldsEncodable(p, b) && FieldsTail(p, a, r) == FieldsTail(p, b, t)
    ensures a == b && r == t
    decreases a, 2
  {
    SameStart(FieldsTail(p, a, r), [], FieldsTail(p, b, t), []);
    if a == [] {
      Uncons(RIGHT_BRACE, r, RIGHT_BRACE, t);
    } else {
      Uncons(COMMA, FieldText(p, a[0], FieldsTail(p, a[1..], r)), COMMA, FieldText(p, b[0], FieldsTail(p, b[1..], t)));
      MemberOnce(p, a, r, b, t);
    }
  }

  /** Serialization loses nothing: two values with the same text are the same value, key order included. */
  lemma EncodeInjective(p: Printer, v: Json, w: Json)
    requires Legible(p) && Encodable(p, v) && Encodable(p, w) && Encode(p, v) == Encode(p, w)
    ensures v == w
  {
    ReadsOnce(p, v, [], w, []);
  }

  // ---------------------------------------------------------------- request bodies

  /** A chunk's body is the text of one value only: the payload with exactly the chunk's events. */
  lemma BodyReads(p: Printer, payload: Json, c: Chunk, v: Json)
    requires Legible(p) && HasEvents(payload) && Encodable(p, payload) && ExactChunk(p, payload, c)
    requires Encodable(p, v) && Encode(p, v) == c.body
    ensures v == WithEvents(payload, Events(payload)[c.start..c.end])
  {
    SliceEncodable(p, payload, c.start, c.end);
    EncodeInjective(p, v, WithEvents(payload, Events(payload)[c.start..c.end]));
  }

  lemma SliceEncodable(p: Printer, payload: Json, i: nat, j: nat)
    requires HasEvents(payload) && Encodable(p, payload) && i <= j <= |Events(payload)|
    ensures Encodable(p, WithEvents(payload, Events(payload)[i..j]))
  {
    var at := Find(payload.fields, EVENTS);
    assert Encodable(p, payload.fields[at].value);
    assert Encodable(p, Arr(Events(payload)[i..j]));
  }

  /** Equal bodies hold equal events, between equal other fields in the same order. */
  lemma EqualBodies(p: Printer, a: Json, c: Chunk, b: Json, d: Chunk, k: string)
    requires Legible(p) && HasEvents(a) && HasEvents(b) && Encodable(p, a) && Encodable(p, b)
    requires DistinctKeys(a.fields) && DistinctKeys(b.fields)
    requires ExactChunk(p, a, c) && ExactChunk(p, b, d) && c.body == d.body
    ensures Events(a)[c.start..c.end] == Events(b)[d.start..d.end]
    ensures k != EVENTS ==> Get(a.fields, k) == Get(b.fields, k)
    ensures |a.fields| == |b.fields| && forall i :: 0 <= i < |a.fields| ==> a.fields[i].key == b.fields[i].key
  {
    SliceEncodable(p, b, d.start, d.end);
    BodyReads(p, a, c, WithEvents(b, Events(b)[d.start..d.end]));
    var x, y := Arr(Events(a)[c.start..c.end]), Arr(Events(b)[d.start..d.end]);
    PutGet(a.fields, EVENTS, x, EVENTS);
    PutGet(b.fields, EVENTS, y, EVENTS);
    PutGet(a.fields, EVENTS, x, k);
    PutGet(b.fields, EVENTS, y, k);
    SameKeys(a.fields, EVENTS, x);
    SameKeys(b.fields, EVENTS, y);
  }

  lemma SameKeys(d: Dict, k: string, v: Json)
    requires Has(d, k)
    ensures |Put(d, k, v)| == |d| && forall i :: 0 <= i < |d| ==> Put(d, k, v)[i].key == d[i].key
  {
  }
}
