/** Compact JSON serialization: concrete for objects and arrays, abstract for scalars and
    key strings, whose bytes come from a `Printer`. */
module Serialization {
  import opened Json

  newtype byte = x: int | 0 <= x < 256

  type Bytes = seq<byte>

  const LEFT_BRACE: byte := 123
  const RIGHT_BRACE: byte := 125
  const LEFT_BRACKET: byte := 91
  const RIGHT_BRACKET: byte := 93
  const COMMA: byte := 44
  const COLON: byte := 58

  /** `scalar` prints null, booleans, numbers and strings; `text` prints object keys;
      `printable` is false where the encoder raises, for instance on a lone surrogate. */
  datatype Printer = Printer(scalar: Json -> Bytes, text: string -> Bytes, printable: Json -> bool)

  /** `b",".join(parts)`. */
  function Join(parts: seq<Bytes>): Bytes {
    if parts == [] then []
    else if |parts| == 1 then parts[0]
    else parts[0] + [COMMA] + Join(parts[1..])
  }

  function Encode(p: Printer, v: Json): Bytes {
    match v
    case Arr(items) => [LEFT_BRACKET] + Join(EncodeAll(p, items)) + [RIGHT_BRACKET]
    case Obj(fields) => [LEFT_BRACE] + Join(EncodeFields(p, fields)) + [RIGHT_BRACE]
    case _ => p.scalar(v)
  }

  function EncodeAll(p: Printer, items: seq<Json>): (r: seq<Bytes>)
    ensures |r| == |items|
  {
    if items == [] then [] else [Encode(p, items[0])] + EncodeAll(p, items[1..])
  }

  function EncodeFields(p: Printer, fields: Dict): (r: seq<Bytes>)
    ensures |r| == |fields|
  {
    if fields == [] then [] else [EncodeField(p, fields[0])] + EncodeFields(p, fields[1..])
  }

  function EncodeField(p: Printer, f: Field): Bytes {
    p.text(f.key) + [COLON] + Encode(p, f.value)
  }

  predicate Encodable(p: Printer, v: Json) {
    match v
    case Arr(items) => forall i :: 0 <= i < |items| ==> Encodable(p, items[i])
    case Obj(fields) =>
      forall i :: 0 <= i < |fields| ==> p.printable(Str(fields[i].key)) && Encodable(p, fields[i].value)
    case _ => p.printable(v)
  }

  // ---------------------------------------------------------------- structure of joined lists

  function Total(parts: seq<Bytes>): nat {
    if parts == [] then 0 else |parts[0]| + Total(parts[1..])
  }

  lemma {:induction false} JoinSize(parts: seq<Bytes>)
    ensures |Join(parts)| == Total(parts) + if parts == [] then 0 else |parts| - 1
  {
    if |parts| == 1 {
      assert Total(parts[1..]) == 0;
    } else if parts != [] {
      JoinSize(parts[1..]);
    }
  }

  lemma {:induction false} TotalAppend(a: seq<Bytes>, b: seq<Bytes>)
    ensures Total(a + b) == Total(a) + Total(b)
  {
    if a == [] {
      assert a + b == b;
    } else {
      assert (a + b)[1..] == a[1..] + b;
      TotalAppend(a[1..], b);
    }
  }

  lemma {:induction false} JoinAppend(a: seq<Bytes>, b: seq<Bytes>)
    ensures Join(a + b) == if a == [] then Join(b) else if b == [] then Join(a) else Join(a) + [COMMA] + Join(b)
  {
    if a == [] {
      assert a + b == b;
    } else if b == [] {
      assert a + b == a;
    } else {
      assert (a + b)[1..] == a[1..] + b;
      JoinAppend(a[1..], b);
    }
  }

  lemma {:induction false} EncodeAllAppend(p: Printer, a: seq<Json>, b: seq<Json>)
    ensures EncodeAll(p, a + b) == EncodeAll(p, a) + EncodeAll(p, b)
  {
    if a == [] {
      assert a + b == b;
    } else {
      assert (a + b)[1..] == a[1..] + b;
      EncodeAllAppend(p, a[1..], b);
    }
  }

  lemma EncodeAllSlice(p: Printer, items: seq<Json>, i: nat, j: nat)
    requires i <= j <= |items|
    ensures EncodeAll(p, items[i..j]) == EncodeAll(p, items)[i..j]
  {
    assert items == items[..i] + (items[i..j] + items[j..]);
    EncodeAllAppend(p, items[..i], items[i..j] + items[j..]);
    EncodeAllAppend(p, items[i..j], items[j..]);
  }

  lemma {:induction false} EncodeFieldsAppend(p: Printer, a: Dict, b: Dict)
    ensures EncodeFields(p, a + b) == EncodeFields(p, a) + EncodeFields(p, b)
  {
    if a == [] {
      assert a + b == b;
    } else {
      assert (a + b)[1..] == a[1..] + b;
      EncodeFieldsAppend(p, a[1..], b);
    }
  }
}
