/** JSON values as the uploader sees them: objects are Python dictionaries, that is,
    insertion-ordered fields with distinct keys. */
module Json {
  import opened Wrappers

  /** `integral` tells a JSON integer literal from a float literal of the same value. */
  datatype Num = Num(value: real, integral: bool)

  datatype Json =
    | Null
    | Bool(b: bool)
    | Number(num: Num)
    | Str(text: string)
    | Arr(items: seq<Json>)
    | Obj(fields: seq<Field>)

  datatype Field = Field(key: string, value: Json)

  type Dict = seq<Field>

  ghost predicate DistinctKeys(d: Dict) {
    forall i, j :: 0 <= i < j < |d| ==> d[i].key != d[j].key
  }

  predicate Has(d: Dict, k: string) {
    exists i :: 0 <= i < |d| && d[i].key == k
  }

  /** The position of key k, or |d|. */
  function Find(d: Dict, k: string): (i: nat)
    ensures i <= |d|
    ensures i < |d| ==> d[i].key == k
    ensures forall j :: 0 <= j < i ==> d[j].key != k
    ensures i < |d| <==> Has(d, k)
  {
    if d == [] then 0
    else if d[0].key == k then 0
    else
      var i := Find(d[1..], k);
      assert forall j :: 0 <= j < i + 1 ==> d[j].key != k by {
        assert forall j :: 1 <= j < i + 1 ==> d[j] == d[1..][j - 1];
      }
      assert i < |d| - 1 ==> d[i + 1] == d[1..][i];
      i + 1
  }

  /** `d.get(k)`. */
  function Get(d: Dict, k: string): Option<Json> {
    var i := Find(d, k);
    if i < |d| then Some(d[i].value) else None
  }

  /** `d[k] = v`: in place when k is present, appended otherwise. */
  function Put(d: Dict, k: string, v: Json): (r: Dict)
    ensures |r| == |d| + if Has(d, k) then 0 else 1
    ensures Find(d, k) < |r| && r[Find(d, k)] == Field(k, v)
    ensures forall i :: 0 <= i < |d| && i != Find(d, k) ==> r[i] == d[i]
  {
    var i := Find(d, k);
    if i < |d| then d[i := Field(k, v)] else d + [Field(k, v)]
  }

  lemma FindAt(d: Dict, i: nat)
    requires DistinctKeys(d) && i < |d|
    ensures Find(d, d[i].key) == i
  {
  }

  lemma PutDistinct(d: Dict, k: string, v: Json)
    requires DistinctKeys(d)
    ensures DistinctKeys(Put(d, k, v))
  {
  }

  lemma FindIs(d: Dict, k: string, i: nat)
    requires i < |d| && d[i].key == k && forall j :: 0 <= j < i ==> d[j].key != k
    ensures Find(d, k) == i
  {
  }

  lemma PutRead(d: Dict, k: string, v: Json)
    ensures Get(Put(d, k, v), k) == Some(v)
    ensures forall w :: Put(Put(d, k, v), k, w) == Put(d, k, w)
  {
    FindIs(Put(d, k, v), k, Find(d, k));
  }

  lemma PutOther(d: Dict, k: string, v: Json, q: string)
    requires q != k
    ensures Get(Put(d, k, v), q) == Get(d, q)
  {
    var e, i := Put(d, k, v), Find(d, q);
    assert forall j :: 0 <= j < |d| ==> e[j].key == d[j].key;
    if i < |d| {
      FindIs(e, q, i);
    } else {
      assert forall j :: 0 <= j < |e| ==> e[j].key != q;
    }
  }

  lemma PutGet(d: Dict, k: string, v: Json, q: string)
    requires DistinctKeys(d)
    ensures Get(Put(d, k, v), q) == if q == k then Some(v) else Get(d, q)
    ensures Has(Put(d, k, v), q) <==> q == k || Has(d, q)
  {
    var r := Put(d, k, v);
    PutDistinct(d, k, v);
    FindAt(r, Find(d, k));
    var i := Find(d, q);
    if q != k {
      assert forall j :: 0 <= j < |d| ==> r[j].key == d[j].key;
      if i < |d| {
        FindAt(r, i);
      } else {
        assert forall j :: 0 <= j < |r| ==> r[j].key != q;
      }
    }
  }

  function Keys(d: Dict): (r: seq<string>)
    ensures |r| == |d|
  {
    seq(|d|, i requires 0 <= i < |d| => d[i].key)
  }

  /** Two dictionaries with the same key order and the same lookups are equal. */
  lemma SameDict(d: Dict, e: Dict)
    requires DistinctKeys(d) && DistinctKeys(e) && Keys(d) == Keys(e)
    requires forall k :: Has(d, k) ==> Get(d, k) == Get(e, k)
    ensures d == e
  {
    forall i | 0 <= i < |d| ensures d[i] == e[i] {
      assert Keys(d)[i] == Keys(e)[i];
      assert Has(d, d[i].key);
      FindAt(d, i);
      FindAt(e, i);
    }
  }
}
