/** The payload schema validator: a declarative satisfaction relation, the errors of an unbudgeted
    run, and the budgeted validator that appends to an error list. */
module SchemaValidator {
  import opened Json
  import opened JsonPointer
  import opened Wrappers

  /** `search` tells whether a regex matches a key; `order` is the iteration order of the keyword set;
      `rank` bounds how many references can be followed without descending into the value. */
  datatype Env = Env(
    root: Json,
    equal: (Json, Json) -> bool,
    validRegex: string -> bool,
    search: (string, string) -> bool,
    strict: bool,
    order: seq<string>,
    rank: Json -> nat)

  datatype Problem =
    | UnsupportedKeyword(keyword: string)
    | BadReference(error: RefError)
    | NoAnyOf
    | WrongType
    | ConstMismatch
    | NotInEnum
    | BelowMinimum
    | AboveMaximum
    | MissingRequired(key: string)
    | InvalidRegex(pattern: string)
    | AdditionalProperty(key: string)
    | AdditionalItem

  datatype Error = Error(path: seq<Segment>, problem: Problem)

  type Errors = seq<Error>

  const UNSUPPORTED: set<string> :=
    {"oneOf", "not", "dependencies", "dependentRequired", "format", "uniqueItems", "contains"}

  // ---------------------------------------------------------------- reading a schema object

  function Items(d: Dict, k: string): seq<Json> {
    if Get(d, k).Some? && Get(d, k).value.Arr? then Get(d, k).value.items else []
  }

  function Fields(d: Dict, k: string): Dict {
    if Get(d, k).Some? && Get(d, k).value.Obj? then Get(d, k).value.fields else []
  }

  function Referred(env: Env, d: Dict): JsonPointer.Target {
    if Get(d, "$ref").Some? && Get(d, "$ref").value.Str? then Resolve(env.root, Get(d, "$ref").value.text)
    else Failed(Unsupported)
  }

  function FirstUnsupported(order: seq<string>, d: Dict): Option<string> {
    if order == [] then None else if Has(d, order[0]) then Some(order[0]) else FirstUnsupported(order[1..], d)
  }

  function FirstInvalid(env: Env, patterns: Dict): Option<string> {
    if patterns == [] then None
    else if !env.validRegex(patterns[0].key) then Some(patterns[0].key)
    else FirstInvalid(env, patterns[1..])
  }

  predicate IsType(v: Json, name: string) {
    match name
    case "object" => v.Obj?
    case "array" => v.Arr?
    case "string" => v.Str?
    case "integer" => v.Number? && v.num.integral
    case "number" => v.Number?
    case "boolean" => v.Bool?
    case "null" => v.Null?
    case _ => false
  }

  predicate TypeOk(v: Json, d: Dict) {
    match Get(d, "type")
    case None => true
    case Some(Arr(names)) => exists i :: 0 <= i < |names| && names[i].Str? && IsType(v, names[i].text)
    case Some(Str(name)) => IsType(v, name)
    case _ => false
  }

  predicate ConstOk(env: Env, v: Json, d: Dict) {
    Get(d, "const").Some? ==> env.equal(v, Get(d, "const").value)
  }

  predicate EnumOk(env: Env, v: Json, d: Dict) {
    Get(d, "enum").Some? ==> exists i :: 0 <= i < |Items(d, "enum")| && env.equal(v, Items(d, "enum")[i])
  }

  predicate MinimumOk(v: Json, d: Dict) {
    v.Number? && Get(d, "minimum").Some? && Get(d, "minimum").value.Number? ==>
      v.num.value >= Get(d, "minimum").value.num.value
  }

  predicate MaximumOk(v: Json, d: Dict) {
    v.Number? && Get(d, "maximum").Some? && Get(d, "maximum").value.Number? ==>
      v.num.value <= Get(d, "maximum").value.num.value
  }

  /** The schemas that apply to the property `key`, in order; None stands for a forbidden one. */
  function PropertySchemas(env: Env, d: Dict, key: string): seq<Option<Json>> {
    var named := if Has(Fields(d, "properties"), key) then [Get(Fields(d, "properties"), key)] else [];
    var matched := named + Matching(env, Fields(d, "patternProperties"), key);
    if matched != [] then matched
    else Additional(Get(d, "additionalProperties"))
  }

  function Matching(env: Env, patterns: Dict, key: string): seq<Option<Json>> {
    if patterns == [] then []
    else
      (if env.search(patterns[0].key, key) then [Some(patterns[0].value)] else []) + Matching(env, patterns[1..], key)
  }

  function Additional(v: Option<Json>): seq<Option<Json>> {
    match v
    case Some(Bool(b)) => if b then [] else [None]
    case Some(Obj(_)) => [v]
    case _ => []
  }

  /** The schemas that apply to the item at `index`. */
  function ItemSchemas(d: Dict, index: nat): seq<Option<Json>> {
    match Get(d, "items")
    case Some(Obj(_)) => [Get(d, "items")]
    case Some(Arr(schemas)) =>
      if index < |schemas| then [Some(schemas[index])] else Additional(Get(d, "additionalItems"))
    case _ => []
  }

  // ---------------------------------------------------------------- termination

  /** The schema is looked into: it is an object without a keyword that ends its validation. */
  predicate Evaluated(env: Env, s: Json) {
    s.Obj? && !(env.strict && FirstUnsupported(env.order, s.fields).Some?)
  }

  /** Its own keywords apply: beside a `$ref` the source ignores them. */
  predicate Composes(env: Env, s: Json) { Evaluated(env, s) && !Has(s.fields, "$ref") }

  /** Subschemas of s that apply to the same value as s. */
  ghost predicate Applies(env: Env, s: Json, sub: Json) {
    && Composes(env, s)
    && (|| sub in Items(s.fields, "allOf") || sub in Items(s.fields, "anyOf")
        || (Has(s.fields, "if") &&
            (Get(s.fields, "if") == Some(sub) || Get(s.fields, "then") == Some(sub) ||
              Get(s.fields, "else") == Some(sub))))
  }

  /** The validation of s goes on with the schema t it refers to. */
  ghost predicate RefersTo(env: Env, s: Json, t: Json) {
    Evaluated(env, s) && Has(s.fields, "$ref") && Referred(env, s.fields) == JsonPointer.Found(t)
  }

  ghost predicate Ordered(env: Env) {
    forall k :: k in env.order <==> k in UNSUPPORTED
  }

  /** No chain of references comes back to a schema without descending into the value; without this the
      source recurses until Python stops it. */
  ghost predicate Ranked(env: Env) {
    && Ordered(env)
    && (forall s, sub :: Applies(env, s, sub) ==> env.rank(sub) <= env.rank(s))
    && (forall s, t :: RefersTo(env, s, t) ==> env.rank(t) < env.rank(s))
  }

  lemma SubSmaller(env: Env, s: Json, sub: Json)
    requires Applies(env, s, sub)
    ensures sub < s
  {
    GetSmaller(s, "allOf");
    GetSmaller(s, "anyOf");
    GetSmaller(s, "if");
    GetSmaller(s, "then");
    GetSmaller(s, "else");
  }

  lemma GetSmaller(s: Json, k: string)
    requires s.Obj?
    ensures Get(s.fields, k).Some? ==> Get(s.fields, k).value < s
    ensures forall sub :: sub in Items(s.fields, k) ==> sub < s
  {
    var i := Find(s.fields, k);
    if i < |s.fields| {
      assert s.fields[i].value < s;
      if s.fields[i].value.Arr? {
        forall sub | sub in s.fields[i].value.items ensures sub < s {
          assert sub < s.fields[i].value;
        }
      }
    }
  }

  lemma AllSmaller(env: Env, s: Json, k: string)
    requires Ranked(env) && Composes(env, s) && (k == "allOf" || k == "anyOf")
    ensures forall i :: 0 <= i < |Items(s.fields, k)| ==>
            env.rank(Items(s.fields, k)[i]) <= env.rank(s) && Items(s.fields, k)[i] < s
  {
    forall i | 0 <= i < |Items(s.fields, k)|
      ensures env.rank(Items(s.fields, k)[i]) <= env.rank(s) && Items(s.fields, k)[i] < s {
      SubSmaller(env, s, Items(s.fields, k)[i]);
    }
  }

  lemma GetApplies(env: Env, s: Json, k: string)
    requires Ranked(env) && Composes(env, s) && Has(s.fields, "if") && (k == "if" || k == "then" || k == "else")
    ensures Get(s.fields, k).Some? ==> env.rank(Get(s.fields, k).value) <= env.rank(s) && Get(s.fields, k).value < s
  {
    if Get(s.fields, k).Some? { SubSmaller(env, s, Get(s.fields, k).value); }
  }

  // ---------------------------------------------------------------- the value's children

  function ChildCount(v: Json): nat {
    match v
    case Obj(fields) => |fields|
    case Arr(items) => |items|
    case _ => 0
  }

  function Child(v: Json, i: nat): (c: Json)
    requires i < ChildCount(v)
    ensures c < v
  {
    match v
    case Obj(fields) => fields[i].value
    case Arr(items) => items[i]
  }

  function ChildPath(v: Json, i: nat, path: seq<Segment>): seq<Segment>
    requires i < ChildCount(v)
  {
    path + [if v.Obj? then Key(v.fields[i].key) else Index(i)]
  }

  function ChildSchemas(env: Env, d: Dict, v: Json, i: nat): seq<Option<Json>>
    requires i < ChildCount(v)
  {
    if v.Obj? then PropertySchemas(env, d, v.fields[i].key) else ItemSchemas(d, i)
  }

  function ForbiddenChild(v: Json, i: nat, path: seq<Segment>): Error
    requires i < ChildCount(v)
  {
    if v.Obj? then Error(path, AdditionalProperty(v.fields[i].key)) else Error(path + [Index(i)], AdditionalItem)
  }

  // ---------------------------------------------------------------- satisfaction

  predicate RequiredOk(v: Json, d: Dict) {
    v.Obj? ==> forall i :: 0 <= i < |Items(d, "required")| ==>
      Items(d, "required")[i].Str? && Has(v.fields, Items(d, "required")[i].text)
  }

  predicate RegexesOk(env: Env, v: Json, d: Dict) {
    v.Obj? ==> forall i :: 0 <= i < |Fields(d, "patternProperties")| ==>
      env.validRegex(Fields(d, "patternProperties")[i].key)
  }

  predicate Rejected(env: Env, d: Dict) {
    env.strict && exists k :: k in UNSUPPORTED && Has(d, k)
  }

  predicate OwnOk(env: Env, v: Json, d: Dict) {
    TypeOk(v, d) && ConstOk(env, v, d) && EnumOk(env, v, d) && MinimumOk(v, d) && MaximumOk(v, d) &&
      RequiredOk(v, d) && RegexesOk(env, v, d)
  }

  /** The value satisfies the schema. */
  ghost predicate Sat(env: Env, v: Json, s: Json)
    requires Ranked(env)
    decreases v, env.rank(s), s, 1, 0
  {
    if !s.Obj? then true
    else
      RejectedIs(env, s.fields);
      && !Rejected(env, s.fields)
      && if Has(s.fields, "$ref") then
           var t := Referred(env, s.fields);
           t.Found? && assert RefersTo(env, s, t.value); Sat(env, v, t.value)
         else SatComposed(env, v, s)
  }

  ghost predicate SatComposed(env: Env, v: Json, s: Json)
    requires Ranked(env) && Composes(env, s)
    decreases v, env.rank(s), s, 0, 3
  {
    && SatAllOf(env, v, s, |Items(s.fields, "allOf")|)
    && (Has(s.fields, "anyOf") ==> SatAnyOf(env, v, s))
    && SatCondition(env, v, s)
    && OwnOk(env, v, s.fields)
    && SatChildren(env, v, s, ChildCount(v))
  }

  ghost predicate SatAllOf(env: Env, v: Json, s: Json, k: nat)
    requires Ranked(env) && Composes(env, s) && k <= |Items(s.fields, "allOf")|
    decreases v, env.rank(s), s, 0, 2
  {
    AllSmaller(env, s, "allOf");
    forall i :: 0 <= i < k ==> Sat(env, v, Items(s.fields, "allOf")[i])
  }

  ghost predicate SatAnyOf(env: Env, v: Json, s: Json)
    requires Ranked(env) && Composes(env, s)
    decreases v, env.rank(s), s, 0, 2
  {
    AllSmaller(env, s, "anyOf");
    exists i :: 0 <= i < |Items(s.fields, "anyOf")| && Sat(env, v, Items(s.fields, "anyOf")[i])
  }

  ghost predicate SatCondition(env: Env, v: Json, s: Json)
    requires Ranked(env) && Composes(env, s)
    decreases v, env.rank(s), s, 0, 2
  {
    if !Has(s.fields, "if") then true
    else
      GetApplies(env, s, "if");
      GetApplies(env, s, "then");
      GetApplies(env, s, "else");
      if Sat(env, v, Get(s.fields, "if").value)
      then Has(s.fields, "then") ==> Sat(env, v, Get(s.fields, "then").value)
      else Has(s.fields, "else") ==> Sat(env, v, Get(s.fields, "else").value)
  }

  /** The first k children satisfy every schema that applies to them. */
  ghost predicate SatChildren(env: Env, v: Json, s: Json, k: nat)
    requires Ranked(env) && Composes(env, s) && k <= ChildCount(v)
    decreases v, env.rank(s), s, 0, 2
  {
    forall i: nat :: i < k ==> SatChild(env, v, s, i, ChildSchemas(env, s.fields, v, i))
  }

  ghost predicate SatChild(env: Env, v: Json, s: Json, i: nat, xs: seq<Option<Json>>)
    requires Ranked(env) && i < ChildCount(v)
    decreases v, env.rank(s), s, 0, 1
  {
    forall j :: 0 <= j < |xs| ==> xs[j].Some? && Sat(env, Child(v, i), xs[j].value)
  }

  // ---------------------------------------------------------------- what the keywords say of the children

  /** Neither `properties` nor a pattern of `patternProperties` speaks of the key. */
  ghost predicate Unmatched(env: Env, d: Dict, key: string) {
    !Has(Fields(d, "properties"), key) && forall p :: p in Fields(d, "patternProperties") ==> !env.search(p.key, key)
  }

  /** `additional` (a keyword's value) forbids the child or gives its schema. */
  predicate Extra(additional: Option<Json>, x: Option<Json>) {
    || (x.None? && additional == Some(Bool(false)))
    || (x.Some? && x.value.Obj? && additional == x)
  }

  lemma ExtraIs(additional: Option<Json>, x: Option<Json>)
    ensures x in Additional(additional) <==> Extra(additional, x)
  {
  }

  lemma {:induction false} MatchingAre(env: Env, patterns: Dict, key: string, x: Option<Json>)
    ensures x in Matching(env, patterns, key) <==>
            exists p :: p in patterns && env.search(p.key, key) && x == Some(p.value)
  {
    if patterns != [] {
      MatchingAre(env, patterns[1..], key, x);
      assert patterns == [patterns[0]] + patterns[1..];
    }
  }

  lemma {:induction false} MatchingEmpty(env: Env, patterns: Dict, key: string)
    ensures Matching(env, patterns, key) == [] <==> forall p :: p in patterns ==> !env.search(p.key, key)
  {
    if patterns != [] {
      MatchingEmpty(env, patterns[1..], key);
      assert patterns == [patterns[0]] + patterns[1..];
    }
  }

  /** A property answers to its own schema and to that of every matching pattern; only a property that neither
      speaks of answers to `additionalProperties`. */
  lemma PropertySchemasAre(env: Env, d: Dict, key: string, x: Option<Json>)
    ensures x in PropertySchemas(env, d, key) <==>
            || (Has(Fields(d, "properties"), key) && x == Get(Fields(d, "properties"), key))
            || (exists p :: p in Fields(d, "patternProperties") && env.search(p.key, key) && x == Some(p.value))
            || (Unmatched(env, d, key) && Extra(Get(d, "additionalProperties"), x))
  {
    MatchingAre(env, Fields(d, "patternProperties"), key, x);
    MatchingEmpty(env, Fields(d, "patternProperties"), key);
    ExtraIs(Get(d, "additionalProperties"), x);
  }

  /** An item answers to the one schema of `items`, or to the schema at its position; only behind the last position
      to `additionalItems`. */
  lemma ItemSchemasAre(d: Dict, index: nat, x: Option<Json>)
    ensures var items := Get(d, "items");
            x in ItemSchemas(d, index) <==>
            && items.Some?
            && (|| (items.value.Obj? && x == items)
                || (items.value.Arr? && index < |items.value.items| && x == Some(items.value.items[index]))
                || (items.value.Arr? && index >= |items.value.items| && Extra(Get(d, "additionalItems"), x)))
  {
    ExtraIs(Get(d, "additionalItems"), x);
  }

  /** Each keyword that speaks of the value itself, or of its keys. */
  lemma KeywordsMean(env: Env, v: Json, d: Dict)
    ensures TypeOk(v, d) <==>
            || Get(d, "type") == None || (exists name :: Get(d, "type") == Some(Str(name)) && IsType(v, name))
            || (exists names: seq<Json> :: Get(d, "type") == Some(Arr(names)) && exists x ::
                 x in names && x.Str? && IsType(v, x.text))
    ensures ConstOk(env, v, d) <==> Get(d, "const") == None || env.equal(v, Get(d, "const").value)
    ensures EnumOk(env, v, d) <==> Get(d, "enum") == None || exists x :: x in Items(d, "enum") && env.equal(v, x)
    ensures !MinimumOk(v, d) <==>
            exists n, m :: v == Number(n) && Get(d, "minimum") == Some(Number(m)) && n.value < m.value
    ensures !MaximumOk(v, d) <==>
            exists n, m :: v == Number(n) && Get(d, "maximum") == Some(Number(m)) && n.value > m.value
    ensures !RequiredOk(v, d) <==>
            v.Obj? && exists x :: x in Items(d, "required") && (!x.Str? || !Has(v.fields, x.text))
    ensures !RegexesOk(env, v, d) <==>
            v.Obj? && exists p :: p in Fields(d, "patternProperties") && !env.validRegex(p.key)
  {
  }

  /** In strict mode exactly these keywords end the validation. */
  lemma RejectedMeans(env: Env, d: Dict)
    ensures Rejected(env, d) <==>
            env.strict && (Has(d, "oneOf") || Has(d, "not") || Has(d, "dependencies") || Has(d, "dependentRequired") ||
                           Has(d, "format") || Has(d, "uniqueItems") || Has(d, "contains"))
  {
  }

  /** Every JSON value has one of the six type names; `integer` is the seventh, for integral numbers, and no other
      name means anything. */
  lemma TypeNames(v: Json, name: string)
    ensures IsType(v, name) <==>
            || (name == "null" && v == Null) || (name == "boolean" && exists b :: v == Bool(b))
            || (name == "string" && exists t :: v == Str(t)) || (name == "number" && exists n :: v == Number(n))
            || (name == "integer" && exists r: real :: v == Number(Num(r, true)))
            || (name == "array" && exists items :: v == Arr(items)) ||
                 (name == "object" && exists fields :: v == Obj(fields))
  {
  }

  // ---------------------------------------------------------------- the errors of an unbudgeted run

  function Errs(env: Env, v: Json, s: Json, path: seq<Segment>): Errors
    requires Ranked(env)
    decreases v, env.rank(s), s, 4, 0
  {
    if !s.Obj? then []
    else if env.strict && FirstUnsupported(env.order, s.fields).Some? then
      [Error(path, UnsupportedKeyword(FirstUnsupported(env.order, s.fields).value))]
    else if Has(s.fields, "$ref") then
      var t := Referred(env, s.fields);
      if t.Failed? then [Error(path, BadReference(t.error))]
      else
        assert RefersTo(env, s, t.value);
        Errs(env, v, t.value, path)
    else ComposedErrs(env, v, s, path)
  }

  function ComposedErrs(env: Env, v: Json, s: Json, path: seq<Segment>): Errors
    requires Ranked(env) && Composes(env, s)
    decreases v, env.rank(s), s, 3, |Items(s.fields, "allOf")| + 5
  {
    AllOfErrs(env, v, s, |Items(s.fields, "allOf")|, path) + AfterAllOf(env, v, s, path)
  }

  function AfterAllOf(env: Env, v: Json, s: Json, path: seq<Segment>): Errors
    requires Ranked(env) && Composes(env, s)
    decreases v, env.rank(s), s, 3, 4
  {
    if Has(s.fields, "anyOf") && !AnyOf(env, v, s, path) then [Error(path, NoAnyOf)]
    else ConditionErrs(env, v, s, path) + OwnErrs(env, v, s, path)
  }

  function AllOfErrs(env: Env, v: Json, s: Json, k: nat, path: seq<Segment>): Errors
    requires Ranked(env) && Composes(env, s) && k <= |Items(s.fields, "allOf")|
    decreases v, env.rank(s), s, 3, k
  {
    if k == 0 then []
    else
      AllSmaller(env, s, "allOf");
      AllOfErrs(env, v, s, k - 1, path) + Errs(env, v, Items(s.fields, "allOf")[k - 1], path)
  }

  predicate AnyOf(env: Env, v: Json, s: Json, path: seq<Segment>)
    requires Ranked(env) && Composes(env, s)
    decreases v, env.rank(s), s, 3, 0
  {
    AllSmaller(env, s, "anyOf");
    exists i :: 0 <= i < |Items(s.fields, "anyOf")| && Errs(env, v, Items(s.fields, "anyOf")[i], path) == []
  }

  function ConditionErrs(env: Env, v: Json, s: Json, path: seq<Segment>): Errors
    requires Ranked(env) && Composes(env, s)
    decreases v, env.rank(s), s, 3, 0
  {
    if !Has(s.fields, "if") then []
    else
      GetApplies(env, s, "if");
      GetApplies(env, s, "then");
      GetApplies(env, s, "else");
      var branch := Get(s.fields, if Errs(env, v, Get(s.fields, "if").value, path) == [] then "then" else "else");
      if branch.Some? then Errs(env, v, branch.value, path) else []
  }

  function OwnErrs(env: Env, v: Json, s: Json, path: seq<Segment>): Errors
    requires Ranked(env) && Composes(env, s)
    decreases v, env.rank(s), s, 3, 2
  {
    if ScalarProblem(env, v, s.fields).Some? then [Error(path, ScalarProblem(env, v, s.fields).value)]
    else RangeErrs(v, s.fields, path) + ContainerErrs(env, v, s, path)
  }

  /** The first of the checks that end the validation of this value. */
  function ScalarProblem(env: Env, v: Json, d: Dict): Option<Problem> {
    if !TypeOk(v, d) then Some(WrongType)
    else if !ConstOk(env, v, d) then Some(ConstMismatch)
    else if !EnumOk(env, v, d) then Some(NotInEnum)
    else None
  }

  function RangeErrs(v: Json, d: Dict, path: seq<Segment>): Errors {
    (if MinimumOk(v, d) then [] else [Error(path, BelowMinimum)]) +
      (if MaximumOk(v, d) then [] else [Error(path, AboveMaximum)])
  }

  function ContainerErrs(env: Env, v: Json, s: Json, path: seq<Segment>): Errors
    requires Ranked(env) && Composes(env, s)
    decreases v, env.rank(s), s, 3, 1
  {
    RequiredErrs(v, s.fields, path) + AfterRequired(env, v, s, path)
  }

  function AfterRequired(env: Env, v: Json, s: Json, path: seq<Segment>): Errors
    requires Ranked(env) && Composes(env, s)
    decreases v, env.rank(s), s, 3, 0
  {
    if BadRegex(env, v, s.fields).Some? then [Error(path, InvalidRegex(BadRegex(env, v, s.fields).value))]
    else ChildrenErrs(env, v, s, ChildCount(v), path)
  }

  function RequiredErrs(v: Json, d: Dict, path: seq<Segment>): Errors {
    if v.Obj? then MissingErrs(Items(d, "required"), v.fields, path) else []
  }

  function BadRegex(env: Env, v: Json, d: Dict): Option<string> {
    if v.Obj? then FirstInvalid(env, Fields(d, "patternProperties")) else None
  }

  function MissingErrs(required: seq<Json>, fields: Dict, path: seq<Segment>): Errors {
    if required == [] then []
    else
      var k := required[|required| - 1];
      MissingErrs(required[..|required| - 1], fields, path) +
      if k.Str? && Has(fields, k.text) then [] else [Error(path, MissingRequired(if k.Str? then k.text else ""))]
  }

  function ChildrenErrs(env: Env, v: Json, s: Json, k: nat, path: seq<Segment>): Errors
    requires Ranked(env) && Composes(env, s) && k <= ChildCount(v)
    decreases v, env.rank(s), s, 2, k
  {
    if k == 0 then []
    else
      var i: nat := k - 1;
      ChildrenErrs(env, v, s, i, path) + ChildErrs(env, v, s, i, ChildSchemas(env, s.fields, v, i), path)
  }

  /** The errors of child i against the schemas xs that apply to it. */
  function ChildErrs(env: Env, v: Json, s: Json, i: nat, xs: seq<Option<Json>>, path: seq<Segment>): Errors
    requires Ranked(env) && i < ChildCount(v)
    decreases v, env.rank(s), s, 1, |xs|
  {
    if xs == [] then []
    else
      var x := xs[|xs| - 1];
      ChildErrs(env, v, s, i, xs[..|xs| - 1], path) +
      if x.Some? then Errs(env, Child(v, i), x.value, ChildPath(v, i, path)) else [ForbiddenChild(v, i, path)]
  }

  // ---------------------------------------------------------------- no errors exactly when satisfied

  lemma {:induction false} FirstUnsupportedIs(order: seq<string>, d: Dict)
    ensures FirstUnsupported(order, d).Some? <==> exists k :: k in order && Has(d, k)
    ensures FirstUnsupported(order, d).Some? ==>
            FirstUnsupported(order, d).value in order && Has(d, FirstUnsupported(order, d).value)
  {
    if order != [] {
      FirstUnsupportedIs(order[1..], d);
      assert forall k :: k in order <==> k == order[0] || k in order[1..];
    }
  }

  lemma RejectedIs(env: Env, d: Dict)
    requires Ordered(env)
    ensures Rejected(env, d) <==> env.strict && FirstUnsupported(env.order, d).Some?
  {
    FirstUnsupportedIs(env.order, d);
  }

  lemma {:induction false} FirstInvalidIs(env: Env, patterns: Dict)
    ensures FirstInvalid(env, patterns).None? <==> forall i :: 0 <= i < |patterns| ==> env.validRegex(patterns[i].key)
  {
    if patterns != [] { FirstInvalidIs(env, patterns[1..]); }
  }

  lemma {:induction false} MissingIs(required: seq<Json>, fields: Dict, path: seq<Segment>)
    ensures MissingErrs(required, fields, path) == [] <==>
            forall i :: 0 <= i < |required| ==> required[i].Str? && Has(fields, required[i].text)
  {
    if required != [] { MissingIs(required[..|required| - 1], fields, path); }
  }

  /** A run without budget reports nothing exactly for the values that satisfy the schema. */
  lemma {:induction false} ErrsSat(env: Env, v: Json, s: Json, path: seq<Segment>)
    requires Ranked(env)
    ensures Errs(env, v, s, path) == [] <==> Sat(env, v, s)
    decreases v, env.rank(s), s, 5, 0
  {
    if s.Obj? {
      RejectedIs(env, s.fields);
      if !Rejected(env, s.fields) {
        if Has(s.fields, "$ref") {
          var t := Referred(env, s.fields);
          if t.Found? {
            assert RefersTo(env, s, t.value);
            ErrsSat(env, v, t.value, path);
          }
        } else {
          ComposedSat(env, v, s, path);
        }
      }
    }
  }

  lemma {:induction false} ComposedSat(env: Env, v: Json, s: Json, path: seq<Segment>)
    requires Ranked(env) && Composes(env, s)
    ensures ComposedErrs(env, v, s, path) == [] <==> SatComposed(env, v, s)
    decreases v, env.rank(s), s, 4, 0
  {
    AllOfSat(env, v, s, |Items(s.fields, "allOf")|, path);
    AnyOfSat(env, v, s, path);
    ConditionSat(env, v, s, path);
    OwnSat(env, v, s, path);
  }

  lemma {:induction false} AllOfSat(env: Env, v: Json, s: Json, k: nat, path: seq<Segment>)
    requires Ranked(env) && Composes(env, s) && k <= |Items(s.fields, "allOf")|
    ensures AllOfErrs(env, v, s, k, path) == [] <==> SatAllOf(env, v, s, k)
    decreases v, env.rank(s), s, 3, k
  {
    if k > 0 {
      AllSmaller(env, s, "allOf");
      AllOfSat(env, v, s, k - 1, path);
      ErrsSat(env, v, Items(s.fields, "allOf")[k - 1], path);
      SatAllOfStep(env, v, s, k - 1);
      AllOfErrsStep(env, v, s, k - 1, path);
    }
  }

  lemma SatAllOfStep(env: Env, v: Json, s: Json, i: nat)
    requires Ranked(env) && Composes(env, s) && i < |Items(s.fields, "allOf")|
    ensures SatAllOf(env, v, s, i + 1) <==> SatAllOf(env, v, s, i) && Sat(env, v, Items(s.fields, "allOf")[i])
  {
  }

  lemma AllOfErrsStep(env: Env, v: Json, s: Json, i: nat, path: seq<Segment>)
    requires Ranked(env) && Composes(env, s) && i < |Items(s.fields, "allOf")|
    ensures AllOfErrs(env, v, s, i + 1, path) ==
            AllOfErrs(env, v, s, i, path) + Errs(env, v, Items(s.fields, "allOf")[i], path)
  {
  }

  lemma {:induction false} AnyOfSat(env: Env, v: Json, s: Json, path: seq<Segment>)
    requires Ranked(env) && Composes(env, s)
    ensures AnyOf(env, v, s, path) <==> SatAnyOf(env, v, s)
    decreases v, env.rank(s), s, 3, 0
  {
    AllSmaller(env, s, "anyOf");
    forall i | 0 <= i < |Items(s.fields, "anyOf")|
      ensures Errs(env, v, Items(s.fields, "anyOf")[i], path) == [] <==> Sat(env, v, Items(s.fields, "anyOf")[i])
    {
      ErrsSat(env, v, Items(s.fields, "anyOf")[i], path);
    }
  }

  lemma {:induction false} ConditionSat(env: Env, v: Json, s: Json, path: seq<Segment>)
    requires Ranked(env) && Composes(env, s)
    ensures ConditionErrs(env, v, s, path) == [] <==> SatCondition(env, v, s)
    decreases v, env.rank(s), s, 3, 0
  {
    if Has(s.fields, "if") {
      GetApplies(env, s, "if");
      GetApplies(env, s, "then");
      GetApplies(env, s, "else");
      ErrsSat(env, v, Get(s.fields, "if").value, path);
      if Has(s.fields, "then") { ErrsSat(env, v, Get(s.fields, "then").value, path); }
      if Has(s.fields, "else") { ErrsSat(env, v, Get(s.fields, "else").value, path); }
    }
  }

  lemma BadRegexIs(env: Env, v: Json, d: Dict)
    ensures BadRegex(env, v, d).None? <==> RegexesOk(env, v, d)
  {
    FirstInvalidIs(env, Fields(d, "patternProperties"));
  }

  lemma RequiredIs(v: Json, d: Dict, path: seq<Segment>)
    ensures RequiredErrs(v, d, path) == [] <==> RequiredOk(v, d)
  {
    if v.Obj? { MissingIs(Items(d, "required"), v.fields, path); }
  }

  lemma {:induction false} ContainerSat(env: Env, v: Json, s: Json, path: seq<Segment>)
    requires Ranked(env) && Composes(env, s)
    ensures ContainerErrs(env, v, s, path) == [] <==>
            RequiredOk(v, s.fields) && RegexesOk(env, v, s.fields) && SatChildren(env, v, s, ChildCount(v))
    decreases v, env.rank(s), s, 3, 0
  {
    RequiredIs(v, s.fields, path);
    BadRegexIs(env, v, s.fields);
    ChildrenSat(env, v, s, ChildCount(v), path);
  }

  lemma {:induction false} OwnSat(env: Env, v: Json, s: Json, path: seq<Segment>)
    requires Ranked(env) && Composes(env, s)
    ensures OwnErrs(env, v, s, path) == [] <==> OwnOk(env, v, s.fields) && SatChildren(env, v, s, ChildCount(v))
    decreases v, env.rank(s), s, 3, 1
  {
    ContainerSat(env, v, s, path);
  }

  lemma {:induction false} ChildrenSat(env: Env, v: Json, s: Json, k: nat, path: seq<Segment>)
    requires Ranked(env) && Composes(env, s) && k <= ChildCount(v)
    ensures ChildrenErrs(env, v, s, k, path) == [] <==> SatChildren(env, v, s, k)
    decreases v, env.rank(s), s, 2, k
  {
    if k > 0 {
      var i: nat := k - 1;
      ChildrenSat(env, v, s, i, path);
      ChildSat(env, v, s, i, ChildSchemas(env, s.fields, v, i), path);
      NextChild(env, v, s, i, path);
    }
  }

  lemma NextChild(env: Env, v: Json, s: Json, i: nat, path: seq<Segment>)
    requires Ranked(env) && Composes(env, s) && i < ChildCount(v)
    requires ChildrenErrs(env, v, s, i, path) == [] <==> SatChildren(env, v, s, i)
    requires ChildErrs(env, v, s, i, ChildSchemas(env, s.fields, v, i), path) == [] <==>
             SatChild(env, v, s, i, ChildSchemas(env, s.fields, v, i))
    ensures ChildrenErrs(env, v, s, i + 1, path) == [] <==> SatChildren(env, v, s, i + 1)
  {
    SatChildrenStep(env, v, s, i);
    ChildrenErrsStep(env, v, s, i, path);
  }

  lemma ChildrenErrsStep(env: Env, v: Json, s: Json, i: nat, path: seq<Segment>)
    requires Ranked(env) && Composes(env, s) && i < ChildCount(v)
    ensures ChildrenErrs(env, v, s, i + 1, path) ==
            ChildrenErrs(env, v, s, i, path) + ChildErrs(env, v, s, i, ChildSchemas(env, s.fields, v, i), path)
  {
  }

  lemma SatChildrenStep(env: Env, v: Json, s: Json, i: nat)
    requires Ranked(env) && Composes(env, s) && i < ChildCount(v)
    ensures SatChildren(env, v, s, i + 1) <==>
            SatChildren(env, v, s, i) && SatChild(env, v, s, i, ChildSchemas(env, s.fields, v, i))
  {
  }

  lemma SatChildStep(env: Env, v: Json, s: Json, i: nat, xs: seq<Option<Json>>)
    requires Ranked(env) && i < ChildCount(v) && xs != []
    ensures var x := xs[|xs| - 1];
            SatChild(env, v, s, i, xs) <==>
              SatChild(env, v, s, i, xs[..|xs| - 1]) && x.Some? && Sat(env, Child(v, i), x.value)
  {
    var ys := xs[..|xs| - 1];
    assert forall j :: 0 <= j < |ys| ==> ys[j] == xs[j];
  }

  lemma {:induction false} ChildSat(env: Env, v: Json, s: Json, i: nat, xs: seq<Option<Json>>, path: seq<Segment>)
    requires Ranked(env) && i < ChildCount(v)
    ensures ChildErrs(env, v, s, i, xs, path) == [] <==> SatChild(env, v, s, i, xs)
    decreases v, env.rank(s), s, 1, |xs|
  {
    if xs != [] {
      var x := xs[|xs| - 1];
      ChildSat(env, v, s, i, xs[..|xs| - 1], path);
      SatChildStep(env, v, s, i, xs);
      if x.Some? { ErrsSat(env, Child(v, i), x.value, ChildPath(v, i, path)); }
      assert ChildErrs(env, v, s, i, xs, path) == ChildErrs(env, v, s, i, xs[..|xs| - 1], path) +
        if x.Some? then Errs(env, Child(v, i), x.value, ChildPath(v, i, path)) else [ForbiddenChild(v, i, path)];
    }
  }
}
