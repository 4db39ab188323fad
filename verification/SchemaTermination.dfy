/** When validation against a schema must end: exactly when no chain of references comes back to a schema without
    descending into the value. */
module SchemaTermination {
  import opened Counting
  import opened Json
  import opened JsonPointer
  import Paths
  import opened SchemaValidator
  import opened Wrappers

  /** The validation of a value against s may go on with t for the same value. */
  ghost predicate Next(env: Env, s: Json, t: Json) { RefersTo(env, s, t) || Applies(env, s, t) }

  ghost predicate Path(env: Env, p: seq<Json>) {
    forall i :: 0 <= i < |p| - 1 ==> Next(env, p[i], p[i + 1])
  }

  /** A chain of schemas for one value that comes back to its start. */
  ghost predicate Cycle(env: Env, p: seq<Json>) {
    |p| >= 2 && Path(env, p) && p[0] == p[|p| - 1]
  }

  ghost predicate Acyclic(env: Env) { forall p :: !Cycle(env, p) }

  /** No chain from s follows more than n references. */
  ghost predicate Settles(env: Env, s: Json, n: nat)
    decreases n, s
  {
    && (forall t :: RefersTo(env, s, t) ==> n > 0 && Settles(env, t, n - 1))
    && (forall sub | Applies(env, s, sub) :: SubSmaller(env, s, sub); Settles(env, sub, n))
  }

  lemma {:induction false} SettlesMore(env: Env, s: Json, n: nat)
    requires Settles(env, s, n)
    ensures Settles(env, s, n + 1)
    decreases n, s
  {
    forall t | RefersTo(env, s, t) ensures Settles(env, t, n) { SettlesMore(env, t, n - 1); }
    forall sub | Applies(env, s, sub) ensures Settles(env, sub, n + 1) {
      SubSmaller(env, s, sub);
      SettlesMore(env, sub, n);
    }
  }

  // ---------------------------------------------------------------- ranks and settling

  /** A rank bounds the references that can be followed. */
  lemma {:induction false} RankSettles(env: Env, s: Json)
    requires Ranked(env)
    ensures Settles(env, s, env.rank(s))
    decreases env.rank(s), s
  {
    forall t | RefersTo(env, s, t) ensures Settles(env, t, env.rank(s) - 1) {
      RankSettles(env, t);
      SettlesUpTo(env, t, env.rank(t), env.rank(s) - 1);
    }
    forall sub | Applies(env, s, sub) ensures Settles(env, sub, env.rank(s)) {
      SubSmaller(env, s, sub);
      RankSettles(env, sub);
      SettlesUpTo(env, sub, env.rank(sub), env.rank(s));
    }
  }

  lemma {:induction false} SettlesUpTo(env: Env, s: Json, m: nat, n: nat)
    requires Settles(env, s, m) && m <= n
    ensures Settles(env, s, n)
    decreases n - m
  {
    if m < n {
      SettlesMore(env, s, m);
      SettlesUpTo(env, s, m + 1, n);
    }
  }

  /** The least number of references at which s settles. */
  ghost function Least(env: Env, s: Json, n: nat): (m: nat)
    requires Settles(env, s, n)
    ensures m <= n && Settles(env, s, m)
    ensures forall k: nat :: Settles(env, s, k) ==> m <= k
  {
    if n == 0 then 0
    else if Settles(env, s, n - 1) then Least(env, s, n - 1)
    else
      assert forall k: nat :: Settles(env, s, k) ==> n <= k by { NotBelow(env, s, n - 1); }
      n
  }

  lemma NotBelow(env: Env, s: Json, n: nat)
    requires !Settles(env, s, n)
    ensures forall k: nat :: Settles(env, s, k) ==> n < k
  {
    forall k: nat | Settles(env, s, k) ensures n < k {
      if k <= n { SettlesUpTo(env, s, k, n); }
    }
  }

  ghost predicate SettlesSome(env: Env, s: Json) { exists n: nat :: Settles(env, s, n) }

  ghost predicate AllSettle(env: Env) { forall s :: SettlesSome(env, s) }

  ghost function LeastRank(env: Env, s: Json): nat
    requires AllSettle(env)
  {
    assert SettlesSome(env, s);
    var n: nat :| Settles(env, s, n);
    Least(env, s, n)
  }

  lemma LeastRankIs(env: Env, s: Json)
    requires AllSettle(env)
    ensures Settles(env, s, LeastRank(env, s))
    ensures forall k: nat :: Settles(env, s, k) ==> LeastRank(env, s) <= k
  {
    assert SettlesSome(env, s);
  }

  lemma LeastRankFalls(env: Env, s: Json, t: Json)
    requires AllSettle(env) && Next(env, s, t)
    ensures LeastRank(env, t) <= LeastRank(env, s) && (RefersTo(env, s, t) ==> LeastRank(env, t) < LeastRank(env, s))
  {
    LeastRankIs(env, s);
    LeastRankIs(env, t);
    if Applies(env, s, t) { SubSmaller(env, s, t); }
  }

  /** Where every schema settles there is a rank. */
  lemma SettlingRanks(env: Env) returns (rank: Json -> nat)
    requires AllSettle(env) && Ordered(env)
    ensures Ranked(env.(rank := rank))
  {
    rank := s => LeastRank(env, s);
    var ranked := env.(rank := rank);
    forall s, sub | Applies(ranked, s, sub) ensures rank(sub) <= rank(s) { LeastRankFalls(env, s, sub); }
    forall s, t | RefersTo(ranked, s, t) ensures rank(t) < rank(s) { LeastRankFalls(env, s, t); }
  }

  // ---------------------------------------------------------------- settling and cycles

  /** Along a chain the references left, or else the schema, get smaller. */
  lemma {:induction false} ChainFalls(env: Env, p: seq<Json>)
    requires Ranked(env) && Path(env, p) && |p| >= 2
    ensures var s, t := p[0], p[|p| - 1];
            env.rank(t) < env.rank(s) || (env.rank(t) == env.rank(s) && t < s)
  {
    var q := p[..|p| - 1];
    if Applies(env, p[|p| - 2], p[|p| - 1]) { SubSmaller(env, p[|p| - 2], p[|p| - 1]); }
    if |q| >= 2 { ChainFalls(env, q); }
  }

  lemma RankedAcyclic(env: Env)
    requires Ranked(env)
    ensures Acyclic(env)
  {
    forall p ensures !Cycle(env, p) {
      if Cycle(env, p) { ChainFalls(env, p); }
    }
  }

  /** The schema document's own values. */
  ghost function Inside(v: Json): set<Json>
    decreases v, 1, 0
  {
    {v} + InsideFirst(v, ChildCount(v))
  }

  ghost function InsideFirst(v: Json, k: nat): set<Json>
    requires k <= ChildCount(v)
    decreases v, 0, k
  {
    if k == 0 then {} else InsideFirst(v, k - 1) + Inside(Child(v, k - 1))
  }

  lemma {:induction false} ChildInside(v: Json, k: nat, i: nat)
    requires i < k <= ChildCount(v)
    ensures Inside(Child(v, i)) <= InsideFirst(v, k)
    decreases k
  {
    if i < k - 1 { ChildInside(v, k - 1, i); }
  }

  lemma {:induction false} WalkInside(v: Json, parts: seq<string>)
    requires Walk(v, parts).Found?
    ensures Walk(v, parts).value in Inside(v)
    decreases |parts|
  {
    if parts != [] {
      var next := Descend(v, Unescape(parts[0]));
      var i := DescendChild(v, Unescape(parts[0]));
      ChildInside(v, ChildCount(v), i);
      WalkInside(next.value, parts[1..]);
    }
  }

  lemma DescendChild(v: Json, part: string) returns (i: nat)
    requires Descend(v, part).Found?
    ensures i < ChildCount(v) && Descend(v, part).value == Child(v, i)
  {
    if v.Obj? {
      i := Find(v.fields, part);
    } else {
      i :| 0 <= i < |v.items| && v.items[i] == Descend(v, part).value;
    }
  }

  lemma ReferredInside(env: Env, s: Json, t: Json)
    requires RefersTo(env, s, t)
    ensures t in Inside(env.root)
  {
    WalkInside(env.root, Paths.Split(Get(s.fields, "$ref").value.text[2..]));
  }

  /** Positions on a chain, in order, that hold values of the schema document. */
  ghost predicate Marks(env: Env, p: seq<Json>, at: seq<nat>) {
    && (forall k :: 0 <= k < |at| ==> 1 <= at[k] < |p| && p[at[k]] in Inside(env.root))
    && (forall k, l :: 0 <= k < l < |at| ==> at[k] < at[l])
  }

  lemma Prepend(env: Env, s: Json, p: seq<Json>, at: seq<nat>, marked: bool) returns (q: seq<Json>, to: seq<nat>)
    requires p != [] && Path(env, p) && Next(env, s, p[0]) && Marks(env, p, at) && (marked ==> p[0] in Inside(env.root))
    ensures q == [s] + p && Path(env, q) && Marks(env, q, to) && |to| == |at| + if marked then 1 else 0
  {
    q := [s] + p;
    var moved := seq(|at|, k requires 0 <= k < |at| => at[k] + 1);
    to := if marked then [1] + moved else moved;
    forall i | 0 <= i < |q| - 1 ensures Next(env, q[i], q[i + 1]) {
      if i > 0 { assert Next(env, p[i - 1], p[i]); }
    }
  }

  /** A schema that does not settle within n references starts a chain that follows more than n. */
  lemma {:induction false} LongChain(env: Env, s: Json, n: nat) returns (p: seq<Json>, at: seq<nat>)
    requires !Settles(env, s, n)
    ensures p != [] && p[0] == s && Path(env, p) && Marks(env, p, at) && |at| == n + 1
    decreases n, s
  {
    if t :| RefersTo(env, s, t) && (n == 0 || !Settles(env, t, n - 1)) {
      ReferredInside(env, s, t);
      if n == 0 {
        p, at := Prepend(env, s, [t], [], true);
      } else {
        p, at := LongChain(env, t, n - 1);
        p, at := Prepend(env, s, p, at, true);
      }
    } else {
      var sub :| Applies(env, s, sub) && !Settles(env, sub, n);
      SubSmaller(env, s, sub);
      p, at := LongChain(env, sub, n);
      p, at := Prepend(env, s, p, at, false);
    }
  }

  /** More marks than the document has values: two of them are the same value. */
  lemma Repeats(env: Env, p: seq<Json>, at: seq<nat>) returns (i: nat, j: nat)
    requires Marks(env, p, at) && |at| > |Inside(env.root)|
    ensures i < j < |at| && p[at[i]] == p[at[j]]
  {
    var values := seq(|at|, k requires 0 <= k < |at| => p[at[k]]);
    var elems := set x | x in values;
    SubsetSize(elems, Inside(env.root));
    if Distinct(values) { DistinctSize(values, elems); }
    i, j :| 0 <= i < j < |values| && values[i] == values[j];
  }

  lemma CutCycle(env: Env, p: seq<Json>, a: nat, b: nat)
    requires Path(env, p) && a < b < |p| && p[a] == p[b]
    ensures Cycle(env, p[a..b + 1])
  {
    var q := p[a..b + 1];
    forall i | 0 <= i < |q| - 1 ensures Next(env, q[i], q[i + 1]) {
      assert q[i] == p[a + i] && q[i + 1] == p[a + i + 1];
    }
  }

  lemma AcyclicSettles(env: Env, s: Json)
    requires Acyclic(env)
    ensures Settles(env, s, |Inside(env.root)|)
  {
    var n := |Inside(env.root)|;
    if !Settles(env, s, n) {
      var p, at := LongChain(env, s, n);
      var i, j := Repeats(env, p, at);
      CutCycle(env, p, at[i], at[j]);
      assert false;
    }
  }

  // ---------------------------------------------------------------- a schema that never settles

  /** A schema, anywhere in the document, that refers to its own place is a cycle, and no bound settles it. */
  lemma SelfReference(env: Env, path: seq<Segment>, s: Json)
    requires Ordered(env) && path != [] && At(env.root, path) == Some(s)
    requires s == Obj([Field("$ref", Str(Pointer(path)))])
    ensures Cycle(env, [s, s]) && forall n: nat :: !Settles(env, s, n)
  {
    assert Get(s.fields, "$ref") == Some(Str(Pointer(path)));
    ResolvePointer(env.root, path);
    FirstUnsupportedIs(env.order, s.fields);
    assert RefersTo(env, s, s);
    forall n: nat ensures !Settles(env, s, n) { NeverSettles(env, s, n); }
  }

  lemma {:induction false} NeverSettles(env: Env, s: Json, n: nat)
    requires RefersTo(env, s, s)
    ensures !Settles(env, s, n)
  {
    if n > 0 { NeverSettles(env, s, n - 1); }
  }

  // ---------------------------------------------------------------- the exact condition

  /** Validation has a rank exactly when no chain of references and subschemas comes back to a schema for the same
      value; and then no chain follows more references than the schema document has values. */
  lemma RankedExactly(env: Env)
    requires Ordered(env)
    ensures (exists rank: Json -> nat :: Ranked(env.(rank := rank))) <==> Acyclic(env)
    ensures Acyclic(env) ==> forall s :: Settles(env, s, |Inside(env.root)|)
  {
    if Acyclic(env) {
      forall s ensures Settles(env, s, |Inside(env.root)|) { AcyclicSettles(env, s); }
      forall s ensures SettlesSome(env, s) { assert Settles(env, s, |Inside(env.root)|); }
      var rank := SettlingRanks(env);
    }
    if rank: Json -> nat :| Ranked(env.(rank := rank)) {
      RankedAcyclic(env.(rank := rank));
      SameChains(env, rank);
    }
  }

  lemma SameChains(env: Env, rank: Json -> nat)
    ensures Acyclic(env) <==> Acyclic(env.(rank := rank))
  {
    var other := env.(rank := rank);
    forall s, t ensures Next(env, s, t) <==> Next(other, s, t) {}
    forall p ensures Cycle(env, p) <==> Cycle(other, p) {
      SamePath(env, other, p);
    }
  }

  lemma SamePath(env: Env, other: Env, p: seq<Json>)
    requires forall s, t :: Next(env, s, t) <==> Next(other, s, t)
    ensures Path(env, p) <==> Path(other, p)
  {
  }
}
