/** Whether some set of tags other than `ignore` satisfies a Go build constraint. */
module BuildConstraint {
  import opened Counting

  datatype Expr = Tag(name: string) | Not(x: Expr) | And(x: Expr, y: Expr) | Or(x: Expr, y: Expr)

  const IGNORE: string := "ignore"

  const MAX_TAGS: nat := 16

  function Eval(e: Expr, holds: string -> bool): bool {
    match e
    case Tag(name) => holds(name)
    case Not(x) => !Eval(x, holds)
    case And(x, y) => Eval(x, holds) && Eval(y, holds)
    case Or(x, y) => Eval(x, holds) || Eval(y, holds)
  }

  /** The connectives are those of propositional logic. */
  lemma EvalMeans(x: Expr, y: Expr, holds: string -> bool)
    ensures Eval(Not(x), holds) != Eval(x, holds)
    ensures !Eval(And(x, Not(x)), holds) && Eval(Or(x, Not(x)), holds)
    ensures Eval(Not(And(x, y)), holds) == Eval(Or(Not(x), Not(y)), holds)
    ensures Eval(And(x, y), holds) ==> Eval(x, holds) && Eval(Or(x, y), holds)
  {
  }

  function TagsOf(e: Expr): set<string> {
    match e
    case Tag(name) => {name}
    case Not(x) => TagsOf(x)
    case And(x, y) => TagsOf(x) + TagsOf(y)
    case Or(x, y) => TagsOf(x) + TagsOf(y)
  }

  /** Some assignment with `ignore` false satisfies e. */
  ghost predicate Holds(e: Expr) {
    exists holds: string -> bool :: !holds(IGNORE) && Eval(e, holds)
  }

  /** The tags met so far, and those of them that are enumerated. */
  class Collector {
    var seen: set<string>
    var tags: seq<string>

    ghost predicate Valid()
      reads this
    {
      Distinct(tags) && IGNORE !in tags && seen == {IGNORE} + set t | t in tags
    }

    constructor ()
      ensures Valid() && tags == []
    {
      seen, tags := {IGNORE}, [];
    }

    /** `collect`. */
    method Collect(e: Expr)
      requires Valid()
      modifies this
      ensures Valid() && old(tags) <= tags
      ensures seen == old(seen) + TagsOf(e)
    {
      match e {
        case Tag(name) =>
          if name !in seen {
            seen := seen + {name};
            tags := tags + [name];
          }
        case Not(x) => Collect(x);
        case And(x, y) =>
          Collect(x);
          Collect(y);
        case Or(x, y) =>
          Collect(x);
          Collect(y);
      }
    }
  }

  // ---------------------------------------------------------------- bit masks

  /** `set & (1 << i) != 0` */
  predicate Bit(mask: nat, i: nat) {
    (mask / Pow2(i)) % 2 == 1
  }

  /** The assignment a mask stands for: the first tag with this name decides, other tags are false. */
  predicate Assigns(tags: seq<string>, mask: nat, i: nat, name: string)
    decreases |tags| - i
  {
    i < |tags| && (if tags[i] == name then Bit(mask, i) else Assigns(tags, mask, i + 1, name))
  }

  /** The mask of the tags from i on that hold, as if they started at bit 0. */
  function MaskFrom(tags: seq<string>, holds: string -> bool, i: nat): (r: nat)
    requires i <= |tags|
    ensures r < Pow2(|tags| - i)
    decreases |tags| - i
  {
    if i == |tags| then 0 else (if holds(tags[i]) then 1 else 0) + 2 * MaskFrom(tags, holds, i + 1)
  }

  lemma {:induction false} BitShift(mask: nat, i: nat, low: nat)
    requires low < 2
    ensures Bit(low + 2 * mask, i) == if i == 0 then low == 1 else Bit(mask, i - 1)
  {
    if i > 0 {
      DivideTwice(low + 2 * mask, Pow2(i - 1));
      assert (low + 2 * mask) / 2 == mask;
    }
  }

  lemma DivideTwice(a: nat, b: nat)
    requires b > 0
    ensures a / (2 * b) == (a / 2) / b
  {
    var q, r := a / 2, a % 2;
    var p, s := q / b, q % b;
    assert a == 2 * (b * p + s) + r;
    assert a == (2 * b) * p + (2 * s + r) by { assert 2 * (b * p) == (2 * b) * p; }
    assert 2 * s + r < 2 * b;
    Quotient(a, 2 * b, p, 2 * s + r);
  }

  lemma Quotient(a: nat, d: nat, q: nat, r: nat)
    requires d > 0 && a == d * q + r && r < d
    ensures a / d == q
  {
    var k := a / d;
    assert a == d * k + a % d;
    assert k < q ==> d * (k + 1) <= d * q;
    assert q < k ==> d * (q + 1) <= d * k;
  }

  /** Bit j of the mask from i on says whether tag i + j holds. */
  lemma {:induction false} MaskBits(tags: seq<string>, holds: string -> bool, i: nat, j: nat)
    requires i + j < |tags|
    ensures Bit(MaskFrom(tags, holds, i), j) == holds(tags[i + j])
    decreases j
  {
    BitShift(MaskFrom(tags, holds, i + 1), j, if holds(tags[i]) then 1 else 0);
    if j > 0 { MaskBits(tags, holds, i + 1, j - 1); }
  }

  lemma {:induction false} AssignsBit(tags: seq<string>, mask: nat, i: nat, k: nat)
    requires Distinct(tags) && i <= k < |tags|
    ensures Assigns(tags, mask, i, tags[k]) == Bit(mask, k)
    decreases k - i
  {
    if i < k { AssignsBit(tags, mask, i + 1, k); }
  }

  lemma {:induction false} AssignsOthers(tags: seq<string>, mask: nat, i: nat, name: string)
    requires name !in tags
    ensures !Assigns(tags, mask, i, name)
    decreases |tags| - i
  {
    if i < |tags| { AssignsOthers(tags, mask, i + 1, name); }
  }

  /** Evaluation depends only on the tags of the constraint. */
  lemma {:induction false} EvalAgrees(e: Expr, a: string -> bool, b: string -> bool)
    requires forall t :: t in TagsOf(e) ==> a(t) == b(t)
    ensures Eval(e, a) == Eval(e, b)
  {
    match e
    case Tag(_) =>
    case Not(x) => EvalAgrees(x, a, b);
    case And(x, y) =>
      EvalAgrees(x, a, b);
      EvalAgrees(y, a, b);
    case Or(x, y) =>
      EvalAgrees(x, a, b);
      EvalAgrees(y, a, b);
  }

  /** Evaluation under the assignment of a mask. */
  predicate EvalMask(e: Expr, tags: seq<string>, mask: nat) {
    Eval(e, name => Assigns(tags, mask, 0, name))
  }

  /** Every assignment that leaves `ignore` false is reached by some mask. */
  lemma MaskReaches(e: Expr, tags: seq<string>, holds: string -> bool)
    requires Distinct(tags) && TagsOf(e) <= {IGNORE} + (set t | t in tags) && IGNORE !in tags && !holds(IGNORE)
    ensures MaskFrom(tags, holds, 0) < Pow2(|tags|)
    ensures EvalMask(e, tags, MaskFrom(tags, holds, 0)) == Eval(e, holds)
  {
    var mask := MaskFrom(tags, holds, 0);
    var chosen := name => Assigns(tags, mask, 0, name);
    forall t | t in TagsOf(e) ensures chosen(t) == holds(t) {
      if t == IGNORE {
        AssignsOthers(tags, mask, 0, t);
      } else {
        var k :| 0 <= k < |tags| && tags[k] == t;
        AssignsBit(tags, mask, 0, k);
        MaskBits(tags, holds, 0, k);
      }
    }
    EvalAgrees(e, chosen, holds);
  }

  /** Every mask is such an assignment. */
  lemma MaskHolds(e: Expr, tags: seq<string>, mask: nat)
    requires IGNORE !in tags && EvalMask(e, tags, mask)
    ensures Holds(e)
  {
    var chosen := name => Assigns(tags, mask, 0, name);
    AssignsOthers(tags, mask, 0, IGNORE);
    assert !chosen(IGNORE) && Eval(e, chosen);
  }

  method SearchMasks(e: Expr, tags: seq<string>) returns (r: bool)
    requires Distinct(tags) && TagsOf(e) <= {IGNORE} + (set t | t in tags) && IGNORE !in tags
    ensures r <==> Holds(e)
  {
    for mask := 0 to Pow2(|tags|)
      invariant forall m: nat :: m < mask ==> !EvalMask(e, tags, m)
    {
      if EvalMask(e, tags, mask) {
        MaskHolds(e, tags, mask);
        return true;
      }
    }
    forall holds: string -> bool | !holds(IGNORE) ensures !Eval(e, holds) {
      MaskReaches(e, tags, holds);
    }
    r := false;
  }

  /** `satisfiable`: exact up to sixteen tags, and true beyond. */
  method Satisfiable(e: Expr) returns (r: bool)
    ensures |TagsOf(e) - {IGNORE}| <= MAX_TAGS ==> (r <==> Holds(e))
    ensures |TagsOf(e) - {IGNORE}| > MAX_TAGS ==> r
  {
    var collector := new Collector();
    collector.Collect(e);
    var tags := collector.tags;
    assert (set t | t in tags) == TagsOf(e) - {IGNORE};
    DistinctSize(tags, set t | t in tags);
    if |tags| > MAX_TAGS { return true; }
    r := SearchMasks(e, tags);
  }
}
