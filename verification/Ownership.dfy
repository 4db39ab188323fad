/** The CODEOWNERS lookup that enrichment uses: the owners of the last rule that owns the first owned candidate. */
module Ownership {
  import opened Counting
  import opened Regex
  import opened CodeOwners
  import opened Enrichment
  import opened Json
  import opened Wrappers

  // ---------------------------------------------------------------- owners without repetition

  /** `_dedupe`: the non-empty owners, each where it first stands. */
  function Deduped(owners: seq<string>): seq<string> {
    if owners == [] then []
    else
      var k := |owners| - 1;
      var before := Deduped(owners[..k]);
      if owners[k] == "" || owners[k] in before then before else before + [owners[k]]
  }

  /** Position i of the result is first met at position at[i] of the owners, and these positions increase. */
  ghost predicate FirstMet(owners: seq<string>, r: seq<string>, at: seq<nat>) {
    && |at| == |r|
    && (forall i :: 0 <= i < |r| ==> at[i] < |owners| && owners[at[i]] == r[i] && r[i] !in owners[..at[i]])
    && (forall i, j :: 0 <= i < j < |r| ==> at[i] < at[j])
  }

  lemma {:induction false} DedupedIs(owners: seq<string>) returns (at: seq<nat>)
    ensures Distinct(Deduped(owners)) && FirstMet(owners, Deduped(owners), at)
    ensures forall o :: o in Deduped(owners) <==> o in owners && o != ""
  {
    at := [];
    if owners != [] {
      var k := |owners| - 1;
      var before := Deduped(owners[..k]);
      assert owners == owners[..k] + [owners[k]];
      at := DedupedIs(owners[..k]);
      forall i | 0 <= i < |at| ensures owners[..k][..at[i]] == owners[..at[i]] {}
      if owners[k] != "" && owners[k] !in before { at := at + [k]; }
    }
  }

  // ---------------------------------------------------------------- the lookup

  function LastRule(search: (nat, string) -> bool, n: nat, candidate: string): Option<nat> {
    if n == 0 then None else if search(n - 1, candidate) then Some(n - 1) else LastRule(search, n - 1, candidate)
  }

  function DecidingRule(search: (nat, string) -> bool, n: nat, candidates: seq<string>): Option<nat> {
    if candidates == [] then None
    else if LastRule(search, n, candidates[0]).Some? then LastRule(search, n, candidates[0])
    else DecidingRule(search, n, candidates[1..])
  }

  /** The JSON text of the owners of a source with these candidates. */
  function OwnersText(rules: seq<Rule>, search: (nat, string) -> bool, candidates: seq<string>,
      dump: seq<string> -> string)
    : Option<string>
  {
    var rule := DecidingRule(search, |rules|, candidates);
    if rule.None? || rule.value >= |rules| || Deduped(rules[rule.value].owners) == [] then None
    else Some(dump(Deduped(rules[rule.value].owners)))
  }

  /** Rule k decides: it is the last that owns candidate c, and no rule owns an earlier candidate. */
  ghost predicate Decides(rules: seq<Rule>, candidates: seq<string>, c: nat, k: nat) {
    && c < |candidates| && LastOwner(rules, |rules|, candidates[c], Some(k))
    && forall d :: 0 <= d < c ==> LastOwner(rules, |rules|, candidates[d], None)
  }

  lemma DecidesOnce(rules: seq<Rule>, candidates: seq<string>, c: nat, k: nat, d: nat, l: nat)
    requires Decides(rules, candidates, c, k) && Decides(rules, candidates, d, l)
    ensures c == d && k == l
  {
  }

  lemma {:induction false} LastRuleIs(rules: seq<Rule>, search: (nat, string) -> bool, n: nat, candidate: string)
    requires Searches(rules, search) && n <= |rules| && OneLine(candidate)
    ensures LastOwner(rules, n, candidate, LastRule(search, n, candidate))
  {
    if n > 0 {
      LastRuleIs(rules, search, n - 1, candidate);
      LastOwnerStep(rules, n - 1, candidate, LastRule(search, n - 1, candidate));
      assert search(n - 1, candidate) <==> Owns(rules[n - 1].pattern, candidate);
    }
  }

  lemma LastOwnerStep(rules: seq<Rule>, n: nat, candidate: string, r: Option<nat>)
    requires n < |rules| && LastOwner(rules, n, candidate, r)
    ensures LastOwner(rules, n + 1, candidate, if Owns(rules[n].pattern, candidate) then Some(n) else r)
  {
  }

  lemma {:induction false} DecidingRuleIs(rules: seq<Rule>, search: (nat, string) -> bool, candidates: seq<string>)
    requires Searches(rules, search) && forall c :: c in candidates ==> OneLine(c)
    ensures var r := DecidingRule(search, |rules|, candidates);
            && (r.Some? ==> exists c: nat :: Decides(rules, candidates, c, r.value))
            && (r.None? ==> forall c :: 0 <= c < |candidates| ==> LastOwner(rules, |rules|, candidates[c], None))
  {
    if candidates != [] {
      var r, rest := DecidingRule(search, |rules|, candidates), candidates[1..];
      LastRuleIs(rules, search, |rules|, candidates[0]);
      if LastRule(search, |rules|, candidates[0]).Some? {
        assert Decides(rules, candidates, 0, r.value);
      } else {
        assert candidates == [candidates[0]] + rest;
        DecidingRuleIs(rules, search, rest);
        if r.Some? {
          var c: nat :| Decides(rules, rest, c, r.value);
          assert Decides(rules, candidates, c + 1, r.value);
        }
      }
    }
  }

  /** `match_source(path).json_value`, by the search loops. */
  method LookUp(rules: seq<Rule>, search: (nat, string) -> bool, candidates: seq<string>, dump: seq<string> -> string)
    returns (r: Option<string>)
    requires Searches(rules, search) && forall c :: c in candidates ==> OneLine(c)
    ensures r == OwnersText(rules, search, candidates, dump)
  {
    var matched, candidate := MatchSource(rules, search, candidates);
    DecidingRuleIs(rules, search, candidates);
    if matched.None? { return None; }
    assert Decides(rules, candidates, candidate, matched.value);
    var owners := Dedupe(rules[matched.value].owners);
    r := if owners == [] then None else Some(dump(owners));
  }

  method Dedupe(owners: seq<string>) returns (r: seq<string>)
    ensures r == Deduped(owners)
  {
    r := [];
    for i := 0 to |owners|
      invariant r == Deduped(owners[..i])
    {
      assert owners[..i + 1][..i] == owners[..i];
      if owners[i] != "" && owners[i] !in r { r := r + [owners[i]]; }
    }
    assert owners[..|owners|] == owners;
  }

  // ---------------------------------------------------------------- what enrichment writes

  /** The matcher of an invocation: its rules, and the candidate paths of every source path. */
  function MatcherOf(
    rules: seq<Rule>, search: (nat, string) -> bool, candidates: string -> seq<string>,
      dump: seq<string> -> string): Matcher
  {
    Matcher(rules != [], path => OwnersText(rules, search, candidates(path), dump))
  }

  lemma CaseLookup(event: Json, lookup: string -> Option<string>)
    requires event.Obj?
    ensures var c := OwnerCaseOf(event, lookup);
            && (c.Owned? ==> lookup(SourcePath(event.fields)) == Some(c.owners))
            && (c.Unmatched? ==> lookup(SourcePath(event.fields)) == None)
  {
  }

  lemma TextIs(rules: seq<Rule>, search: (nat, string) -> bool, candidates: seq<string>, dump: seq<string> -> string)
    requires Searches(rules, search) && forall x :: x in candidates ==> OneLine(x)
    ensures var r := OwnersText(rules, search, candidates, dump);
            && (r.Some? ==>
                 exists c: nat, k: nat :: Names(rules, candidates, c, k) && r.value == dump(Deduped(rules[k].owners)))
            && (r.None? ==> forall c: nat, k: nat :: !Names(rules, candidates, c, k))
  {
    var k := DecidingRule(search, |rules|, candidates);
    DecidingRuleIs(rules, search, candidates);
    if k.Some? {
      var c: nat :| Decides(rules, candidates, c, k.value);
      forall d: nat, l: nat | Names(rules, candidates, d, l) ensures l == k.value {
        DecidesOnce(rules, candidates, c, k.value, d, l);
      }
      assert Deduped(rules[k.value].owners) != [] ==> Names(rules, candidates, c, k.value);
    }
  }

  /** Rule k decides, and names owners. */
  ghost predicate Names(rules: seq<Rule>, candidates: seq<string>, c: nat, k: nat) {
    Decides(rules, candidates, c, k) && Deduped(rules[k].owners) != []
  }

  /** An event that is given owners is given those of the rule that decides for its source path, and an event
      counted as unmatched has no deciding rule that names owners. */
  lemma OwnersWritten(rules: seq<Rule>, search: (nat, string) -> bool, candidates: string -> seq<string>,
                      dump: seq<string> -> string, event: Json)
    requires event.Obj? && Searches(rules, search)
    requires forall x :: x in candidates(SourcePath(event.fields)) ==> OneLine(x)
    ensures var found := OwnerCaseOf(event, MatcherOf(rules, search, candidates, dump).lookup);
            var paths := candidates(SourcePath(event.fields));
            && (found.Owned? ==> exists c: nat, k: nat ::
                  Names(rules, paths, c, k) && found.owners == dump(Deduped(rules[k].owners)))
            && (found.Unmatched? ==> forall c: nat, k: nat :: !Names(rules, paths, c, k))
  {
    CaseLookup(event, MatcherOf(rules, search, candidates, dump).lookup);
    TextIs(rules, search, candidates(SourcePath(event.fields)), dump);
  }
}
