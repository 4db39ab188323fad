/** Rewriting the text between two markers of a configuration file, and the migration of the
    legacy section to its successor. */
module ManagedSection {
  import opened Wrappers

  datatype Result = Ok(text: string) | Malformed

  /** m stands at position p of s. */
  predicate Occurs(s: string, m: string, p: nat) {
    p + |m| <= |s| && s[p..p + |m|] == m
  }

  ghost predicate Absent(s: string, m: string) {
    forall p: nat :: p < |s| ==> !Occurs(s, m, p)
  }

  /** `strings.Index`. */
  function Index(s: string, m: string): (r: Option<nat>)
    requires m != ""
    ensures r.None? ==> Absent(s, m)
    ensures r.Some? ==> Occurs(s, m, r.value) && forall p: nat :: p < r.value ==> !Occurs(s, m, p)
  {
    IndexFrom(s, m, 0)
  }

  function IndexFrom(s: string, m: string, from: nat): (r: Option<nat>)
    requires m != "" && from <= |s|
    ensures r.None? ==> forall p: nat :: from <= p < |s| ==> !Occurs(s, m, p)
    ensures r.Some? ==>
            from <= r.value && Occurs(s, m, r.value) && forall p: nat :: from <= p < r.value ==> !Occurs(s, m, p)
    decreases |s| - from
  {
    if from == |s| then None
    else if Occurs(s, m, from) then Some(from)
    else IndexFrom(s, m, from + 1)
  }

  lemma IndexUnique(s: string, m: string, p: nat)
    requires m != "" && Occurs(s, m, p) && forall q: nat :: q < p ==> !Occurs(s, m, q)
    ensures Index(s, m) == Some(p)
  {
  }

  /** Markers are comment lines: '#' stands first and nowhere else, and they hold no newline. */
  predicate Marker(m: string) {
    m != "" && m[0] == '#' && forall i :: 1 <= i < |m| ==> m[i] != '#' && m[i] != '\n'
  }

  /** A section ready to be written: start marker, content, end marker, optionally a newline. */
  ghost predicate Section(block: string, start: string, end: string) {
    && Marker(start) && Marker(end) && start <= block
    && exists at: nat :: EndsAt(block, start, end, at)
  }

  /** The only end marker of the block starts at `at`. */
  predicate EndsAt(block: string, start: string, end: string, at: nat) {
    && |start| <= at && Occurs(block, end, at) && (forall p: nat :: p < at ==> !Occurs(block, end, p))
    && (block[at + |end|..] == "" || block[at + |end|..] == "\n")
  }

  /** A block as the bootstrap writes it: the start marker, lines without comments, the end marker. */
  lemma BlockIsSection(start: string, body: string, end: string)
    requires Marker(start) && Marker(end) && !(end <= start) && '#' !in body
    ensures Section(start + "\n" + body + end + "\n", start, end)
  {
    var front := start + "\n" + body;
    var block := front + end + "\n";
    assert block == start + "\n" + body + end + "\n";
    assert block[|front|..|front| + |end|] == end && block[|front| + |end|..] == "\n";
    forall p: nat | p < |front| ensures !Occurs(block, end, p) {
      if Occurs(block, end, p) { BlockFront(start, body, end, block, p); }
    }
    assert EndsAt(block, start, end, |front|);
  }

  lemma BlockFront(start: string, body: string, end: string, block: string, p: nat)
    requires Marker(start) && Marker(end) && '#' !in body && block == start + "\n" + body + end + "\n"
    requires p < |start + "\n" + body| && Occurs(block, end, p)
    ensures p == 0 && end <= start
  {
    OccursAt(block, end, p, 0);
    assert block[p] == '#';
    assert p == 0;
    if |end| > |start| { OccursAt(block, end, 0, |start|); }
    assert block[..|start|] == start;
    assert block[0..|end|] == end;
  }

  function EndsWithNewline(s: string): bool { s != "" && s[|s| - 1] == '\n' }

  function StartsWithNewline(s: string): bool { s != "" && s[0] == '\n' }

  // ---------------------------------------------------------------- the operations

  /** Where the text after the section resumes: the block's own newline replaces the one that follows. */
  function After(content: string, e: nat, end: string, block: string): (r: nat)
    requires Occurs(content, end, e)
    ensures e + |end| <= r <= |content|
  {
    var r := e + |end|;
    if EndsWithNewline(block) && StartsWithNewline(content[r..]) then r + 1 else r
  }

  /** `replaceManagedSection`. */
  function Replace(content: string, start: string, end: string, block: string): Result
    requires start != "" && end != ""
  {
    var s, e := Index(content, start), Index(content, end);
    if s.Some? && e.Some? && e.value > s.value
    then Ok(content[..s.value] + block + content[After(content, e.value, end, block)..])
    else if s.Some? || e.Some? then Malformed
    else Ok(content + Gap(content) + block)
  }

  function Gap(content: string): string { if EndsWithNewline(content) then "\n" else "\n\n" }

  /** `removeManagedSectionIfPresent`. */
  function Remove(content: string, start: string, end: string): Result
    requires start != "" && end != ""
  {
    var s, e := Index(content, start), Index(content, end);
    if s.Some? && e.Some? && e.value > s.value then Ok(content[..s.value] + content[e.value + |end|..])
    else if s.Some? || e.Some? then Malformed
    else Ok(content)
  }

  datatype Markers = Markers(start: string, end: string, legacyStart: string, legacyEnd: string)

  /** The section part of `patchModuleFile`. */
  function Patch(content: string, m: Markers, block: string): Result
    requires m.start != "" && m.end != "" && m.legacyStart != "" && m.legacyEnd != ""
  {
    var migrated := Migrate(content, m, block);
    if migrated.Malformed? then Malformed else Replace(migrated.text, m.start, m.end, block)
  }

  /** The new block takes the place of the legacy section, which goes if the new section exists already. */
  function Migrate(content: string, m: Markers, block: string): Result
    requires m.start != "" && m.legacyStart != "" && m.legacyEnd != ""
  {
    if Index(content, m.start).Some? then Remove(content, m.legacyStart, m.legacyEnd)
    else if Index(content, m.legacyStart).Some? || Index(content, m.legacyEnd).Some?
      then Replace(content, m.legacyStart, m.legacyEnd, block)
    else Ok(content)
  }

  // ---------------------------------------------------------------- when a rewriting succeeds

  /** The first occurrence of m starts at p. */
  ghost predicate FirstAt(s: string, m: string, p: nat) {
    Occurs(s, m, p) && forall q: nat :: q < p ==> !Occurs(s, m, q)
  }

  /** The first start marker stands at s, the first end marker behind it at e. */
  ghost predicate Marked(content: string, start: string, end: string, s: nat, e: nat) {
    FirstAt(content, start, s) && FirstAt(content, end, e) && s < e
  }

  ghost predicate Unmarked(content: string, start: string, end: string) {
    Absent(content, start) && Absent(content, end)
  }

  /** Neither marker, or both with the first end marker behind the first start marker. */
  ghost predicate WellMarked(content: string, start: string, end: string) {
    Unmarked(content, start, end) || exists s: nat, e: nat :: Marked(content, start, end, s, e)
  }

  lemma IndexIs(s: string, m: string, p: nat)
    requires m != ""
    ensures Index(s, m) == Some(p) <==> FirstAt(s, m, p)
  {
    if FirstAt(s, m, p) { IndexUnique(s, m, p); }
  }

  lemma AbsentIs(s: string, m: string)
    requires m != ""
    ensures Index(s, m) == None <==> Absent(s, m)
  {
  }

  /** A rewriting succeeds exactly on well-marked text. Unmarked text keeps every character and gets the block
      behind an empty line; of a section nothing but the block remains, and a newline that follows gives way to
      the block's own. */
  lemma ReplaceExactly(content: string, start: string, end: string, block: string, s: nat, e: nat)
    requires start != "" && end != ""
    ensures Replace(content, start, end, block).Ok? <==> WellMarked(content, start, end)
    ensures Unmarked(content, start, end) ==>
            Replace(content, start, end, block) ==
            Ok(content + (if content != "" && content[|content| - 1] == '\n' then "\n" else "\n\n") + block)
    ensures Marked(content, start, end, s, e) ==>
            var rest := content[e + |end|..];
            var shared := block != "" && block[|block| - 1] == '\n' && rest != "" && rest[0] == '\n';
            Replace(content, start, end, block) == Ok(content[..s] + block + if shared then rest[1..] else rest)
  {
    AbsentIs(content, start);
    AbsentIs(content, end);
    IndexIs(content, start, s);
    IndexIs(content, end, e);
    var i, j := Index(content, start), Index(content, end);
    if i.Some? && j.Some? && i.value < j.value { assert Marked(content, start, end, i.value, j.value); }
    if u: nat, v: nat :| Marked(content, start, end, u, v) {
      IndexIs(content, start, u);
      IndexIs(content, end, v);
    }
  }

  lemma RemoveExactly(content: string, start: string, end: string)
    requires start != "" && end != ""
    ensures Remove(content, start, end).Ok? <==> WellMarked(content, start, end)
  {
    ReplaceExactly(content, start, end, "", 0, 0);
  }

  // ---------------------------------------------------------------- a section in its place

  /** Text holding the block where neither marker stands earlier. */
  ghost predicate Placed(r: string, pre: string, block: string, post: string, start: string, end: string) {
    r == pre + block + post && Absent(pre, start) && Absent(pre, end)
  }

  lemma OccursAt(s: string, m: string, p: nat, i: nat)
    requires Occurs(s, m, p) && i < |m|
    ensures s[p + i] == m[i]
  {
    assert s[p..p + |m|][i] == s[p + i];
  }

  /** No marker starts in text that precedes a '#' and reaches beyond it. */
  lemma NoCrossing(pre: string, rest: string, m: string, p: nat)
    requires Marker(m) && rest != "" && rest[0] == '#' && p < |pre| && Occurs(pre + rest, m, p)
    ensures Occurs(pre, m, p)
  {
    if p + |m| > |pre| {
      OccursAt(pre + rest, m, p, |pre| - p);
    } else {
      assert (pre + rest)[p..p + |m|] == pre[p..p + |m|];
    }
  }

  lemma NoneBefore(pre: string, rest: string, m: string)
    requires Marker(m) && rest != "" && rest[0] == '#' && Absent(pre, m)
    ensures forall p: nat :: p < |pre| ==> !Occurs(pre + rest, m, p)
  {
    forall p: nat | p < |pre| ensures !Occurs(pre + rest, m, p) {
      if Occurs(pre + rest, m, p) { NoCrossing(pre, rest, m, p); }
    }
  }

  /** Occurrences inside a part of the text. */
  lemma OccursInside(pre: string, block: string, post: string, m: string, q: nat)
    requires q + |m| <= |block|
    ensures Occurs(pre + (block + post), m, |pre| + q) <==> Occurs(block, m, q)
  {
    var r := pre + (block + post);
    assert r[|pre| + q..|pre| + q + |m|] == block[q..q + |m|];
  }

  lemma PlacedIndex(r: string, pre: string, block: string, post: string, start: string, end: string, at: nat)
    requires Placed(r, pre, block, post, start, end) && Marker(start) && Marker(end) && start <= block
    requires EndsAt(block, start, end, at)
    ensures Index(r, start) == Some(|pre|) && Index(r, end) == Some(|pre| + at)
  {
    var rest := block + post;
    assert r == pre + rest && rest[0] == start[0];
    NoneBefore(pre, rest, start);
    NoneBefore(pre, rest, end);
    OccursInside(pre, block, post, start, 0);
    IndexUnique(r, start, |pre|);
    forall p: nat | |pre| <= p < |pre| + at ensures !Occurs(r, end, p) {
      OccursInside(pre, block, post, end, p - |pre|);
    }
    OccursInside(pre, block, post, end, at);
    IndexUnique(r, end, |pre| + at);
  }

  /** A placed section is rewritten to itself. */
  lemma PlacedFixed(r: string, pre: string, block: string, post: string, start: string, end: string)
    requires Placed(r, pre, block, post, start, end) && Section(block, start, end)
    ensures Replace(r, start, end, block) == Ok(r)
  {
    var at: nat :| EndsAt(block, start, end, at);
    PlacedIndex(r, pre, block, post, start, end, at);
    assert r == pre + (block + post);
    AfterPlaced(pre, block, post, end, at);
    assert r[|pre| + |block|..] == post && r[..|pre|] == pre;
  }

  // ---------------------------------------------------------------- rewriting twice

  lemma OccursPrefix(s: string, tail: string, m: string, p: nat)
    requires p + |m| <= |s|
    ensures Occurs(s + tail, m, p) <==> Occurs(s, m, p)
  {
    assert (s + tail)[p..p + |m|] == s[p..p + |m|];
  }

  lemma PrefixAbsent(content: string, m: string, p: nat)
    requires p <= |content| && forall q: nat :: q < p ==> !Occurs(content, m, q)
    ensures Absent(content[..p], m)
  {
    forall q: nat | q < p ensures !Occurs(content[..p], m, q) {
      if q + |m| <= p {
        OccursPrefix(content[..p], content[p..], m, q);
        assert content[..p] + content[p..] == content;
      }
    }
  }

  lemma GapAbsent(content: string, gap: string, m: string)
    requires Marker(m) && Absent(content, m) && forall i :: 0 <= i < |gap| ==> gap[i] == '\n'
    ensures Absent(content + gap, m)
  {
    var s := content + gap;
    forall p: nat | p < |s| ensures !Occurs(s, m, p) {
      if Occurs(s, m, p) {
        var i := |content| - p;
        if i <= 0 {
          OccursAt(s, m, p, 0);
        } else if i < |m| {
          OccursAt(s, m, p, i);
        } else {
          OccursPrefix(content, gap, m, p);
        }
      }
    }
  }

  /** A successful rewriting puts the block in its place and keeps the text around it. */
  lemma ReplacePlaces(content: string, start: string, end: string, block: string) returns (pre: string, post: string)
    requires Section(block, start, end) && Replace(content, start, end, block).Ok?
    ensures Placed(Replace(content, start, end, block).text, pre, block, post, start, end)
    ensures Outside(content, start, end, pre, post)
  {
    var s, e := Index(content, start), Index(content, end);
    if s.Some? {
      pre, post := content[..s.value], content[After(content, e.value, end, block)..];
      PrefixAbsent(content, start, s.value);
      PrefixAbsent(content, end, s.value);
      OutsideFound(content, start, end, block, s.value, e.value);
    } else {
      pre, post := content + Gap(content), "";
      assert pre + block + post == pre + block;
      GapAbsent(content, Gap(content), start);
      GapAbsent(content, Gap(content), end);
    }
  }

  /** pre and post are the text outside the markers: a section stood between them, or they are all of it plus
      newlines. */
  ghost predicate Outside(content: string, start: string, end: string, pre: string, post: string) {
    || (exists was: string, newline: string :: Between(content, start, end, pre, was, newline, post))
    || (Absent(content, start) && Absent(content, end) && post == "" &&
         (pre == content + "\n" || pre == content + "\n\n"))
  }

  /** A whole section, and the newline it was followed by if the block brings its own. */
  predicate Between(content: string, start: string, end: string, pre: string, was: string, newline: string,
      post: string) {
    && content == pre + was + newline + post
    && start <= was && |end| <= |was| && was[|was| - |end|..] == end && (newline == "" || newline == "\n")
  }

  lemma OutsideFound(content: string, start: string, end: string, block: string, s: nat, e: nat)
    requires Marker(start) && Marker(end) && Occurs(content, start, s) && Occurs(content, end, e) && s < e
    ensures Outside(content, start, end, content[..s], content[After(content, e, end, block)..])
  {
    var f, r := e + |end|, After(content, e, end, block);
    var was, newline := content[s..f], content[f..r];
    OccursAt(content, end, e, 0);
    if e < s + |start| { OccursAt(content, start, s, e - s); }
    assert start <= was by { assert was[..|start|] == content[s..s + |start|]; }
    assert was[|was| - |end|..] == content[e..f];
    assert content[..s] + was == content[..f] && content[..f] + newline == content[..r] &&
      content[..r] + content[r..] == content;
    assert newline == "" || newline == [content[f]];
    assert Between(content, start, end, content[..s], was, newline, content[r..]);
  }

  /** Rewriting a second time with the same block changes nothing. */
  lemma ReplaceIdempotent(content: string, start: string, end: string, block: string)
    requires Section(block, start, end) && Replace(content, start, end, block).Ok?
    ensures var r := Replace(content, start, end, block).text;
            Replace(r, start, end, block) == Ok(r)
  {
    var pre, post := ReplacePlaces(content, start, end, block);
    PlacedFixed(Replace(content, start, end, block).text, pre, block, post, start, end);
  }

  // ---------------------------------------------------------------- migrating the legacy section

  /** The new block holds no legacy marker, and no legacy marker extends the new end marker. */
  ghost predicate Separate(m: Markers, block: string) {
    && Section(block, m.start, m.end) && Marker(m.legacyStart) && Marker(m.legacyEnd)
    && Absent(block, m.legacyStart) && Absent(block, m.legacyEnd)
    && !(m.end <= m.legacyStart) && !(m.end <= m.legacyEnd) && |m.legacyStart| + |m.legacyEnd| > 2
  }

  /** No legacy marker starts inside a placed block. */
  lemma BlockClean(pre: string, block: string, post: string, start: string, end: string, m: string, p: nat)
    requires Section(block, start, end) && Marker(m) && Absent(block, m) && !(end <= m)
    requires |pre| <= p < |pre| + |block|
    ensures !Occurs(pre + (block + post), m, p)
  {
    var r := pre + (block + post);
    var q: nat := p - |pre|;
    var at: nat :| EndsAt(block, start, end, at);
    if q + |m| <= |block| {
      OccursInside(pre, block, post, m, q);
    } else if Occurs(r, m, p) {
      OccursAt(r, m, p, 0);
      BlockTail(block, end, at, q);
      if q < at {
        OccursAt(r, m, p, at - q);
      } else if q == at {
        EndIsPrefix(pre, block, post, end, m, at);
      }
    }
  }

  lemma EndIsPrefix(pre: string, block: string, post: string, end: string, m: string, at: nat)
    requires Occurs(block, end, at) && Occurs(pre + (block + post), m, |pre| + at) && |end| <= |m|
    ensures end <= m
  {
    var r, p := pre + (block + post), |pre| + at;
    forall i | 0 <= i < |end| ensures end[i] == m[i] {
      OccursAt(r, m, p, i);
      OccursAt(block, end, at, i);
    }
  }

  /** In the block, from the end marker on, '#' stands only at the marker's start. */
  lemma BlockTail(block: string, end: string, at: nat, q: nat)
    requires Marker(end) && Occurs(block, end, at) && q < |block|
    requires block[at + |end|..] == "" || block[at + |end|..] == "\n"
    ensures block[at] == '#' && (q > at ==> block[q] != '#')
  {
    OccursAt(block, end, at, 0);
    if at < q < at + |end| { OccursAt(block, end, at, q - at); }
    if q >= at + |end| { assert block[at + |end|..][q - at - |end|] == block[q]; }
  }

  lemma ReplaceGrowth(content: string, start: string, end: string, block: string)
    requires start != "" && end != "" && Replace(content, start, end, block).Ok?
    ensures |Replace(content, start, end, block).text| <= |content| + |block| + 2
  {
  }

  /** A marker that stands in u + v but not in u + cut + v lies across the junction. */
  lemma AcrossJunction(u: string, cut: string, v: string, m: string, p: nat)
    requires m != "" && Absent(u + cut + v, m) && Occurs(u + v, m, p)
    ensures p < |u| < p + |m|
  {
    assert u + (cut + v) == u + cut + v;
    if p + |m| <= |u| {
      OccursPrefix(u, v, m, p);
      OccursPrefix(u, cut + v, m, p);
    } else if |u| <= p {
      OccursShifted(u, cut, v, m, p);
    }
  }

  lemma OccursShifted(u: string, cut: string, v: string, m: string, p: nat)
    requires |u| <= p && Occurs(u + v, m, p)
    ensures Occurs(u + cut + v, m, p + |cut|)
  {
    var q := p + |cut|;
    assert (u + cut + v)[q..q + |m|] == (u + v)[p..p + |m|];
  }

  /** After text has been cut out before a placed block, rewriting does not make up for it. */
  lemma CutBefore(u: string, cut: string, v: string, block: string, post: string, start: string, end: string)
    requires Section(block, start, end) && Absent(u + cut + v, start) && Absent(u + cut + v, end)
    requires Replace((u + v) + (block + post), start, end, block).Ok?
    ensures |Replace((u + v) + (block + post), start, end, block).text| <= |u| + |v| + |block| + |post|
  {
    var pre, rest := u + v, block + post;
    var r := pre + rest;
    var at: nat :| EndsAt(block, start, end, at);
    OccursInside(pre, block, post, start, 0);
    OccursInside(pre, block, post, end, at);
    var s, e := Index(r, start).value, Index(r, end).value;
    MarkersAcross(u, cut, v, rest, start, end, s, e);
    FirstEnd(pre, block, post, start, end, at, e);
    AfterPlaced(pre, block, post, end, at);
  }

  /** Two markers cannot both lie across the junction. */
  lemma MarkersAcross(u: string, cut: string, v: string, rest: string, start: string, end: string, s: nat, e: nat)
    requires Marker(start) && Marker(end) && rest != "" && rest[0] == '#' && s < e
    requires Absent(u + cut + v, start) && Absent(u + cut + v, end)
    requires Occurs((u + v) + rest, start, s) && Occurs((u + v) + rest, end, e)
    ensures e >= |u + v|
  {
    var pre := u + v;
    if e < |pre| {
      NoCrossing(pre, rest, end, e);
      NoCrossing(pre, rest, start, s);
      AcrossJunction(u, cut, v, end, e);
      AcrossJunction(u, cut, v, start, s);
      OccursAt(pre, end, e, 0);
      OccursAt(pre, start, s, e - s);
    }
  }

  lemma FirstEnd(pre: string, block: string, post: string, start: string, end: string, at: nat, e: nat)
    requires end != "" && EndsAt(block, start, end, at) && |pre| <= e && Index(pre + (block + post), end) == Some(e)
    ensures e == |pre| + at
  {
    OccursInside(pre, block, post, end, at);
    if e < |pre| + at { OccursInside(pre, block, post, end, e - |pre|); }
  }

  lemma AfterPlaced(pre: string, block: string, post: string, end: string, at: nat)
    requires Occurs(block, end, at) && (block[at + |end|..] == "" || block[at + |end|..] == "\n") && end != ""
    requires end[|end| - 1] != '\n'
    ensures Occurs(pre + (block + post), end, |pre| + at)
    ensures After(pre + (block + post), |pre| + at, end, block) == |pre| + |block|
  {
    var r := pre + (block + post);
    OccursInside(pre, block, post, end, at);
    assert r[|pre| + at + |end|..] == block[at + |end|..] + post;
    if block[at + |end|..] == "" { OccursAt(block, end, at, |end| - 1); }
  }

  /** Removing a legacy section around, before or after a placed block leaves something that rewriting does not
      restore. */
  lemma RemovalShows(r: string, pre: string, block: string, post: string, m: Markers)
    requires Separate(m, block) && Placed(r, pre, block, post, m.start, m.end)
    requires !(Absent(r, m.legacyStart) && Absent(r, m.legacyEnd))
    ensures var removed := Remove(r, m.legacyStart, m.legacyEnd);
            removed.Malformed? || Replace(removed.text, m.start, m.end, block) != Ok(r)
  {
    var a, e := Index(r, m.legacyStart), Index(r, m.legacyEnd);
    if a.Some? && e.Some? && e.value > a.value {
      if a.value < |pre| && e.value < |pre| {
        RemovalBefore(r, pre, block, post, m, a.value, e.value);
      } else if a.value < |pre| {
        RemovalAround(r, pre, block, post, m, a.value, e.value);
      } else {
        RemovalAfter(r, pre, block, post, m, a.value, e.value);
      }
    }
  }

  lemma HashFirst(block: string, start: string, end: string, post: string)
    requires Section(block, start, end)
    ensures block + post != "" && (block + post)[0] == '#'
  {
    assert block[0] == start[0];
  }

  lemma RemovalBefore(r: string, pre: string, block: string, post: string, m: Markers, a: nat, e: nat)
    requires Separate(m, block) && Placed(r, pre, block, post, m.start, m.end) && a < e < |pre|
    requires Index(r, m.legacyStart) == Some(a) && Index(r, m.legacyEnd) == Some(e)
    ensures var removed := Remove(r, m.legacyStart, m.legacyEnd);
            removed.Ok? && Replace(removed.text, m.start, m.end, block) != Ok(r)
  {
    HashFirst(block, m.start, m.end, post);
    var rest := block + post;
    assert r == pre + rest;
    NoCrossing(pre, rest, m.legacyEnd, e);
    var u, cut, v := RemovedBefore(r, pre, rest, m, a, e);
    if Replace((u + v) + rest, m.start, m.end, block).Ok? {
      CutBefore(u, cut, v, block, post, m.start, m.end);
    }
  }

  lemma RemovedBefore(r: string, pre: string, rest: string, m: Markers, a: nat, e: nat)
    returns (u: string, cut: string, v: string)
    requires m.legacyStart != "" && m.legacyEnd != "" && r == pre + rest && a < e && e + |m.legacyEnd| <= |pre|
    requires Index(r, m.legacyStart) == Some(a) && Index(r, m.legacyEnd) == Some(e)
    ensures Remove(r, m.legacyStart, m.legacyEnd) == Ok((u + v) + rest)
    ensures u + cut + v == pre && cut != ""
  {
    var b := e + |m.legacyEnd|;
    u, cut, v := pre[..a], pre[a..b], pre[b..];
    CutInside(pre, rest, a, b);
  }

  lemma CutInside(pre: string, rest: string, a: nat, b: nat)
    requires a <= b <= |pre|
    ensures (pre + rest)[..a] + (pre + rest)[b..] == (pre[..a] + pre[b..]) + rest
    ensures pre[..a] + pre[a..b] + pre[b..] == pre
  {
  }

  lemma RemovalAround(r: string, pre: string, block: string, post: string, m: Markers, a: nat, e: nat)
    requires Separate(m, block) && Placed(r, pre, block, post, m.start, m.end) && a < |pre| <= e
    requires Index(r, m.legacyStart) == Some(a) && Index(r, m.legacyEnd) == Some(e)
    ensures var removed := Remove(r, m.legacyStart, m.legacyEnd);
            removed.Ok? && Replace(removed.text, m.start, m.end, block) != Ok(r)
  {
    HashFirst(block, m.start, m.end, post);
    assert r == pre + (block + post);
    NoCrossing(pre, block + post, m.legacyStart, a);
    if e < |pre| + |block| { BlockClean(pre, block, post, m.start, m.end, m.legacyEnd, e); }
    var removed := Remove(r, m.legacyStart, m.legacyEnd).text;
    if Replace(removed, m.start, m.end, block).Ok? {
      ReplaceGrowth(removed, m.start, m.end, block);
    }
  }

  lemma CutPost(front: string, post: string, i: nat, j: nat)
    requires i <= j <= |post|
    ensures (front + post)[..|front| + i] + (front + post)[|front| + j..] == front + (post[..i] + post[j..])
  {
  }

  lemma RemovalAfter(r: string, pre: string, block: string, post: string, m: Markers, a: nat, e: nat)
    requires Separate(m, block) && Placed(r, pre, block, post, m.start, m.end) && |pre| <= a < e
    requires Index(r, m.legacyStart) == Some(a) && Index(r, m.legacyEnd) == Some(e)
    ensures var removed := Remove(r, m.legacyStart, m.legacyEnd);
            removed.Ok? && Replace(removed.text, m.start, m.end, block) != Ok(r)
  {
    assert r == pre + (block + post);
    if a < |pre| + |block| { BlockClean(pre, block, post, m.start, m.end, m.legacyStart, a); }
    var rest := RemovedAfter(r, pre + block, post, m, a, e);
    PlacedFixed(pre + block + rest, pre, block, rest, m.start, m.end);
  }

  lemma RemovedAfter(r: string, front: string, post: string, m: Markers, a: nat, e: nat) returns (rest: string)
    requires m.legacyStart != "" && m.legacyEnd != "" && r == front + post && |front| <= a < e
    requires Index(r, m.legacyStart) == Some(a) && Index(r, m.legacyEnd) == Some(e)
    ensures Remove(r, m.legacyStart, m.legacyEnd) == Ok(front + rest) && |rest| < |post|
  {
    var i, j := a - |front|, e + |m.legacyEnd| - |front|;
    rest := post[..i] + post[j..];
    CutPost(front, post, i, j);
  }

  ghost predicate NoLegacy(text: string, m: Markers) {
    Absent(text, m.legacyStart) && Absent(text, m.legacyEnd)
  }

  /** Running the bootstrap on r changes nothing. */
  predicate Unchanged(r: string, m: Markers, block: string)
    requires m.start != "" && m.end != "" && m.legacyStart != "" && m.legacyEnd != ""
  {
    Patch(r, m, block) == Ok(r)
  }

  /** A second run changes nothing exactly when the first left no legacy marker behind. */
  lemma FixedWithoutLegacy(content: string, m: Markers, block: string)
    requires Separate(m, block) && Patch(content, m, block).Ok?
    ensures var r := Patch(content, m, block).text;
            Unchanged(r, m, block) <==> NoLegacy(r, m)
  {
    var migrated := Migrate(content, m, block);
    var r := Patch(content, m, block).text;
    var pre, post := ReplacePlaces(migrated.text, m.start, m.end, block);
    var at: nat :| EndsAt(block, m.start, m.end, at);
    PlacedIndex(r, pre, block, post, m.start, m.end, at);
    PlacedFixed(r, pre, block, post, m.start, m.end);
    if !(Absent(r, m.legacyStart) && Absent(r, m.legacyEnd)) {
      RemovalShows(r, pre, block, post, m);
    }
  }

  /** The first run puts the block where the first legacy section was. */
  lemma Migrates(content: string, m: Markers, block: string, a: nat, e: nat)
    requires Separate(m, block) && Patch(content, m, block).Ok? && Absent(content, m.start)
    requires Index(content, m.legacyStart) == Some(a) && Index(content, m.legacyEnd) == Some(e) && a < e
    ensures Patch(content, m, block) == Ok(content[..a] + block + content[After(content, e, m.legacyEnd, block)..])
  {
    var pre, post := content[..a], content[After(content, e, m.legacyEnd, block)..];
    var r := pre + block + post;
    assert Replace(content, m.legacyStart, m.legacyEnd, block) == Ok(r);
    PrefixStartAbsent(content, m.start, a);
    PatchedInPlace(r, pre, block, post, m);
  }

  lemma PrefixStartAbsent(content: string, start: string, a: nat)
    requires Absent(content, start) && a <= |content| && start != ""
    ensures Absent(content[..a], start)
  {
    forall q: nat | q < a ensures !Occurs(content, start, q) {}
    PrefixAbsent(content, start, a);
  }

  /** Where the block is already in its place, rewriting succeeds only by leaving the text as it is. */
  lemma PatchedInPlace(r: string, pre: string, block: string, post: string, m: Markers)
    requires Separate(m, block) && r == pre + block + post && Absent(pre, m.start)
    requires Replace(r, m.start, m.end, block).Ok?
    ensures Replace(r, m.start, m.end, block) == Ok(r)
  {
    HashFirst(block, m.start, m.end, post);
    assert r == pre + (block + post);
    NoneBefore(pre, block + post, m.start);
    OccursInside(pre, block, post, m.start, 0);
    IndexUnique(r, m.start, |pre|);
    forall q: nat | q < |pre| ensures !Occurs(pre, m.end, q) {
      if Occurs(pre, m.end, q) { OccursPrefix(pre, block + post, m.end, q); }
    }
    PlacedFixed(r, pre, block, post, m.start, m.end);
  }

  // ---------------------------------------------------------------- when a first run succeeds

  /** Without a new section: no legacy marker and no stray end marker, or a legacy section with no end marker of
      the new kind before it. With a new start marker: well-marked legacy text, and well-marked new text once the
      first legacy section is cut out. */
  ghost predicate Patchable(content: string, m: Markers)
    requires m.start != "" && m.end != "" && m.legacyStart != "" && m.legacyEnd != ""
  {
    if !Absent(content, m.start) then
      WellMarked(content, m.legacyStart, m.legacyEnd) && WellMarked(WithoutLegacy(content, m), m.start, m.end)
    else if Unmarked(content, m.legacyStart, m.legacyEnd) then Absent(content, m.end)
    else
      exists a: nat, e: nat :: Marked(content, m.legacyStart, m.legacyEnd, a, e) && Absent(content[..a], m.end)
  }

  /** A run of the section migration succeeds exactly on such files. */
  lemma PatchExactly(content: string, m: Markers, block: string)
    requires Separate(m, block)
    ensures Patch(content, m, block).Ok? <==> Patchable(content, m)
  {
    AbsentIs(content, m.start);
    AbsentIs(content, m.legacyStart);
    AbsentIs(content, m.legacyEnd);
    if !Absent(content, m.start) {
      PatchRewrites(content, m, block);
    } else if Unmarked(content, m.legacyStart, m.legacyEnd) {
      ReplaceExactly(content, m.start, m.end, block, 0, 0);
      StartAbsent(content, m.start, m.end);
    } else {
      PatchMigrates(content, m, block);
    }
  }

  lemma StartAbsent(content: string, start: string, end: string)
    requires start != "" && end != "" && Absent(content, start)
    ensures WellMarked(content, start, end) <==> Absent(content, end)
  {
  }

  lemma PatchRewrites(content: string, m: Markers, block: string)
    requires Separate(m, block) && Index(content, m.start).Some?
    ensures Patch(content, m, block).Ok? <==>
            WellMarked(content, m.legacyStart, m.legacyEnd) && WellMarked(WithoutLegacy(content, m), m.start, m.end)
  {
    RemoveExactly(content, m.legacyStart, m.legacyEnd);
    ReplaceExactly(WithoutLegacy(content, m), m.start, m.end, block, 0, 0);
    if Migrate(content, m, block).Ok? { MigratesWithout(content, m, block); }
  }

  lemma PatchMigrates(content: string, m: Markers, block: string)
    requires Separate(m, block) && Absent(content, m.start) && !Unmarked(content, m.legacyStart, m.legacyEnd)
    ensures Patch(content, m, block).Ok? <==>
            exists a: nat, e: nat :: Marked(content, m.legacyStart, m.legacyEnd, a, e) && Absent(content[..a], m.end)
  {
    var a, e := Index(content, m.legacyStart), Index(content, m.legacyEnd);
    AbsentIs(content, m.start);
    AbsentIs(content, m.legacyStart);
    AbsentIs(content, m.legacyEnd);
    if a.Some? && e.Some? && a.value < e.value {
      assert Marked(content, m.legacyStart, m.legacyEnd, a.value, e.value);
      MigratedOk(content, m, block, a.value, e.value);
    }
    if u: nat, v: nat :| Marked(content, m.legacyStart, m.legacyEnd, u, v) && Absent(content[..u], m.end) {
      IndexIs(content, m.legacyStart, u);
      IndexIs(content, m.legacyEnd, v);
    }
  }

  lemma MigratedOk(content: string, m: Markers, block: string, a: nat, e: nat)
    requires Separate(m, block) && Absent(content, m.start)
    requires Index(content, m.legacyStart) == Some(a) && Index(content, m.legacyEnd) == Some(e) && a < e
    ensures Patch(content, m, block).Ok? <==> Absent(content[..a], m.end)
  {
    var pre, post := content[..a], content[After(content, e, m.legacyEnd, block)..];
    PrefixStartAbsent(content, m.start, a);
    PlacedOk(pre + block + post, pre, block, post, m);
  }

  /** Around a written block a rewriting succeeds exactly when no end marker stands before it. */
  lemma PlacedOk(r: string, pre: string, block: string, post: string, m: Markers)
    requires Separate(m, block) && r == pre + block + post && Absent(pre, m.start)
    ensures Replace(r, m.start, m.end, block).Ok? <==> Absent(pre, m.end)
  {
    HashFirst(block, m.start, m.end, post);
    assert r == pre + (block + post);
    NoneBefore(pre, block + post, m.start);
    OccursInside(pre, block, post, m.start, 0);
    IndexUnique(r, m.start, |pre|);
    if Absent(pre, m.end) {
      var at: nat :| EndsAt(block, m.start, m.end, at);
      PlacedIndex(r, pre, block, post, m.start, m.end, at);
    } else {
      var q: nat :| q < |pre| && Occurs(pre, m.end, q);
      OccursPrefix(pre, block + post, m.end, q);
    }
  }

  /** A file without any marker always succeeds: the block is appended behind an empty line, nothing else changes. */
  lemma FirstRunAppends(content: string, m: Markers, block: string)
    requires Separate(m, block)
    requires Unmarked(content, m.start, m.end) && Unmarked(content, m.legacyStart, m.legacyEnd)
    ensures Patch(content, m, block) ==
            Ok(content + (if content != "" && content[|content| - 1] == '\n' then "\n" else "\n\n") + block)
  {
    AbsentIs(content, m.start);
    AbsentIs(content, m.legacyStart);
    AbsentIs(content, m.legacyEnd);
    ReplaceExactly(content, m.start, m.end, block, 0, 0);
  }

  // ---------------------------------------------------------------- a second run, decided on the file before the first

  /** The text that a run leaves around the block it writes. */
  datatype Around = Around(before: string, after: string)

  /** What surrounds a section, or the whole text where there is none. */
  function Surroundings(content: string, start: string, end: string, block: string): Around
    requires start != "" && end != ""
  {
    var s, e := Index(content, start), Index(content, end);
    if s.Some? && e.Some? && s.value < e.value
    then Around(content[..s.value], content[After(content, e.value, end, block)..])
    else Around(content + Gap(content), "")
  }

  /** The file has a first legacy section. */
  predicate HasLegacy(content: string, m: Markers)
    requires m.legacyStart != "" && m.legacyEnd != ""
  {
    var a, e := Index(content, m.legacyStart), Index(content, m.legacyEnd);
    a.Some? && e.Some? && a.value < e.value
  }

  /** The file without its first legacy section. */
  function WithoutLegacy(content: string, m: Markers): string
    requires m.legacyStart != "" && m.legacyEnd != ""
  {
    if !HasLegacy(content, m) then content
    else content[..Index(content, m.legacyStart).value] + content[Index(content, m.legacyEnd).value + |m.legacyEnd|..]
  }

  /** Read off the markers of the file: the text around its first legacy section when it has no new section
      yet, else the text around the new section once the first legacy section is cut out. */
  function KeptAround(content: string, m: Markers, block: string): Around
    requires m.start != "" && m.end != "" && m.legacyStart != "" && m.legacyEnd != ""
  {
    if Index(content, m.start).None? && HasLegacy(content, m)
    then Surroundings(content, m.legacyStart, m.legacyEnd, block)
    else Surroundings(WithoutLegacy(content, m), m.start, m.end, block)
  }

  /** A successful run writes the block between exactly that text. */
  lemma PatchKeeps(content: string, m: Markers, block: string)
    requires Separate(m, block) && Patch(content, m, block).Ok?
    ensures var around := KeptAround(content, m, block);
            Patch(content, m, block) == Ok(around.before + block + around.after)
  {
    if Index(content, m.start).None? && HasLegacy(content, m) {
      Migrates(content, m, block, Index(content, m.legacyStart).value, Index(content, m.legacyEnd).value);
    } else {
      MigratesWithout(content, m, block);
      ReplaceSurrounds(WithoutLegacy(content, m), m.start, m.end, block);
    }
  }

  lemma MigratesWithout(content: string, m: Markers, block: string)
    requires m.start != "" && m.end != "" && m.legacyStart != "" && m.legacyEnd != ""
    requires Migrate(content, m, block).Ok? && !(Index(content, m.start).None? && HasLegacy(content, m))
    ensures Migrate(content, m, block) == Ok(WithoutLegacy(content, m))
  {
  }

  lemma ReplaceSurrounds(text: string, start: string, end: string, block: string)
    requires start != "" && end != "" && Replace(text, start, end, block).Ok?
    ensures var around := Surroundings(text, start, end, block);
            Replace(text, start, end, block) == Ok(around.before + block + around.after)
  {
    assert (text + Gap(text)) + block + "" == text + Gap(text) + block;
  }

  /** A legacy marker stands in the written file only where it stands in the text around the block. */
  lemma AbsentAround(pre: string, block: string, post: string, start: string, end: string, x: string)
    requires Section(block, start, end) && Marker(x) && Absent(block, x) && !(end <= x)
    ensures Absent(pre + block + post, x) <==> Absent(pre, x) && Absent(post, x)
  {
    var r := pre + (block + post);
    assert r == pre + block + post;
    HashFirst(block, start, end, post);
    forall p: nat | p < |pre| ensures Occurs(r, x, p) <==> Occurs(pre, x, p) {
      if Occurs(r, x, p) { NoCrossing(pre, block + post, x, p); }
      if Occurs(pre, x, p) { OccursPrefix(pre, block + post, x, p); }
    }
    forall p: nat | |pre| <= p < |pre| + |block| ensures !Occurs(r, x, p) {
      BlockClean(pre, block, post, start, end, x, p);
    }
    forall q: nat | q < |post| ensures Occurs(r, x, |pre| + |block| + q) <==> Occurs(post, x, q) {
      OccursBehind(pre + block, post, x, q);
    }
    if Absent(pre, x) && Absent(post, x) {
      forall p: nat | p < |r| ensures !Occurs(r, x, p) {
        if p >= |pre| + |block| { assert !Occurs(post, x, p - |pre| - |block|); }
      }
    }
    if Absent(r, x) {
      forall q: nat | q < |post| ensures !Occurs(post, x, q) { assert !Occurs(r, x, |pre| + |block| + q); }
      forall p: nat | p < |pre| ensures !Occurs(pre, x, p) { assert !Occurs(r, x, p); }
    }
  }

  lemma OccursBehind(front: string, post: string, x: string, q: nat)
    requires q <= |post|
    ensures Occurs(front + post, x, |front| + q) <==> Occurs(post, x, q)
  {
    if q + |x| <= |post| {
      assert (front + post)[|front| + q..|front| + q + |x|] == post[q..q + |x|];
    }
  }

  /** A second bootstrap run changes nothing exactly when no legacy marker stands in the text that the markers
      of the file before the first run delimit. */
  lemma PatchIdempotent(content: string, m: Markers, block: string)
    requires Separate(m, block) && Patch(content, m, block).Ok?
    ensures var around := KeptAround(content, m, block);
            Unchanged(Patch(content, m, block).text, m, block) <==>
              NoLegacy(around.before, m) && NoLegacy(around.after, m)
  {
    var around := KeptAround(content, m, block);
    PatchKeeps(content, m, block);
    FixedWithoutLegacy(content, m, block);
    AbsentAround(around.before, block, around.after, m.start, m.end, m.legacyStart);
    AbsentAround(around.before, block, around.after, m.start, m.end, m.legacyEnd);
  }

  /** No new section, and a first legacy section that starts at a and whose end marker starts at e: the second
      run is a no-op exactly when no legacy marker follows that section. */
  lemma MigrationIdempotent(content: string, m: Markers, block: string, a: nat, e: nat)
    requires Separate(m, block) && Patch(content, m, block).Ok? && Absent(content, m.start)
    requires Index(content, m.legacyStart) == Some(a) && Index(content, m.legacyEnd) == Some(e) && a < e
    ensures Unchanged(Patch(content, m, block).text, m, block) <==>
            NoLegacy(content[After(content, e, m.legacyEnd, block)..], m)
  {
    PatchIdempotent(content, m, block);
    PrefixAbsent(content, m.legacyStart, a);
    PrefixAbsent(content, m.legacyEnd, a);
  }

  /** So a second legacy section keeps its start marker through the first run, and the second run changes the
      file. */
  lemma SecondLegacySectionStays(content: string, m: Markers, block: string, a: nat, e: nat, p: nat)
    requires Separate(m, block) && Patch(content, m, block).Ok? && Absent(content, m.start)
    requires Index(content, m.legacyStart) == Some(a) && Index(content, m.legacyEnd) == Some(e) && a < e
    requires e + |m.legacyEnd| < p && Occurs(content, m.legacyStart, p)
    ensures var r := Patch(content, m, block).text;
            !Absent(r, m.legacyStart) && Patch(r, m, block) != Ok(r)
  {
    var post := content[After(content, e, m.legacyEnd, block)..];
    OccursLater(content, m.legacyStart, p, After(content, e, m.legacyEnd, block), post);
    MigrationIdempotent(content, m, block, a, e);
    Migrates(content, m, block, a, e);
    AbsentAround(content[..a], block, post, m.start, m.end, m.legacyStart);
  }

  lemma OccursLater(content: string, x: string, p: nat, resume: nat, post: string)
    requires resume <= p < |content| && Occurs(content, x, p) && post == content[resume..]
    ensures !Absent(post, x)
  {
    assert content[..resume] + post == content;
    OccursBehind(content[..resume], post, x, p - resume);
    assert Occurs(post, x, p - resume);
  }

  /** Without a legacy marker the second run is always a no-op. */
  lemma NoLegacyIdempotent(content: string, m: Markers, block: string)
    requires Separate(m, block) && Patch(content, m, block).Ok? && NoLegacy(content, m)
    ensures Unchanged(Patch(content, m, block).text, m, block)
  {
    PatchIdempotent(content, m, block);
    SurroundingsAbsent(content, m.start, m.end, block, m.legacyStart);
    SurroundingsAbsent(content, m.start, m.end, block, m.legacyEnd);
  }

  lemma SurroundingsAbsent(content: string, start: string, end: string, block: string, x: string)
    requires start != "" && end != "" && Marker(x) && Absent(content, x)
    ensures var around := Surroundings(content, start, end, block);
            Absent(around.before, x) && Absent(around.after, x)
  {
    var s, e := Index(content, start), Index(content, end);
    if s.Some? && e.Some? && s.value < e.value {
      var resume := After(content, e.value, end, block);
      PrefixAbsent(content, x, s.value);
      SuffixAbsent(content, x, resume);
    } else {
      GapAbsent(content, Gap(content), x);
    }
  }

  lemma SuffixAbsent(content: string, x: string, from: nat)
    requires Absent(content, x) && from <= |content|
    ensures Absent(content[from..], x)
  {
    forall q: nat | q < |content[from..]| ensures !Occurs(content[from..], x, q) {
      OccursBehind(content[..from], content[from..], x, q);
      assert content[..from] + content[from..] == content;
      assert !Occurs(content, x, from + q);
    }
  }

  /** A newline in front of the text hides no marker and adds none. */
  lemma NewlineAbsent(text: string, x: string)
    requires Marker(x)
    ensures Absent("\n" + text, x) <==> Absent(text, x)
  {
    var s := "\n" + text;
    if Occurs(s, x, 0) { OccursAt(s, x, 0, 0); }
    forall q: nat | q < |text| ensures Occurs(s, x, 1 + q) <==> Occurs(text, x, q) {
      OccursBehind("\n", text, x, q);
    }
    if Absent(text, x) {
      forall p: nat | p < |s| ensures !Occurs(s, x, p) {
        if p > 0 { assert !Occurs(text, x, p - 1); }
      }
    }
    if Absent(s, x) {
      forall q: nat | q < |text| ensures !Occurs(text, x, q) { assert !Occurs(s, x, 1 + q); }
    }
  }

  /** The new section, from s to the end marker at t, stands before the first legacy section, from a to the end
      marker at e: the second run is a no-op exactly when no legacy marker is left once that section is cut out
      of the text after the new one. */
  lemma LegacyAfterIdempotent(content: string, m: Markers, block: string, s: nat, t: nat, a: nat, e: nat, rest: string)
    requires Separate(m, block) && Patch(content, m, block).Ok?
    requires Index(content, m.start) == Some(s) && Index(content, m.end) == Some(t) && s < t
    requires Index(content, m.legacyStart) == Some(a) && Index(content, m.legacyEnd) == Some(e)
    requires t + |m.end| <= a < e && rest == content[t + |m.end|..a] + content[e + |m.legacyEnd|..]
    ensures Unchanged(Patch(content, m, block).text, m, block) <==> NoLegacy(rest, m)
  {
    var cut := WithoutLegacy(content, m);
    SectionStays(content, m, s, t, a, e, cut, rest);
    SectionIdempotent(content, m, block, s, t, cut, content[..s], rest);
    NoLegacyBefore(content, m, s);
  }

  lemma SectionStays(content: string, m: Markers, s: nat, t: nat, a: nat, e: nat, cut: string, rest: string)
    requires Marker(m.start) && Marker(m.end) && Marker(m.legacyStart) && Marker(m.legacyEnd)
    requires Index(content, m.start) == Some(s) && Index(content, m.end) == Some(t) && s < t
    requires Index(content, m.legacyStart) == Some(a) && Index(content, m.legacyEnd) == Some(e)
    requires t + |m.end| <= a < e && rest == content[t + |m.end|..a] + content[e + |m.legacyEnd|..]
    requires cut == WithoutLegacy(content, m)
    ensures SectionAt(cut, m, s, t, content[..s], rest)
  {
    WithoutLegacyIs(content, m, a, e);
    NewSectionStays(content, m, s, t, a, e + |m.legacyEnd|, cut);
  }

  lemma WithoutLegacyIs(content: string, m: Markers, a: nat, e: nat)
    requires m.legacyStart != "" && m.legacyEnd != "" && a < e
    requires Index(content, m.legacyStart) == Some(a) && Index(content, m.legacyEnd) == Some(e)
    ensures WithoutLegacy(content, m) == content[..a] + content[e + |m.legacyEnd|..]
  {
  }

  lemma NoLegacyBefore(content: string, m: Markers, s: nat)
    requires s <= |content| && m.legacyStart != "" && m.legacyEnd != ""
    requires Index(content, m.legacyStart).Some? && s <= Index(content, m.legacyStart).value
    requires Index(content, m.legacyEnd).Some? && s <= Index(content, m.legacyEnd).value
    ensures NoLegacy(content[..s], m)
  {
    PrefixAbsent(content, m.legacyStart, s);
    PrefixAbsent(content, m.legacyEnd, s);
  }

  /** The new section stands behind the first legacy section, and closing the gap that the legacy section leaves
      makes no marker: the second run is a no-op exactly when no legacy marker is left before or after it. */
  lemma LegacyBeforeIdempotent(
    content: string, m: Markers, block: string, s: nat, t: nat, a: nat, e: nat, front: string, rest: string)
    requires Separate(m, block) && Patch(content, m, block).Ok?
    requires Index(content, m.start) == Some(s) && Index(content, m.end) == Some(t) && s < t
    requires Index(content, m.legacyStart) == Some(a) && Index(content, m.legacyEnd) == Some(e)
    requires a < e && e + |m.legacyEnd| <= s && front == content[..a] + content[e + |m.legacyEnd|..s]
    requires rest == content[t + |m.end|..] && Absent(front, m.start) && Absent(front, m.end)
    ensures Unchanged(Patch(content, m, block).text, m, block) <==> NoLegacy(front, m) && NoLegacy(rest, m)
  {
    var cut := WithoutLegacy(content, m);
    SectionMoves(content, m, s, t, a, e, cut, front, rest);
    var u: nat, v: nat :| SectionAt(cut, m, u, v, front, rest);
    SectionIdempotent(content, m, block, u, v, cut, front, rest);
  }

  lemma SectionMoves(
    content: string, m: Markers, s: nat, t: nat, a: nat, e: nat, cut: string, front: string, rest: string)
    requires Marker(m.start) && Marker(m.end) && Marker(m.legacyStart) && Marker(m.legacyEnd)
    requires Index(content, m.start) == Some(s) && Index(content, m.end) == Some(t) && s < t
    requires Index(content, m.legacyStart) == Some(a) && Index(content, m.legacyEnd) == Some(e)
    requires a < e && e + |m.legacyEnd| <= s && front == content[..a] + content[e + |m.legacyEnd|..s]
    requires cut == WithoutLegacy(content, m) && rest == content[t + |m.end|..]
    requires Absent(front, m.start) && Absent(front, m.end)
    ensures exists u: nat, v: nat :: SectionAt(cut, m, u, v, front, rest)
  {
    WithoutLegacyIs(content, m, a, e);
    Regroup(content, a, e + |m.legacyEnd|, s);
    NewSectionMoves(content, m, s, t, cut, content[..s], front, content[s..]);
    assert SectionAt(cut, m, |front|, |front| + t - s, front, rest);
  }

  /** The new section stands at s and t, between the text in front and the rest. */
  ghost predicate SectionAt(cut: string, m: Markers, s: nat, t: nat, front: string, rest: string) {
    m.start != "" && m.end != "" && s < t && Index(cut, m.start) == Some(s) && Index(cut, m.end) == Some(t) &&
    s <= |cut| && t + |m.end| <= |cut| && cut[..s] == front && cut[t + |m.end|..] == rest
  }

  /** The new section found at s and t once the first legacy section is cut out. */
  lemma SectionIdempotent(content: string, m: Markers, block: string, s: nat, t: nat, cut: string, front: string,
      rest: string)
    requires Separate(m, block) && Patch(content, m, block).Ok? && Index(content, m.start).Some?
    requires cut == WithoutLegacy(content, m) && SectionAt(cut, m, s, t, front, rest)
    ensures Unchanged(Patch(content, m, block).text, m, block) <==> NoLegacy(front, m) && NoLegacy(rest, m)
  {
    PatchIdempotent(content, m, block);
    ResumedText(cut, m.end, t, block, rest, m);
  }

  /** Cutting text out behind the new section does not move its markers. */
  lemma NewSectionStays(content: string, m: Markers, s: nat, t: nat, a: nat, f: nat, cut: string)
    requires Marker(m.start) && Marker(m.end) && a <= f <= |content| && cut == content[..a] + content[f..]
    requires Index(content, m.start) == Some(s) && Index(content, m.end) == Some(t) && s < t && t + |m.end| <= a
    ensures Index(cut, m.start) == Some(s) && Index(cut, m.end) == Some(t) && cut[..s] == content[..s]
    ensures cut[t + |m.end|..] == content[t + |m.end|..a] + content[f..]
  {
    assert content[..a] + content[a..] == content;
    OccursAt(content, m.end, t, 0);
    if t < s + |m.start| { OccursAt(content, m.start, s, t - s); }
    StaysFirst(content[..a], content[a..], content[f..], m.start, s);
    StaysFirst(content[..a], content[a..], content[f..], m.end, t);
  }

  /** The first occurrence of a marker inside u stays the first, whatever follows u. */
  lemma StaysFirst(u: string, w: string, v: string, x: string, p: nat)
    requires x != "" && p + |x| <= |u| && Index(u + w, x) == Some(p)
    ensures Index(u + v, x) == Some(p)
  {
    forall q: nat | q <= p ensures Occurs(u + v, x, q) <==> Occurs(u + w, x, q) {
      OccursPrefix(u, w, x, q);
      OccursPrefix(u, v, x, q);
    }
    IndexUnique(u + v, x, p);
  }

  /** Cutting text out before the new section moves its markers together, when the cut makes no marker. */
  lemma NewSectionMoves(content: string, m: Markers, s: nat, t: nat, cut: string, was: string, front: string,
      back: string)
    requires Marker(m.start) && Marker(m.end)
    requires Index(content, m.start) == Some(s) && Index(content, m.end) == Some(t) && s < t
    requires |was| == s && content == was + back && cut == front + back
    requires Absent(front, m.start) && Absent(front, m.end)
    ensures Index(cut, m.start) == Some(|front|) && Index(cut, m.end) == Some(|front| + t - s)
    ensures cut[..|front|] == front && cut[|front| + t - s + |m.end|..] == content[t + |m.end|..]
  {
    StartsBack(content, m.start, was, back);
    MovesFirst(content, cut, was, front, back, m.start, 0);
    MovesFirst(content, cut, was, front, back, m.end, t - s);
    SameTail(content, cut, was, front, back, t - s + |m.end|);
  }

  lemma StartsBack(content: string, x: string, was: string, back: string)
    requires Marker(x) && content == was + back && Occurs(content, x, |was|)
    ensures back != "" && back[0] == '#'
  {
    OccursAt(content, x, |was|, 0);
    assert content[|was|] == back[0];
  }

  lemma Regroup(content: string, a: nat, f: nat, s: nat)
    requires a <= f <= s <= |content|
    ensures content == content[..s] + content[s..]
    ensures content[..a] + content[f..] == (content[..a] + content[f..s]) + content[s..]
  {
  }

  lemma SameTail(content: string, cut: string, was: string, front: string, back: string, k: nat)
    requires k <= |back| && content == was + back && cut == front + back
    ensures content[|was| + k..] == back[k..] == cut[|front| + k..] && cut[..|front|] == front
  {
  }

  /** The first occurrence of a marker in `back` stays its first when what stands before `back` is exchanged. */
  lemma MovesFirst(content: string, cut: string, was: string, front: string, back: string, x: string, q: nat)
    requires Marker(x) && back != "" && back[0] == '#' && content == was + back && cut == front + back
    requires Index(content, x) == Some(|was| + q) && Absent(front, x)
    ensures Index(cut, x) == Some(|front| + q)
  {
    OccursBehind(was, back, x, q);
    OccursBehind(front, back, x, q);
    NoneBefore(front, back, x);
    forall p: nat | |front| <= p < |front| + q ensures !Occurs(cut, x, p) {
      OccursBehind(front, back, x, p - |front|);
      OccursBehind(was, back, x, p - |front|);
    }
    IndexUnique(cut, x, |front| + q);
  }

  /** Where the text resumes does not matter for legacy markers. */
  lemma ResumedText(text: string, end: string, t: nat, block: string, rest: string, m: Markers)
    requires Occurs(text, end, t) && text[t + |end|..] == rest && Marker(m.legacyStart) && Marker(m.legacyEnd)
    ensures NoLegacy(text[After(text, t, end, block)..], m) <==> NoLegacy(rest, m)
  {
    var resumed := text[After(text, t, end, block)..];
    if After(text, t, end, block) != t + |end| {
      assert rest == "\n" + resumed;
      NewlineAbsent(resumed, m.legacyStart);
      NewlineAbsent(resumed, m.legacyEnd);
    }
  }
}
