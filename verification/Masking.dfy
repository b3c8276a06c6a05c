// Masking credentials in tool text, with a proof a later replay can check.

/** `Redactor.transform` and `verify_text` of reply_provenance.py. What the patterns
    and host values match is an arbitrary function of the text, and the digest of a
    text stands for the text. */
module Masking {
  import opened Ranking
  import opened Utf8

  const MIN_MATCH := 8

  /** Rules by their order as text: the host values, then the three shapes. */
  const HOST_VALUE: nat := 0
  const RULES: nat := 4

  datatype Match = Match(start: nat, end: nat, rule: nat)

  datatype Span = Span(start: nat, end: nat, rules: set<nat>)

  /** A masked span as the proof states it: its place in the safe text in bytes. */
  datatype Mark = Mark(start: nat, originalBytes: nat, rules: set<nat>)

  datatype Digest = Sha(text: string)

  datatype Proof = Proof(originalSha: Digest, originalBytes: nat, safeSha: Digest, safeBytes: nat, spans: seq<Mark>)

  /** What the policy matches in a text, and whether it lists host values. */
  datatype Policy = Policy(find: string -> seq<Match>, hasValues: bool)

  predicate IsMatch(m: Match, length: nat, policy: Policy) {
    m.start + MIN_MATCH <= m.end <= length && m.rule < RULES && (m.rule == HOST_VALUE ==> policy.hasValues)
  }

  ghost predicate Finds(policy: Policy) {
    forall text, k :: 0 <= k < |policy.find(text)| ==> IsMatch(policy.find(text)[k], |text|, policy)
  }

  // ---- Merging ----------------------------------------------------------------

  function MatchKey(m: Match): seq<nat> {
    [m.start, m.end, m.rule]
  }

  function Absorb(spans: seq<Span>, m: Match): seq<Span> {
    var n := |spans| - 1;
    if n >= 0 && m.start < spans[n].end
    then spans[n := Span(spans[n].start, if m.end < spans[n].end then spans[n].end else m.end,
                         spans[n].rules + {m.rule})]
    else spans + [Span(m.start, m.end, {m.rule})]
  }

  function Merge(ms: seq<Match>): seq<Span> {
    if ms == [] then [] else Absorb(Merge(ms[..|ms| - 1]), ms[|ms| - 1])
  }

  ghost predicate Ordered(ms: seq<Match>, length: nat) {
    && (forall i :: 0 <= i < |ms| ==> ms[i].start + MIN_MATCH <= ms[i].end <= length)
    && (forall i, j :: 0 <= i < j < |ms| ==> ms[i].start <= ms[j].start)
  }

  /** Spans in order, apart from each other and long enough. */
  ghost predicate Apart(spans: seq<Span>, length: nat) {
    && (forall i :: 0 <= i < |spans| ==> spans[i].start + MIN_MATCH <= spans[i].end <= length)
    && (forall i, j :: 0 <= i < j < |spans| ==> spans[i].end <= spans[j].start)
  }

  predicate Within(m: Match, s: Span) {
    s.start <= m.start && m.end <= s.end
  }

  predicate Inside(p: nat, start: nat, end: nat) {
    start < p < end
  }

  /** The span holds exactly the rules of the matches in it. */
  ghost predicate RulesOf(ms: seq<Match>, s: Span) {
    forall r :: r in s.rules <==> exists i :: 0 <= i < |ms| && Within(ms[i], s) && ms[i].rule == r
  }

  /** No place inside the span separates its matches. */
  ghost predicate Connected(ms: seq<Match>, s: Span) {
    forall p :: Inside(p, s.start, s.end) ==>
      exists i :: 0 <= i < |ms| && Within(ms[i], s) && Inside(p, ms[i].start, ms[i].end)
  }

  ghost predicate StartsWith(ms: seq<Match>, s: Span) {
    exists i :: 0 <= i < |ms| && Within(ms[i], s) && ms[i].start == s.start
  }

  /** The span is an overlap class of the matches. */
  ghost predicate IsClass(ms: seq<Match>, spans: seq<Span>, k: nat)
    requires k < |spans|
  {
    Connected(ms, spans[k]) && RulesOf(ms, spans[k]) && StartsWith(ms, spans[k])
  }

  ghost predicate InClass(ms: seq<Match>, spans: seq<Span>, i: nat)
    requires i < |ms|
  {
    exists k :: 0 <= k < |spans| && Within(ms[i], spans[k])
  }

  /** The spans are the overlap classes of the matches. */
  ghost predicate Classes(ms: seq<Match>, spans: seq<Span>) {
    && (forall i :: 0 <= i < |ms| ==> InClass(ms, spans, i))
    && (forall k :: 0 <= k < |spans| ==> IsClass(ms, spans, k))
  }

  lemma {:induction false} AbsorbApart(spans: seq<Span>, m: Match, length: nat)
    requires Apart(spans, length) && m.start + MIN_MATCH <= m.end <= length
    requires forall k :: 0 <= k < |spans| ==> spans[k].start <= m.start
    ensures Apart(Absorb(spans, m), length) && Absorb(spans, m) != []
    ensures forall k :: 0 <= k < |Absorb(spans, m)| ==> Absorb(spans, m)[k].start <= m.start
  {
    var after, n := Absorb(spans, m), |spans| - 1;
    forall i, j | 0 <= i < j < |after|
      ensures after[i].end <= after[j].start
    {
      if n >= 0 && m.start < spans[n].end {
        assert after[i] == spans[i] && after[j].start == spans[j].start;
      } else {
        assert after[i] == spans[i];
        assert i == n || spans[i].end <= spans[n].start;
        assert j <= n ==> after[j] == spans[j];
      }
    }
  }

  lemma {:induction false} MergeApart(ms: seq<Match>, length: nat)
    requires Ordered(ms, length)
    ensures Apart(Merge(ms), length)
    ensures ms == [] <==> Merge(ms) == []
    ensures forall k :: 0 <= k < |Merge(ms)| ==> Merge(ms)[k].start <= ms[|ms| - 1].start
  {
    if ms != [] {
      var rest, m := ms[..|ms| - 1], ms[|ms| - 1];
      MergeApart(rest, length);
      AbsorbApart(Merge(rest), m, length);
    }
  }

  lemma AtSnoc<T>(s: seq<T>, x: T, i: nat)
    requires i <= |s|
    ensures (s + [x])[i] == if i < |s| then s[i] else x
  {
  }

  /** A match outside a span changes nothing about it. */
  lemma OwnStill(ms: seq<Match>, m: Match, s: Span)
    requires Connected(ms, s) && RulesOf(ms, s) && StartsWith(ms, s) && !Within(m, s)
    ensures Connected(ms + [m], s) && RulesOf(ms + [m], s) && StartsWith(ms + [m], s)
  {
    var all := ms + [m];
    forall p | Inside(p, s.start, s.end)
      ensures exists i :: 0 <= i < |all| && Within(all[i], s) && Inside(p, all[i].start, all[i].end)
    {
      var i :| 0 <= i < |ms| && Within(ms[i], s) && Inside(p, ms[i].start, ms[i].end);
      AtSnoc(ms, m, i);
    }
    forall r
      ensures r in s.rules <==> exists i :: 0 <= i < |all| && Within(all[i], s) && all[i].rule == r
    {
      if r in s.rules {
        var i :| 0 <= i < |ms| && Within(ms[i], s) && ms[i].rule == r;
        AtSnoc(ms, m, i);
      }
    }
    var i :| 0 <= i < |ms| && Within(ms[i], s) && ms[i].start == s.start;
    AtSnoc(ms, m, i);
  }

  /** The span of a match none of the others is in. */
  lemma OwnNew(ms: seq<Match>, m: Match, s: Span)
    requires s == Span(m.start, m.end, {m.rule}) && forall i :: 0 <= i < |ms| ==> !Within(ms[i], s)
    ensures Connected(ms + [m], s) && RulesOf(ms + [m], s) && StartsWith(ms + [m], s)
  {
    var all := ms + [m];
    AtSnoc(ms, m, |ms|);
    assert Within(all[|ms|], s);
    assert forall i :: 0 <= i < |ms| ==> all[i] == ms[i];
  }

  /** The span `s` grown to `g` by a match that runs into it. */
  lemma OwnGrown(ms: seq<Match>, m: Match, s: Span, g: Span)
    requires Connected(ms, s) && RulesOf(ms, s) && StartsWith(ms, s) && s.start <= m.start < s.end
    requires g == Span(s.start, if m.end < s.end then s.end else m.end, s.rules + {m.rule})
    requires forall i :: 0 <= i < |ms| && Within(ms[i], g) ==> Within(ms[i], s)
    ensures Connected(ms + [m], g) && RulesOf(ms + [m], g) && StartsWith(ms + [m], g)
  {
    var all := ms + [m];
    AtSnoc(ms, m, |ms|);
    assert Within(all[|ms|], g);
    forall p | Inside(p, g.start, g.end)
      ensures exists i :: 0 <= i < |all| && Within(all[i], g) && Inside(p, all[i].start, all[i].end)
    {
      if Inside(p, s.start, s.end) {
        var i :| 0 <= i < |ms| && Within(ms[i], s) && Inside(p, ms[i].start, ms[i].end);
        AtSnoc(ms, m, i);
        assert Within(all[i], g);
      } else {
        assert Inside(p, m.start, m.end);
      }
    }
    forall r
      ensures r in g.rules <==> exists i :: 0 <= i < |all| && Within(all[i], g) && all[i].rule == r
    {
      GrownRule(ms, m, s, g, r);
    }
    var i :| 0 <= i < |ms| && Within(ms[i], s) && ms[i].start == s.start;
    AtSnoc(ms, m, i);
    assert Within(all[i], g);
  }

  lemma GrownRule(ms: seq<Match>, m: Match, s: Span, g: Span, r: nat)
    requires RulesOf(ms, s) && s.start <= m.start < s.end
    requires g == Span(s.start, if m.end < s.end then s.end else m.end, s.rules + {m.rule})
    requires forall i :: 0 <= i < |ms| && Within(ms[i], g) ==> Within(ms[i], s)
    ensures r in g.rules <==> exists i :: 0 <= i < |ms + [m]| && Within((ms + [m])[i], g) && (ms + [m])[i].rule == r
  {
    var all := ms + [m];
    AtSnoc(ms, m, |ms|);
    assert Within(all[|ms|], g);
    if r in s.rules {
      var i :| 0 <= i < |ms| && Within(ms[i], s) && ms[i].rule == r;
      AtSnoc(ms, m, i);
      assert Within(all[i], g);
    }
    if i :| 0 <= i < |all| && Within(all[i], g) && all[i].rule == r {
      AtSnoc(ms, m, i);
      if i < |ms| {
        assert Within(ms[i], s);
      }
    }
  }

  /** The last match starts a span of its own. */
  lemma ClassesNew(ms: seq<Match>, m: Match, spans: seq<Span>, length: nat)
    requires Ordered(ms + [m], length) && Classes(ms, spans) && Apart(spans, length)
    requires forall k :: 0 <= k < |spans| ==> spans[k].end <= m.start
    ensures Classes(ms + [m], spans + [Span(m.start, m.end, {m.rule})])
  {
    var all, s := ms + [m], Span(m.start, m.end, {m.rule});
    var more := spans + [s];
    OrderedPrefix(ms, m, length);
    forall i | 0 <= i < |ms|
      ensures !Within(ms[i], s)
    {
      assert InClass(ms, spans, i);
      var k :| 0 <= k < |spans| && Within(ms[i], spans[k]);
    }
    OwnNew(ms, m, s);
    forall k | 0 <= k < |more|
      ensures IsClass(all, more, k)
    {
      if k < |spans| {
        assert IsClass(ms, spans, k);
        OwnStill(ms, m, spans[k]);
      }
    }
    forall i | 0 <= i < |all|
      ensures InClass(all, more, i)
    {
      if i < |ms| {
        InClassStill(ms, m, spans, more, i);
      } else {
        assert Within(all[i], more[|spans|]);
      }
    }
  }

  lemma OrderedPrefix(ms: seq<Match>, m: Match, length: nat)
    requires Ordered(ms + [m], length)
    ensures Ordered(ms, length) && m.start + MIN_MATCH <= m.end <= length
    ensures forall i :: 0 <= i < |ms| ==> ms[i].start <= m.start
  {
    var all := ms + [m];
    assert forall i :: 0 <= i < |ms| ==> all[i] == ms[i];
    assert all[|ms|] == m;
  }

  lemma InClassStill(ms: seq<Match>, m: Match, spans: seq<Span>, more: seq<Span>, i: nat)
    requires i < |ms| && InClass(ms, spans, i) && |spans| <= |more|
    requires forall k :: 0 <= k < |spans| ==> more[k].start == spans[k].start && spans[k].end <= more[k].end
    ensures InClass(ms + [m], more, i)
  {
    var k :| 0 <= k < |spans| && Within(ms[i], spans[k]);
    AtSnoc(ms, m, i);
    assert Within((ms + [m])[i], more[k]);
  }

  /** The last match runs into the last span. */
  lemma {:induction false} ClassesGrow(ms: seq<Match>, m: Match, spans: seq<Span>, length: nat)
    requires Ordered(ms + [m], length) && Classes(ms, spans) && Apart(spans, length) && spans != []
    requires spans[|spans| - 1].start <= m.start < spans[|spans| - 1].end
    ensures Classes(ms + [m], Absorb(spans, m))
  {
    var all, n, grown := ms + [m], |spans| - 1, Absorb(spans, m);
    OrderedPrefix(ms, m, length);
    forall i | 0 <= i < |ms| && Within(ms[i], grown[n])
      ensures Within(ms[i], spans[n])
    {
      assert InClass(ms, spans, i);
      var k :| 0 <= k < |spans| && Within(ms[i], spans[k]);
    }
    assert IsClass(ms, spans, n);
    OwnGrown(ms, m, spans[n], grown[n]);
    forall k | 0 <= k < |grown|
      ensures IsClass(all, grown, k)
    {
      if k < n {
        assert IsClass(ms, spans, k);
        OwnStill(ms, m, spans[k]);
      }
    }
    forall i | 0 <= i < |all|
      ensures InClass(all, grown, i)
    {
      if i < |ms| {
        InClassStill(ms, m, spans, grown, i);
      } else {
        assert Within(all[i], grown[n]);
      }
    }
  }

  /** Merging yields exactly the overlap classes of the matches, in order. */
  lemma {:induction false} MergeIsExact(ms: seq<Match>, length: nat)
    requires Ordered(ms, length)
    ensures Apart(Merge(ms), length) && Classes(ms, Merge(ms))
  {
    MergeApart(ms, length);
    if ms != [] {
      var rest, m := ms[..|ms| - 1], ms[|ms| - 1];
      assert ms == rest + [m];
      OrderedPrefix(rest, m, length);
      MergeIsExact(rest, length);
      MergeApart(rest, length);
      ClassesAbsorb(rest, m, Merge(rest), length);
    }
  }

  lemma ClassesAbsorb(ms: seq<Match>, m: Match, spans: seq<Span>, length: nat)
    requires Ordered(ms + [m], length) && Classes(ms, spans) && Apart(spans, length)
    requires spans == [] || spans[|spans| - 1].start <= m.start
    ensures Classes(ms + [m], Absorb(spans, m))
  {
    if spans != [] && m.start < spans[|spans| - 1].end {
      ClassesGrow(ms, m, spans, length);
    } else {
      ClassesNew(ms, m, spans, length);
    }
  }

  ghost predicate Covered(spans: seq<Span>, p: nat) {
    exists k :: 0 <= k < |spans| && spans[k].start <= p < spans[k].end
  }

  ghost predicate Matched(ms: seq<Match>, p: nat) {
    exists i :: 0 <= i < |ms| && ms[i].start <= p < ms[i].end
  }

  /** The spans cover exactly the union of the matches. */
  lemma UnionIsExact(ms: seq<Match>, length: nat, p: nat)
    requires Ordered(ms, length)
    ensures Covered(Merge(ms), p) <==> Matched(ms, p)
  {
    MergeIsExact(ms, length);
    var spans := Merge(ms);
    if i :| 0 <= i < |ms| && ms[i].start <= p < ms[i].end {
      assert InClass(ms, spans, i);
      var k :| 0 <= k < |spans| && Within(ms[i], spans[k]);
      assert spans[k].start <= p < spans[k].end;
    }
    if k :| 0 <= k < |spans| && spans[k].start <= p < spans[k].end {
      assert IsClass(ms, spans, k);
      SpanIsMatched(ms, spans[k], p);
    }
  }

  lemma SpanIsMatched(ms: seq<Match>, s: Span, p: nat)
    requires Connected(ms, s) && StartsWith(ms, s) && s.start <= p < s.end
    requires forall i :: 0 <= i < |ms| ==> ms[i].start < ms[i].end
    ensures Matched(ms, p)
  {
    if p == s.start {
      var i :| 0 <= i < |ms| && Within(ms[i], s) && ms[i].start == s.start;
      assert ms[i].start <= p < ms[i].end;
    } else {
      assert Inside(p, s.start, s.end);
      var i :| 0 <= i < |ms| && Within(ms[i], s) && Inside(p, ms[i].start, ms[i].end);
      assert ms[i].start <= p < ms[i].end;
    }
  }

  // ---- Bytes ------------------------------------------------------------------

  /** How text becomes bytes, and what stands for a masked span. */
  datatype Codec = Codec(encode: string -> seq<nat>, marker: string)

  predicate Joins(c: Codec, a: string, b: string) {
    c.encode(a + b) == c.encode(a) + c.encode(b)
  }

  predicate AtLeastLength(c: Codec, a: string) {
    |c.encode(a)| >= |a|
  }

  /** What masking needs of an encoding. */
  ghost predicate Sound(c: Codec) {
    && c.encode("") == [] && |c.encode(c.marker)| == |c.marker|
    && (forall a, b :: Joins(c, a, b)) && (forall a :: AtLeastLength(c, a))
  }

  const UTF8 := Codec(Encode, "[REDACTED]")

  lemma Utf8IsSound()
    ensures Sound(UTF8) && UTF8.marker == "[REDACTED]"
  {
    MarkerIsAscii();
    AsciiMarkerIsSound(UTF8);
  }

  lemma MarkerIsAscii()
    ensures IsAscii(UTF8.marker)
  {
  }

  /** UTF-8 joins, takes at least a byte for a character, and exactly one for ASCII. */
  lemma AsciiMarkerIsSound(c: Codec)
    requires c.encode == Encode && IsAscii(c.marker)
    ensures Sound(c)
  {
    AsciiSize(c.marker);
    forall a, b
      ensures Joins(c, a, b)
    {
      EncodeAppend(a, b);
    }
  }

  predicate IsAscii(s: string) {
    forall k :: 0 <= k < |s| ==> s[k] < 128 as char
  }

  lemma {:induction false} AsciiSize(s: string)
    requires IsAscii(s)
    ensures Size(s) == |s|
  {
    if s != "" {
      AsciiSize(s[1..]);
    }
  }

  function Bytes(c: Codec, s: string): nat {
    |c.encode(s)|
  }

  // ---- The safe text ----------------------------------------------------------

  function Part(text: string, from: nat, to: nat): string {
    if from <= to <= |text| then text[from..to] else ""
  }

  /** Where the first `k` spans end. */
  function EndAt(spans: seq<Span>, k: nat): nat
    requires k <= |spans|
  {
    if k == 0 then 0 else spans[k - 1].end
  }

  /** Span `k` comes after the spans before it and ends within the text. */
  predicate SpacedAt(spans: seq<Span>, length: nat, k: nat)
    requires k < |spans|
  {
    EndAt(spans, k) <= spans[k].start && spans[k].start + MIN_MATCH <= spans[k].end <= length
  }

  predicate Spaced(spans: seq<Span>, length: nat) {
    forall k :: 0 <= k < |spans| ==> SpacedAt(spans, length, k)
  }

  lemma ApartIsSpaced(spans: seq<Span>, length: nat)
    requires Apart(spans, length)
    ensures Spaced(spans, length)
  {
  }

  /** The text kept before span `k`. */
  function Gap(text: string, spans: seq<Span>, k: nat): string
    requires k < |spans|
  {
    Part(text, EndAt(spans, k), spans[k].start)
  }

  /** The text kept after the last span. */
  function Tail(text: string, spans: seq<Span>): string {
    Part(text, EndAt(spans, |spans|), |text|)
  }

  /** The safe text up to the end of the first `k` spans. */
  function Pieces(c: Codec, text: string, spans: seq<Span>, k: nat): string
    requires k <= |spans|
  {
    if k == 0 then "" else Pieces(c, text, spans, k - 1) + (Gap(text, spans, k - 1) + c.marker)
  }

  function Safe(c: Codec, text: string, spans: seq<Span>): string {
    Pieces(c, text, spans, |spans|) + Tail(text, spans)
  }

  /** The mark of span `k` states its place in the safe text, its size and its rules. */
  predicate Marks(c: Codec, text: string, spans: seq<Span>, marks: seq<Mark>, k: nat)
    requires k < |spans| && k < |marks|
  {
    && marks[k].start == Bytes(c, Pieces(c, text, spans, k)) + Bytes(c, Gap(text, spans, k))
    && marks[k].originalBytes == Bytes(c, Part(text, spans[k].start, spans[k].end))
    && marks[k].rules == spans[k].rules
  }

  predicate MarksUpTo(c: Codec, text: string, spans: seq<Span>, marks: seq<Mark>, k: nat) {
    && |marks| == k <= |spans|
    && forall j :: 0 <= j < k ==> Marks(c, text, spans, marks, j)
  }

  /** The proof states the masked text as it is. */
  predicate IsProof(c: Codec, proof: Proof, text: string, spans: seq<Span>) {
    && proof.originalSha == Sha(text) && proof.originalBytes == Bytes(c, text)
    && proof.safeSha == Sha(Safe(c, text, spans)) && proof.safeBytes == Bytes(c, Safe(c, text, spans))
    && MarksUpTo(c, text, spans, proof.spans, |spans|)
  }

  function Matches(policy: Policy, text: string): seq<Match> {
    SortBy(policy.find(text), MatchKey)
  }

  lemma MatchesOrdered(policy: Policy, text: string)
    requires Finds(policy)
    ensures Ordered(Matches(policy, text), |text|)
    ensures forall k :: 0 <= k < |Matches(policy, text)| ==> IsMatch(Matches(policy, text)[k], |text|, policy)
    ensures |Matches(policy, text)| == |policy.find(text)|
  {
    var found, ms := policy.find(text), Matches(policy, text);
    SortIsCorrect(found, MatchKey);
    assert |multiset(ms)| == |multiset(found)|;
    SameMembers(found, ms);
    forall k | 0 <= k < |ms|
      ensures IsMatch(ms[k], |text|, policy)
    {
      assert ms[k] in found;
    }
    forall i, j | 0 <= i < j < |ms|
      ensures ms[i].start <= ms[j].start
    {
      assert !Less(MatchKey(ms[j]), MatchKey(ms[i]));
    }
  }

  /** The loop over the sorted matches. */
  method MergeAll(ms: seq<Match>) returns (merged: seq<Span>)
    ensures merged == Merge(ms)
  {
    merged := [];
    for k := 0 to |ms|
      invariant merged == Merge(ms[..k])
    {
      assert ms[..k + 1][..k] == ms[..k];
      merged := Absorb(merged, ms[k]);
    }
    assert ms[..|ms|] == ms;
  }

  /** `transform`: masks every match and states where. */
  method Transform(c: Codec, policy: Policy, text: string) returns (safe: string, proof: Proof)
    requires Finds(policy) && Sound(c)
    ensures safe == Safe(c, text, Merge(Matches(policy, text)))
    ensures IsProof(c, proof, text, Merge(Matches(policy, text)))
  {
    var ms := SortBy(policy.find(text), MatchKey);
    MatchesOrdered(policy, text);
    MergeApart(ms, |text|);
    var merged := MergeAll(ms);
    ApartIsSpaced(merged, |text|);
    var marks;
    safe, marks := Render(c, text, merged);
    proof := Proof(Sha(text), Bytes(c, text), Sha(safe), Bytes(c, safe), marks);
  }

  /** What the rendering loop has after `k` spans. */
  datatype Rendering = Rendering(pieces: string, marks: seq<Mark>, cursor: nat, size: nat)

  predicate Rendered(c: Codec, text: string, spans: seq<Span>, k: nat, r: Rendering) {
    && k <= |spans| && r.cursor == EndAt(spans, k) && r.pieces == Pieces(c, text, spans, k)
    && r.size == Bytes(c, r.pieces)
    && MarksUpTo(c, text, spans, r.marks, k)
  }

  lemma MarksNext(c: Codec, text: string, spans: seq<Span>, marks: seq<Mark>, m: Mark)
    requires MarksUpTo(c, text, spans, marks, |marks|) && |marks| < |spans|
    requires m.start == Bytes(c, Pieces(c, text, spans, |marks|)) + Bytes(c, Gap(text, spans, |marks|))
    requires m.originalBytes == Bytes(c, Part(text, spans[|marks|].start, spans[|marks|].end))
             && m.rules == spans[|marks|].rules
    ensures MarksUpTo(c, text, spans, marks + [m], |marks| + 1)
  {
    var more := marks + [m];
    forall j | 0 <= j < |more|
      ensures Marks(c, text, spans, more, j)
    {
      if j < |marks| {
        assert Marks(c, text, spans, marks, j) && more[j] == marks[j];
      } else {
        assert more[j] == m;
      }
    }
  }

  lemma NextPiece(c: Codec, text: string, spans: seq<Span>, k: nat)
    requires Sound(c) && k < |spans|
    ensures Pieces(c, text, spans, k + 1) == Pieces(c, text, spans, k) + (Gap(text, spans, k) + c.marker)
    ensures Bytes(c, Pieces(c, text, spans, k + 1)) ==
              Bytes(c, Pieces(c, text, spans, k)) + Bytes(c, Gap(text, spans, k)) + |c.marker|
  {
    assert Joins(c, Pieces(c, text, spans, k), Gap(text, spans, k) + c.marker)
           && Joins(c, Gap(text, spans, k), c.marker);
  }

  lemma NextBytes(c: Codec, text: string, spans: seq<Span>, k: nat)
    requires Sound(c) && k < |spans|
    ensures Bytes(c, Pieces(c, text, spans, k + 1)) ==
              Bytes(c, Pieces(c, text, spans, k)) + Bytes(c, Gap(text, spans, k)) + |c.marker|
  {
    NextPiece(c, text, spans, k);
  }

  /** Masks span `k`. */
  method MaskSpan(c: Codec, text: string, ghost spans: seq<Span>, ghost k: nat, s: Span, r: Rendering)
    returns (r': Rendering)
    requires Sound(c) && Rendered(c, text, spans, k, r) && k < |spans| && s == spans[k] && SpacedAt(spans, |text|, k)
    ensures Rendered(c, text, spans, k + 1, r')
  {
    var prefix := text[r.cursor..s.start];
    NextPiece(c, text, spans, k);
    assert prefix == Gap(text, spans, k);
    var size := r.size + Bytes(c, prefix);
    var mark := Mark(size, Bytes(c, text[s.start..s.end]), s.rules);
    MarksNext(c, text, spans, r.marks, mark);
    r' := Rendering(r.pieces + (prefix + c.marker), r.marks + [mark], s.end, size + |c.marker|);
  }

  method Render(c: Codec, text: string, spans: seq<Span>) returns (safe: string, marks: seq<Mark>)
    requires Spaced(spans, |text|) && Sound(c)
    ensures safe == Safe(c, text, spans) && MarksUpTo(c, text, spans, marks, |spans|)
  {
    var r := Rendering("", [], 0, 0);
    for k := 0 to |spans|
      invariant Rendered(c, text, spans, k, r) && r.cursor <= |text|
    {
      assert SpacedAt(spans, |text|, k);
      r := MaskSpan(c, text, spans, k, spans[k], r);
    }
    safe, marks := r.pieces + text[r.cursor..], r.marks;
  }

  // ---- What is kept and what is masked ------------------------------------------

  /** Where the character at `p`, past the first `k` spans, stands in the safe text. */
  function Place(c: Codec, text: string, spans: seq<Span>, k: nat, p: nat): nat
    requires k <= |spans| && EndAt(spans, k) <= p
  {
    |Pieces(c, text, spans, k)| + (p - EndAt(spans, k))
  }

  lemma ChunkIsHeld(c: Codec, text: string, spans: seq<Span>, k: nat)
    requires k < |spans|
    ensures Pieces(c, text, spans, k) + (Gap(text, spans, k) + c.marker) <= Safe(c, text, spans)
  {
    PiecesHold(c, text, spans, k + 1, |spans|);
  }

  lemma {:induction false} PiecesHold(c: Codec, text: string, spans: seq<Span>, j: nat, k: nat)
    requires j <= k <= |spans|
    ensures Pieces(c, text, spans, j) <= Pieces(c, text, spans, k)
    decreases k
  {
    if j < k {
      PiecesHold(c, text, spans, j, k - 1);
    }
  }

  /** The end of the gap before span `k`, or after the last one. */
  function GapEnd(text: string, spans: seq<Span>, k: nat): nat
    requires k <= |spans|
  {
    if k == |spans| then |text| else spans[k].start
  }

  lemma HeldAt(pieces: string, chunk: string, safe: string, i: nat)
    requires pieces + chunk <= safe && i < |chunk|
    ensures |pieces| + i < |safe| && safe[|pieces| + i] == chunk[i]
  {
    assert (pieces + chunk)[|pieces| + i] == chunk[i];
  }

  lemma TailIsHeld(pieces: string, tail: string)
    ensures pieces + tail <= pieces + tail
  {
  }

  lemma GapHeld(pieces: string, gap: string, marker: string, safe: string, i: nat)
    requires pieces + (gap + marker) <= safe && i < |gap|
    ensures |pieces| + i < |safe| && safe[|pieces| + i] == gap[i]
  {
    HeldAt(pieces, gap + marker, safe, i);
  }

  lemma MarkerHeld(pieces: string, gap: string, marker: string, safe: string, i: nat)
    requires pieces + (gap + marker) <= safe && i < |marker|
    ensures |pieces| + |gap| + i < |safe| && safe[|pieces| + |gap| + i] == marker[i]
  {
    HeldAt(pieces, gap + marker, safe, |gap| + i);
  }

  lemma PartAt(text: string, from: nat, to: nat, i: nat)
    requires from <= to <= |text|
    ensures |Part(text, from, to)| == to - from
    ensures i < to - from ==> Part(text, from, to)[i] == text[from + i]
  {
  }

  lemma KeptInGap(c: Codec, text: string, spans: seq<Span>, k: nat, i: nat)
    requires k < |spans| && i < |Gap(text, spans, k)|
    ensures var at := |Pieces(c, text, spans, k)| + i;
            at < |Safe(c, text, spans)| && Safe(c, text, spans)[at] == Gap(text, spans, k)[i]
  {
    ChunkIsHeld(c, text, spans, k);
    GapHeld(Pieces(c, text, spans, k), Gap(text, spans, k), c.marker, Safe(c, text, spans), i);
  }

  lemma KeptInTail(c: Codec, text: string, spans: seq<Span>, i: nat)
    requires i < |Tail(text, spans)|
    ensures var at := |Pieces(c, text, spans, |spans|)| + i;
            at < |Safe(c, text, spans)| && Safe(c, text, spans)[at] == Tail(text, spans)[i]
  {
    TailIsHeld(Pieces(c, text, spans, |spans|), Tail(text, spans));
    HeldAt(Pieces(c, text, spans, |spans|), Tail(text, spans), Safe(c, text, spans), i);
  }

  /** Every character between the spans is kept, in its place. */
  lemma KeptInPlace(c: Codec, text: string, spans: seq<Span>, k: nat, p: nat)
    requires Spaced(spans, |text|) && k <= |spans| && EndAt(spans, k) <= p < GapEnd(text, spans, k)
    ensures var at := Place(c, text, spans, k, p);
            p < |text| && at < |Safe(c, text, spans)| && Safe(c, text, spans)[at] == text[p]
  {
    if k < |spans| {
      assert SpacedAt(spans, |text|, k);
      GapPlace(c, text, spans, k, p);
    } else {
      TailPlace(c, text, spans, p);
    }
  }

  lemma GapPlace(c: Codec, text: string, spans: seq<Span>, k: nat, p: nat)
    requires k < |spans| && EndAt(spans, k) <= p < spans[k].start <= |text|
    ensures var at := Place(c, text, spans, k, p); at < |Safe(c, text, spans)| && Safe(c, text, spans)[at] == text[p]
  {
    PartAt(text, EndAt(spans, k), spans[k].start, p - EndAt(spans, k));
    KeptInGap(c, text, spans, k, p - EndAt(spans, k));
  }

  lemma TailPlace(c: Codec, text: string, spans: seq<Span>, p: nat)
    requires EndAt(spans, |spans|) <= p < |text|
    ensures var at := Place(c, text, spans, |spans|, p);
            at < |Safe(c, text, spans)| && Safe(c, text, spans)[at] == text[p]
  {
    PartAt(text, EndAt(spans, |spans|), |text|, p - EndAt(spans, |spans|));
    KeptInTail(c, text, spans, p - EndAt(spans, |spans|));
  }

  /** Every span is replaced by the marker, right after what precedes it. */
  lemma SpanIsMasked(c: Codec, text: string, spans: seq<Span>, k: nat, i: nat)
    requires Spaced(spans, |text|) && k < |spans| && EndAt(spans, k) <= spans[k].start && i < |c.marker|
    ensures var at := Place(c, text, spans, k, spans[k].start) + i;
            at < |Safe(c, text, spans)| && Safe(c, text, spans)[at] == c.marker[i]
  {
    MarkerAt(c, text, spans, k, i);
    GapLength(text, spans, k);
  }

  lemma MarkerAt(c: Codec, text: string, spans: seq<Span>, k: nat, i: nat)
    requires k < |spans| && i < |c.marker|
    ensures var at := |Pieces(c, text, spans, k)| + |Gap(text, spans, k)| + i;
            at < |Safe(c, text, spans)| && Safe(c, text, spans)[at] == c.marker[i]
  {
    ChunkIsHeld(c, text, spans, k);
    MarkerHeld(Pieces(c, text, spans, k), Gap(text, spans, k), c.marker, Safe(c, text, spans), i);
  }

  lemma GapLength(text: string, spans: seq<Span>, k: nat)
    requires Spaced(spans, |text|) && k < |spans|
    ensures EndAt(spans, k) <= spans[k].start && |Gap(text, spans, k)| == spans[k].start - EndAt(spans, k)
  {
    assert SpacedAt(spans, |text|, k);
  }

  // ---- The check ----------------------------------------------------------------

  /** Bytes the first `k` spans took off the text. */
  function Delta(marks: seq<Mark>, markerSize: nat, k: nat): int
    requires k <= |marks|
  {
    if k == 0 then 0 else Delta(marks, markerSize, k - 1) + marks[k - 1].originalBytes - markerSize
  }

  predicate MarkOk(data: seq<nat>, marker: seq<nat>, policy: Policy, marks: seq<Mark>, k: nat)
    requires k < |marks|
  {
    && (if k == 0 then 0 else marks[k - 1].start + |marker|) <= marks[k].start
    && MarkStated(policy, marks[k]) && Shows(data, marker, marks[k].start)
  }

  predicate MarkStated(policy: Policy, m: Mark) {
    && m.originalBytes >= MIN_MATCH && m.rules != {} && (forall r :: r in m.rules ==> r < RULES)
    && (HOST_VALUE in m.rules ==> policy.hasValues)
  }

  predicate Shows(data: seq<nat>, marker: seq<nat>, at: nat) {
    at + |marker| <= |data| && data[at..at + |marker|] == marker
  }

  predicate MarksOk(data: seq<nat>, marker: seq<nat>, policy: Policy, marks: seq<Mark>) {
    forall k :: 0 <= k < |marks| ==> MarkOk(data, marker, policy, marks, k)
  }

  predicate Accepts(c: Codec, safe: string, proof: Proof, policy: Policy) {
    && proof.safeBytes == Bytes(c, safe) && proof.safeSha == Sha(safe)
    && MarksOk(c.encode(safe), c.encode(c.marker), policy, proof.spans)
    && proof.originalBytes == Bytes(c, safe) + Delta(proof.spans, Bytes(c, c.marker), |proof.spans|)
    && (proof.spans != [] <==> proof.originalSha != proof.safeSha)
    && policy.find(safe) == []
  }

  /** The loop over the marks. */
  method VerifyMarks(data: seq<nat>, marker: seq<nat>, policy: Policy, marks: seq<Mark>) returns (ok: bool, delta: int)
    ensures ok <==> MarksOk(data, marker, policy, marks)
    ensures ok ==> delta == Delta(marks, |marker|, |marks|)
  {
    var end := 0;
    delta := 0;
    for k := 0 to |marks|
      invariant forall j :: 0 <= j < k ==> MarkOk(data, marker, policy, marks, j)
      invariant end == (if k == 0 then 0 else marks[k - 1].start + |marker|) && delta == Delta(marks, |marker|, k)
    {
      var m := marks[k];
      if m.start < end || !MarkStated(policy, m) || !Shows(data, marker, m.start) {
        assert !MarkOk(data, marker, policy, marks, k);
        return false, delta;
      }
      end := m.start + |marker|;
      delta := delta + m.originalBytes - |marker|;
    }
    ok := true;
  }

  /** `verify_text`. */
  method VerifyText(c: Codec, safe: string, proof: Proof, policy: Policy) returns (ok: bool)
    ensures ok <==> Accepts(c, safe, proof, policy)
  {
    if proof.safeBytes != Bytes(c, safe) || proof.safeSha != Sha(safe) {
      return false;
    }
    var delta;
    ok, delta := VerifyMarks(c.encode(safe), c.encode(c.marker), policy, proof.spans);
    if !ok || proof.originalBytes != Bytes(c, safe) + delta
       || (proof.spans != []) != (proof.originalSha != proof.safeSha) {
      return false;
    }
    ok := policy.find(safe) == [];
  }

  // ---- What any accepted proof says ---------------------------------------------

  /** Bytes of the originals of the first `k` marks. */
  function Originals(marks: seq<Mark>, k: nat): nat
    requires k <= |marks|
  {
    if k == 0 then 0 else Originals(marks, k - 1) + marks[k - 1].originalBytes
  }

  lemma {:induction false} DeltaIsBalance(marks: seq<Mark>, size: nat, k: nat)
    requires k <= |marks|
    ensures Delta(marks, size, k) == Originals(marks, k) - k * size
    decreases k
  {
    if k > 0 {
      DeltaIsBalance(marks, size, k - 1);
      assert k * size == (k - 1) * size + size;
    }
  }

  lemma {:induction false} MarksApart(data: seq<nat>, marker: seq<nat>, policy: Policy, marks: seq<Mark>, i: nat,
                                      j: nat)
    requires MarksOk(data, marker, policy, marks) && i < j < |marks|
    ensures marks[i].start + |marker| <= marks[j].start
    decreases j
  {
    assert MarkOk(data, marker, policy, marks, j);
    if i < j - 1 {
      MarksApart(data, marker, policy, marks, i, j - 1);
      assert MarkOk(data, marker, policy, marks, j - 1);
    }
  }

  /** Whoever wrote it, an accepted proof is about this text: it gives its size and digest;
      every mark points at a marker in it, no two overlap, and each stands for at least the
      shortest match and names rules there are; outside the markers the text has as many
      bytes as the claimed original outside the masked spans; the digests differ exactly if
      something was masked; and nothing is left in the text that the policy finds. */
  lemma AcceptedProof(c: Codec, safe: string, proof: Proof, policy: Policy)
    requires Accepts(c, safe, proof, policy)
    ensures proof.safeBytes == |c.encode(safe)| && proof.safeSha == Sha(safe)
    ensures forall k :: 0 <= k < |proof.spans| ==>
              var m := proof.spans[k];
              && m.start + |c.encode(c.marker)| <= |c.encode(safe)|
              && c.encode(safe)[m.start..m.start + |c.encode(c.marker)|] == c.encode(c.marker)
              && m.originalBytes >= MIN_MATCH && m.rules != {}
              && forall r :: r in m.rules ==> r < RULES && (r == HOST_VALUE ==> policy.hasValues)
    ensures forall i, j :: 0 <= i < j < |proof.spans| ==>
              proof.spans[i].start + |c.encode(c.marker)| <= proof.spans[j].start
    ensures proof.originalBytes - Originals(proof.spans, |proof.spans|) ==
              proof.safeBytes - |proof.spans| * |c.encode(c.marker)|
    ensures proof.spans == [] <==> proof.originalSha == proof.safeSha
    ensures policy.find(safe) == []
  {
    var data, marker := c.encode(safe), c.encode(c.marker);
    forall k | 0 <= k < |proof.spans|
      ensures MarkStated(policy, proof.spans[k]) && Shows(data, marker, proof.spans[k].start)
    {
      assert MarkOk(data, marker, policy, proof.spans, k);
    }
    forall i, j | 0 <= i < j < |proof.spans|
      ensures proof.spans[i].start + |marker| <= proof.spans[j].start
    {
      MarksApart(data, marker, policy, proof.spans, i, j);
    }
    DeltaIsBalance(proof.spans, |marker|, |proof.spans|);
  }

  // ---- Honest proofs are accepted -----------------------------------------------

  /** What changes from span to span by what a mark says adds up to `Delta`. */
  lemma {:induction false} DeltaAddsUp(marks: seq<Mark>, size: nat, f: nat -> int, k: nat)
    requires k <= |marks| && forall j: nat :: j < k ==> f(j + 1) - f(j) == marks[j].originalBytes - size
    ensures f(k) - f(0) == Delta(marks, size, k)
    decreases k
  {
    if k > 0 {
      DeltaAddsUp(marks, size, f, k - 1);
      assert f(k - 1 + 1) - f(k - 1) == marks[k - 1].originalBytes - size;
    }
  }

  /** What the text has more than the safe text up to the end of the first `k` spans. */
  function ExcessAt(c: Codec, text: string, spans: seq<Span>, k: nat): int {
    if k <= |spans| then UpTo(c, text, spans, k) - Bytes(c, Pieces(c, text, spans, k)) else 0
  }

  function Excess(c: Codec, text: string, spans: seq<Span>): nat -> int {
    (k: nat) => ExcessAt(c, text, spans, k)
  }

  lemma NothingAtFirst(c: Codec, text: string, spans: seq<Span>)
    requires c.encode("") == []
    ensures Excess(c, text, spans)(0) == 0
  {
    assert Part(text, 0, 0) == "";
  }

  /** The bytes of the text up to a span's end, from the safe text and the marks. */
  lemma {:induction false} BytesUpTo(c: Codec, text: string, spans: seq<Span>, marks: seq<Mark>)
    requires Sound(c) && Spaced(spans, |text|) && |spans| == |marks|
    requires forall j :: 0 <= j < |marks| ==>
               marks[j].originalBytes == Bytes(c, Part(text, spans[j].start, spans[j].end))
    ensures Excess(c, text, spans)(|spans|) == Delta(marks, |c.marker|, |spans|)
  {
    var f := Excess(c, text, spans);
    forall j: nat | j < |marks|
      ensures f(j + 1) - f(j) == marks[j].originalBytes - |c.marker|
    {
      StepBytes(c, text, spans, j);
    }
    DeltaAddsUp(marks, |c.marker|, f, |spans|);
    NothingAtFirst(c, text, spans);
  }

  /** The bytes of the text before the end of the first `k` spans. */
  function UpTo(c: Codec, text: string, spans: seq<Span>, k: nat): nat
    requires k <= |spans|
  {
    Bytes(c, Part(text, 0, EndAt(spans, k)))
  }

  lemma StepBytes(c: Codec, text: string, spans: seq<Span>, k: nat)
    requires Sound(c) && Spaced(spans, |text|) && k < |spans|
    ensures UpTo(c, text, spans, k + 1) - Bytes(c, Pieces(c, text, spans, k + 1))
            == UpTo(c, text, spans, k) - Bytes(c, Pieces(c, text, spans, k))
               + Bytes(c, Part(text, spans[k].start, spans[k].end)) - |c.marker|
  {
    assert SpacedAt(spans, |text|, k);
    ThreeParts(c, text, EndAt(spans, k), spans[k].start, spans[k].end);
    NextBytes(c, text, spans, k);
  }

  lemma ThreeParts(c: Codec, text: string, e: nat, start: nat, end: nat)
    requires Sound(c) && e <= start <= end <= |text|
    ensures Bytes(c, Part(text, 0, end)) ==
              Bytes(c, Part(text, 0, e)) + Bytes(c, Part(text, e, start)) + Bytes(c, Part(text, start, end))
  {
    TwoParts(c, text, start, end);
    TwoParts(c, text, e, start);
  }

  lemma TwoParts(c: Codec, text: string, middle: nat, end: nat)
    requires Sound(c) && middle <= end <= |text|
    ensures Bytes(c, Part(text, 0, end)) == Bytes(c, Part(text, 0, middle)) + Bytes(c, Part(text, middle, end))
  {
    assert text[0..end] == text[0..middle] + text[middle..end];
    assert Joins(c, text[0..middle], text[middle..end]);
  }

  lemma AllBytes(c: Codec, text: string, spans: seq<Span>, marks: seq<Mark>)
    requires Sound(c) && Spaced(spans, |text|) && MarksUpTo(c, text, spans, marks, |spans|)
    ensures Bytes(c, text) == Bytes(c, Safe(c, text, spans)) + Delta(marks, |c.marker|, |spans|)
  {
    forall j | 0 <= j < |marks|
      ensures marks[j].originalBytes == Bytes(c, Part(text, spans[j].start, spans[j].end))
    {
      assert Marks(c, text, spans, marks, j);
    }
    BytesUpTo(c, text, spans, marks);
    TailBytes(c, Pieces(c, text, spans, |spans|), text, spans);
  }

  lemma TailBytes(c: Codec, pieces: string, text: string, spans: seq<Span>)
    requires Sound(c) && Spaced(spans, |text|)
    ensures Bytes(c, text) == Bytes(c, Part(text, 0, EndAt(spans, |spans|))) + Bytes(c, Tail(text, spans))
    ensures Bytes(c, pieces + Tail(text, spans)) == Bytes(c, pieces) + Bytes(c, Tail(text, spans))
  {
    var e := EndAt(spans, |spans|);
    if |spans| > 0 {
      assert SpacedAt(spans, |text|, |spans| - 1);
    }
    TwoParts(c, text, e, |text|);
    assert Part(text, 0, |text|) == text;
    assert Joins(c, pieces, Tail(text, spans));
  }

  lemma Slices<T>(a: seq<T>, b: seq<T>, c: seq<T>)
    ensures (a + b + c)[|a|..|a| + |b|] == b
  {
  }

  lemma HeldShows(c: Codec, pieces: string, gap: string, safe: string)
    requires Sound(c) && pieces + (gap + c.marker) <= safe
    ensures Shows(c.encode(safe), c.encode(c.marker), Bytes(c, pieces) + Bytes(c, gap))
  {
    var before := pieces + gap;
    var rest := safe[|before + c.marker|..];
    assert pieces + (gap + c.marker) == before + c.marker;
    assert safe == before + c.marker + rest;
    assert Joins(c, before + c.marker, rest) && Joins(c, before, c.marker) && Joins(c, pieces, gap);
    Slices(c.encode(before), c.encode(c.marker), c.encode(rest));
  }

  lemma MarkStart(c: Codec, text: string, spans: seq<Span>, marks: seq<Mark>, k: nat)
    requires MarksUpTo(c, text, spans, marks, |spans|) && k < |spans|
    ensures marks[k].start == Bytes(c, Pieces(c, text, spans, k)) + Bytes(c, Gap(text, spans, k))
  {
    assert Marks(c, text, spans, marks, k);
  }

  /** Markers do not overlap. */
  lemma MarksInOrder(c: Codec, text: string, spans: seq<Span>, marks: seq<Mark>, k: nat)
    requires Sound(c) && MarksUpTo(c, text, spans, marks, |spans|) && k + 1 < |spans|
    ensures marks[k].start + |c.marker| <= marks[k + 1].start
  {
    MarkStart(c, text, spans, marks, k);
    MarkStart(c, text, spans, marks, k + 1);
    NextBytes(c, text, spans, k);
  }

  lemma MarkShows(c: Codec, text: string, spans: seq<Span>, marks: seq<Mark>, k: nat)
    requires Sound(c) && MarksUpTo(c, text, spans, marks, |spans|) && k < |spans|
    ensures Shows(c.encode(Safe(c, text, spans)), c.encode(c.marker), marks[k].start)
  {
    MarkStart(c, text, spans, marks, k);
    PlaceShows(c, text, spans, k);
  }

  lemma PlaceShows(c: Codec, text: string, spans: seq<Span>, k: nat)
    requires Sound(c) && k < |spans|
    ensures Shows(c.encode(Safe(c, text, spans)), c.encode(c.marker),
                  Bytes(c, Pieces(c, text, spans, k)) + Bytes(c, Gap(text, spans, k)))
  {
    ChunkIsHeld(c, text, spans, k);
    HeldShows(c, Pieces(c, text, spans, k), Gap(text, spans, k), Safe(c, text, spans));
  }

  lemma MarkIsStated(c: Codec, text: string, spans: seq<Span>, marks: seq<Mark>, k: nat, policy: Policy)
    requires Sound(c) && Spaced(spans, |text|) && MarksUpTo(c, text, spans, marks, |spans|) && k < |spans|
    requires spans[k].rules != {}
    requires forall r :: r in spans[k].rules ==> r < RULES && (r == HOST_VALUE ==> policy.hasValues)
    ensures MarkStated(policy, marks[k])
  {
    assert Marks(c, text, spans, marks, k) && SpacedAt(spans, |text|, k);
    assert AtLeastLength(c, Part(text, spans[k].start, spans[k].end));
  }

  /** The rules of every span are rules the policy has. */
  lemma SpanRules(policy: Policy, ms: seq<Match>, length: nat, k: nat)
    requires Ordered(ms, length) && k < |Merge(ms)|
    requires forall i :: 0 <= i < |ms| ==> IsMatch(ms[i], length, policy)
    ensures Merge(ms)[k].rules != {}
    ensures forall r :: r in Merge(ms)[k].rules ==> r < RULES && (r == HOST_VALUE ==> policy.hasValues)
  {
    MergeIsExact(ms, length);
    var s := Merge(ms)[k];
    assert IsClass(ms, Merge(ms), k);
    var i :| 0 <= i < |ms| && Within(ms[i], s) && ms[i].start == s.start;
    assert ms[i].rule in s.rules;
    forall r | r in s.rules
      ensures r < RULES && (r == HOST_VALUE ==> policy.hasValues)
    {
      var j :| 0 <= j < |ms| && Within(ms[j], s) && ms[j].rule == r;
    }
  }

  lemma AllMarksOk(c: Codec, policy: Policy, text: string, spans: seq<Span>, marks: seq<Mark>)
    requires Sound(c) && Finds(policy) && spans == Merge(Matches(policy, text)) && Spaced(spans, |text|)
    requires MarksUpTo(c, text, spans, marks, |spans|)
    ensures MarksOk(c.encode(Safe(c, text, spans)), c.encode(c.marker), policy, marks)
  {
    MatchesOrdered(policy, text);
    forall k | 0 <= k < |marks|
      ensures MarkOk(c.encode(Safe(c, text, spans)), c.encode(c.marker), policy, marks, k)
    {
      SpanRules(policy, Matches(policy, text), |text|, k);
      if k > 0 {
        MarksInOrder(c, text, spans, marks, k - 1);
      }
      MarkShows(c, text, spans, marks, k);
      MarkIsStated(c, text, spans, marks, k, policy);
    }
  }

  /** The verifier accepts what `transform` states exactly when masking changed the
      text, unless there was nothing to mask, and left nothing new to mask. */
  lemma HonestProofAccepted(c: Codec, policy: Policy, text: string, safe: string, proof: Proof)
    requires Sound(c) && Finds(policy)
    requires safe == Safe(c, text, Merge(Matches(policy, text)))
             && IsProof(c, proof, text, Merge(Matches(policy, text)))
    ensures Accepts(c, safe, proof, policy) <==> (proof.spans == [] || safe != text) && policy.find(safe) == []
  {
    var spans := Merge(Matches(policy, text));
    MatchesOrdered(policy, text);
    MergeApart(Matches(policy, text), |text|);
    ApartIsSpaced(spans, |text|);
    AllMarksOk(c, policy, text, spans, proof.spans);
    AllBytes(c, text, spans, proof.spans);
    if spans == [] {
      assert Safe(c, text, spans) == text;
    }
  }
}
