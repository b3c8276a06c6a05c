// Shrinking a change analysis to a byte bound.

/** `ChangesDocument::fit_to_bytes` of analysis.rs, for an arbitrary size function. */
module ReportFit {
  import opened Ranking
  import opened Evidence

  datatype Name = Name(selector: string, status: nat)

  datatype Symbol = Symbol(name: Name, callers: seq<string>, entryPoints: seq<string>, tests: seq<Finding>)

  datatype NotAnalysed = NotAnalysed(name: Name, reason: string)

  datatype Flag = Flag(what: string, bound: string, value: nat)

  datatype Counts = Counts(analysed: nat, notAnalysed: nat, callers: nat, entryPoints: nat, candidateTests: nat)

  /** What a document serializes. */
  datatype Doc = Doc(symbols: seq<Symbol>, notAnalysed: seq<NotAnalysed>, unresolved: seq<string>,
                     outOfScope: seq<string>,
                     tests: seq<Row>, counts: Counts, truncation: seq<Flag>, truncated: bool)

  const BOUND := "max_response_bytes"

  // ---- Lists ------------------------------------------------------------------

  function Truncate<T>(s: seq<T>, cap: nat): (r: seq<T>)
    ensures r <= s && |r| == if |s| <= cap then |s| else cap
  {
    if |s| <= cap then s else s[..cap]
  }

  function Longest(s: Symbol): nat {
    Max(|s.callers|, Max(|s.entryPoints|, |s.tests|))
  }

  function Max(a: nat, b: nat): nat {
    if a < b then b else a
  }

  function Entries(symbols: seq<Symbol>): nat {
    if symbols == [] then 0 else
    var s := symbols[|symbols| - 1];
    Entries(symbols[..|symbols| - 1]) + |s.callers| + |s.entryPoints| + |s.tests|
  }

  function CallerCount(symbols: seq<Symbol>): nat {
    if symbols == [] then 0 else CallerCount(symbols[..|symbols| - 1]) + |symbols[|symbols| - 1].callers|
  }

  function EntryPointCount(symbols: seq<Symbol>): nat {
    if symbols == [] then 0 else EntryPointCount(symbols[..|symbols| - 1]) + |symbols[|symbols| - 1].entryPoints|
  }

  function CutSymbol(s: Symbol, cap: nat): Symbol {
    Symbol(s.name, Truncate(s.callers, cap), Truncate(s.entryPoints, cap), Truncate(s.tests, cap))
  }

  function CutSymbols(symbols: seq<Symbol>, cap: nat): seq<Symbol> {
    seq(|symbols|, i requires 0 <= i < |symbols| => CutSymbol(symbols[i], cap))
  }

  /** The tests kept for the analysed symbols, tagged with their symbol. */
  function AllTests(symbols: seq<Symbol>): seq<Finding> {
    if symbols == [] then [] else
    var s := symbols[|symbols| - 1];
    AllTests(symbols[..|symbols| - 1])
    + seq(|s.tests|, i requires 0 <= i < |s.tests| => s.tests[i].(tag := s.name.selector))
  }

  lemma {:induction false} CutShrinks(symbols: seq<Symbol>, cap: nat)
    ensures Entries(CutSymbols(symbols, cap)) <= Entries(symbols)
    ensures (exists k :: 0 <= k < |symbols| && Longest(symbols[k]) > cap) ==>
              Entries(CutSymbols(symbols, cap)) < Entries(symbols)
  {
    if symbols != [] {
      var n := |symbols| - 1;
      CutShrinks(symbols[..n], cap);
      assert CutSymbols(symbols, cap)[..n] == CutSymbols(symbols[..n], cap);
      if k :| 0 <= k < |symbols| && Longest(symbols[k]) > cap {
        if k < n {
          assert Longest(symbols[..n][k]) > cap;
        }
      }
    }
  }

  lemma {:induction false} DropShrinks(symbols: seq<Symbol>, keep: nat)
    requires keep <= |symbols|
    ensures Entries(symbols[..keep]) <= Entries(symbols)
    decreases |symbols|
  {
    if keep < |symbols| {
      var n := |symbols| - 1;
      DropShrinks(symbols[..n], keep);
      assert symbols[..n][..keep] == symbols[..keep];
    } else {
      assert symbols[..keep] == symbols;
    }
  }

  // ---- Names ------------------------------------------------------------------

  function Names(symbols: seq<Symbol>): seq<Name> {
    seq(|symbols|, i requires 0 <= i < |symbols| => symbols[i].name)
  }

  function Listed(entries: seq<NotAnalysed>): seq<Name> {
    seq(|entries|, i requires 0 <= i < |entries| => entries[i].name)
  }

  function Moved(symbols: seq<Symbol>): seq<NotAnalysed> {
    seq(|symbols|, i requires 0 <= i < |symbols| => NotAnalysed(symbols[i].name, BOUND))
  }

  /** All names of the document, analysed or not. */
  function AllNames(symbols: seq<Symbol>, entries: seq<NotAnalysed>): multiset<Name> {
    multiset(Names(symbols)) + multiset(Listed(entries))
  }

  /** Moving the last symbols to the list loses and repeats no name. */
  lemma MoveKeepsNames(symbols: seq<Symbol>, entries: seq<NotAnalysed>, keep: nat)
    requires keep <= |symbols|
    ensures AllNames(symbols[..keep], entries + Moved(symbols[keep..])) == AllNames(symbols, entries)
  {
    assert Names(symbols) == Names(symbols[..keep]) + Names(symbols[keep..]);
    assert Listed(Moved(symbols[keep..])) == Names(symbols[keep..]);
    assert Listed(entries + Moved(symbols[keep..])) == Listed(entries) + Names(symbols[keep..]);
  }

  lemma CutKeepsNames(symbols: seq<Symbol>, cap: nat)
    ensures Names(CutSymbols(symbols, cap)) == Names(symbols)
  {
  }

  /** The surviving symbols are the first ones, and all their lists are cut at one length. */
  ghost predicate Survives(symbols: seq<Symbol>, original: seq<Symbol>) {
    |symbols| <= |original| && exists cap :: CutAlike(symbols, original, cap)
  }

  predicate CutAlike(symbols: seq<Symbol>, original: seq<Symbol>, cap: nat)
    requires |symbols| <= |original|
  {
    forall i :: 0 <= i < |symbols| ==> CutTo(symbols[i], original[i], cap)
  }

  /** The first `cap` entries of each list, or all if they are fewer. */
  predicate CutTo(s: Symbol, o: Symbol, cap: nat) {
    && s.name == o.name && s.callers <= o.callers && s.entryPoints <= o.entryPoints && s.tests <= o.tests
    && |s.callers| == Min(|o.callers|, cap) && |s.entryPoints| == Min(|o.entryPoints|, cap)
    && |s.tests| == Min(|o.tests|, cap)
  }

  lemma CutTwice(s: Symbol, o: Symbol, first: nat, second: nat)
    requires CutTo(s, o, first)
    ensures CutTo(CutSymbol(s, second), o, Min(first, second)) && CutTo(CutSymbol(o, second), o, second)
  {
  }

  /** The length of the longest list of all, or zero without one. */
  predicate IsLongest(symbols: seq<Symbol>, longest: nat) {
    && (forall k :: 0 <= k < |symbols| ==>
          |symbols[k].callers| <= longest && |symbols[k].entryPoints| <= longest && |symbols[k].tests| <= longest)
    && (longest > 0 ==>
          exists k :: 0 <= k < |symbols|
            && longest in {|symbols[k].callers|, |symbols[k].entryPoints|, |symbols[k].tests|})
  }

  /** The callers of all symbols, in order. */
  function AllCallers(symbols: seq<Symbol>): seq<string> {
    if symbols == [] then [] else AllCallers(symbols[..|symbols| - 1]) + symbols[|symbols| - 1].callers
  }

  function AllEntryPoints(symbols: seq<Symbol>): seq<string> {
    if symbols == [] then [] else AllEntryPoints(symbols[..|symbols| - 1]) + symbols[|symbols| - 1].entryPoints
  }

  lemma {:induction false} CountsCount(symbols: seq<Symbol>)
    ensures CallerCount(symbols) == |AllCallers(symbols)| && EntryPointCount(symbols) == |AllEntryPoints(symbols)|
    ensures Entries(symbols) == |AllCallers(symbols)| + |AllEntryPoints(symbols)| + |AllTests(symbols)|
  {
    if symbols != [] {
      CountsCount(symbols[..|symbols| - 1]);
    }
  }

  // ---- Flags ------------------------------------------------------------------

  /** Text as a key that sorts before every longer text it starts. */
  function TextKey(s: string): seq<nat> {
    seq(|s|, k requires 0 <= k < |s| => s[k] as nat + 1) + [0]
  }

  function FlagKey(f: Flag): seq<nat> {
    TextKey(f.what) + TextKey(f.bound) + [f.value]
  }

  function Dedup(s: seq<Flag>): (r: seq<Flag>)
    ensures forall f :: f in r <==> f in s
    ensures forall i :: 0 <= i < |r| - 1 ==> r[i] != r[i + 1]
    ensures s != [] ==> r != [] && r[0] == s[0]
  {
    if |s| < 2 then s
    else
      var rest := Dedup(s[1..]);
      assert s == [s[0]] + s[1..];
      if s[0] == s[1] then rest else [s[0]] + rest
  }

  function WithFlags(truncation: seq<Flag>, flags: seq<Flag>): seq<Flag> {
    Dedup(SortBy(truncation + flags, FlagKey))
  }

  lemma FlagsKept(truncation: seq<Flag>, flags: seq<Flag>)
    ensures forall f :: f in WithFlags(truncation, flags) <==> f in truncation || f in flags
  {
    SortIsCorrect(truncation + flags, FlagKey);
    SameMembers(truncation + flags, SortBy(truncation + flags, FlagKey));
  }

  lemma {:induction false} TextKeyEnds(a: string, b: string, x: seq<nat>, y: seq<nat>)
    requires TextKey(a) + x == TextKey(b) + y
    ensures a == b && x == y
    decreases |a|
  {
    var l, r := TextKey(a) + x, TextKey(b) + y;
    assert l[0] == r[0];
    if a != "" && b != "" {
      assert TextKey(a) == [a[0] as nat + 1] + TextKey(a[1..]) && TextKey(b) == [b[0] as nat + 1] + TextKey(b[1..]);
      assert l[1..] == TextKey(a[1..]) + x && r[1..] == TextKey(b[1..]) + y;
      TextKeyEnds(a[1..], b[1..], x, y);
      assert a == [a[0]] + a[1..] && b == [b[0]] + b[1..];
    } else {
      assert a == "" && b == "";
      assert TextKey(a) == [0] && TextKey(b) == [0];
      assert l[1..] == x && r[1..] == y;
    }
  }

  lemma FlagKeyInjective(f: Flag, g: Flag)
    requires FlagKey(f) == FlagKey(g)
    ensures f == g
  {
    var x, y := TextKey(f.bound) + [f.value], TextKey(g.bound) + [g.value];
    assert FlagKey(f) == TextKey(f.what) + x && FlagKey(g) == TextKey(g.what) + y;
    TextKeyEnds(f.what, g.what, x, y);
    TextKeyEnds(f.bound, g.bound, [f.value], [g.value]);
  }

  lemma {:induction false} DedupSorts(s: seq<Flag>)
    requires Sorted(s, FlagKey)
    ensures StrictlySorted(Dedup(s), FlagKey)
  {
    if |s| >= 2 {
      var rest := Dedup(s[1..]);
      DedupSorts(s[1..]);
      if s[0] != s[1] {
        forall j | 0 <= j < |rest|
          ensures Less(FlagKey(s[0]), FlagKey(rest[j]))
        {
          FirstIsLess(s, rest[j]);
        }
      }
    }
  }

  lemma FirstIsLess(s: seq<Flag>, f: Flag)
    requires Sorted(s, FlagKey) && |s| >= 2 && s[0] != s[1] && f in s[1..]
    ensures Less(FlagKey(s[0]), FlagKey(f))
  {
    var k :| 0 <= k < |s[1..]| && s[1..][k] == f;
    assert s[k + 1] == f;
    LessIsTotal(FlagKey(s[0]), FlagKey(s[1]));
    if FlagKey(s[0]) == FlagKey(s[1]) {
      FlagKeyInjective(s[0], s[1]);
    }
    if k > 0 {
      LessIsTransitive(FlagKey(s[0]), FlagKey(s[1]), FlagKey(f));
    }
  }

  /** The flags end in order, each once. */
  lemma FlagsSorted(truncation: seq<Flag>, flags: seq<Flag>)
    ensures StrictlySorted(WithFlags(truncation, flags), FlagKey)
  {
    SortIsCorrect(truncation + flags, FlagKey);
    DedupSorts(SortBy(truncation + flags, FlagKey));
  }

  // ---- The document -----------------------------------------------------------

  /** The lists of a document as they are being cut: before the third stage
      (`listsCut`) every name is still there and the standing lists are whole. */
  ghost predicate Fitting(original: Doc, now: Doc, full: seq<NotAnalysed>, listsCut: bool) {
    && Survives(now.symbols, original.symbols)
    && AllNames(now.symbols, full) == AllNames(original.symbols, original.notAnalysed)
    && original.notAnalysed <= full && now.notAnalysed <= full
    && now.unresolved <= original.unresolved && now.outOfScope <= original.outOfScope
    && (if listsCut then now.symbols == []
        else now.notAnalysed == full && now.unresolved == original.unresolved && now.outOfScope == original.outOfScope)
    && now.truncation == original.truncation && now.truncated == original.truncated
  }

  ghost predicate Counted(d: Doc) {
    && d.counts == Counts(|d.symbols|, |d.notAnalysed|, CallerCount(d.symbols), EntryPointCount(d.symbols), |d.tests|)
    && Collected(AllTests(d.symbols), TestKey, d.tests)
  }

  function Standing(d: Doc): nat {
    |d.notAnalysed| + |d.unresolved| + |d.outOfScope|
  }

  /** The lexicographic measure: list entries, symbols, standing lists. */
  predicate Smaller(a: Doc, b: Doc) {
    || Entries(a.symbols) < Entries(b.symbols)
    || (Entries(a.symbols) == Entries(b.symbols)
        && (|a.symbols| < |b.symbols| || (|a.symbols| == |b.symbols| && Standing(a) < Standing(b))))
  }

  lemma CutListsFits(original: Doc, now: Doc, full: seq<NotAnalysed>, listsCut: bool, cap: nat)
    requires Fitting(original, now, full, listsCut)
    ensures Fitting(original, now.(symbols := CutSymbols(now.symbols, cap)), full, listsCut)
  {
    CutKeepsNames(now.symbols, cap);
    var first :| CutAlike(now.symbols, original.symbols, first);
    var cut := CutSymbols(now.symbols, cap);
    forall i | 0 <= i < |cut|
      ensures CutTo(cut[i], original.symbols[i], Min(first, cap))
    {
      CutTwice(now.symbols[i], original.symbols[i], first, cap);
    }
    assert CutAlike(cut, original.symbols, Min(first, cap));
  }

  lemma DropSymbolsFits(original: Doc, now: Doc, full: seq<NotAnalysed>, keep: nat)
    requires Fitting(original, now, full, false) && keep <= |now.symbols|
    ensures Fitting(original, now.(symbols := now.symbols[..keep], notAnalysed := full + Moved(now.symbols[keep..])),
                    full + Moved(now.symbols[keep..]), false)
  {
    MoveKeepsNames(now.symbols, full, keep);
    var cap :| CutAlike(now.symbols, original.symbols, cap);
    assert CutAlike(now.symbols[..keep], original.symbols, cap);
  }

  /** Nothing cut yet. */
  lemma StartFits(d: Doc)
    ensures Fitting(d, d, d.notAnalysed, false)
  {
    forall i | 0 <= i < |d.symbols|
      ensures CutTo(d.symbols[i], d.symbols[i], Entries(d.symbols))
    {
      ListsWithin(d.symbols, i);
    }
    assert CutAlike(d.symbols, d.symbols, Entries(d.symbols));
  }

  lemma {:induction false} ListsWithin(symbols: seq<Symbol>, i: nat)
    requires i < |symbols|
    ensures Longest(symbols[i]) <= Entries(symbols)
    decreases |symbols|
  {
    if i < |symbols| - 1 {
      ListsWithin(symbols[..|symbols| - 1], i);
    }
  }

  /** A round of the first stage: the longest list has more than one entry, and every list
      is cut to half that many. */
  ghost predicate ListsHalved(was: Doc, now: Doc) {
    exists longest :: longest > 1 && IsLongest(was.symbols, longest) && |now.symbols| == |was.symbols|
      && (forall i :: 0 <= i < |now.symbols| ==> CutTo(now.symbols[i], was.symbols[i], longest / 2))
      && now == was.(symbols := now.symbols)
  }

  /** Of the second: no list has more than one entry, and the later half of the symbols,
      the middle one included, is only named. */
  ghost predicate SymbolsHalved(was: Doc, now: Doc) {
    && (IsLongest(was.symbols, 0) || IsLongest(was.symbols, 1)) && was.symbols != []
    && now.symbols == was.symbols[..|was.symbols| / 2]
    && |now.notAnalysed| == |was.notAnalysed| + |was.symbols| - |was.symbols| / 2
    && was.notAnalysed <= now.notAnalysed
    && (forall i :: |was.symbols| / 2 <= i < |was.symbols| ==>
          now.notAnalysed[|was.notAnalysed| + i - |was.symbols| / 2]
            == NotAnalysed(was.symbols[i].name, BOUND))
    && now == was.(symbols := now.symbols, notAnalysed := now.notAnalysed)
  }

  /** Of the third: no symbol is left, and each standing list is cut to half the longest. */
  ghost predicate StandingHalved(was: Doc, now: Doc) {
    && was.symbols == []
    && now.notAnalysed <= was.notAnalysed && now.unresolved <= was.unresolved && now.outOfScope <= was.outOfScope
    && (exists longest :: StandingCutTo(was, now, longest))
    && now == was.(notAnalysed := now.notAnalysed, unresolved := now.unresolved, outOfScope := now.outOfScope)
  }

  predicate StandingCutTo(was: Doc, now: Doc, longest: nat) {
    && longest > 0 && longest in {|was.notAnalysed|, |was.unresolved|, |was.outOfScope|}
    && |was.notAnalysed| <= longest && |was.unresolved| <= longest && |was.outOfScope| <= longest
    && |now.notAnalysed| == Min(|was.notAnalysed|, longest / 2)
    && |now.unresolved| == Min(|was.unresolved|, longest / 2)
    && |now.outOfScope| == Min(|was.outOfScope|, longest / 2)
  }

  /** What each flag stands for. */
  const LISTS := "symbols[].lists"
  const SYMBOLS := "symbols"
  const STANDING := "not_analysed,unresolved,out_of_scope"

  /** The cut of a stage is the only one whose flag need be new. */
  predicate Named(original: Doc, now: Doc, listsCut: bool, cuts: set<string>) {
    && cuts <= {LISTS, SYMBOLS, STANDING}
    && (now.symbols != original.symbols[..Min(|now.symbols|, |original.symbols|)] ==> LISTS in cuts)
    && (|now.symbols| < |original.symbols| ==> SYMBOLS in cuts)
    && (listsCut ==> STANDING in cuts)
  }

  lemma NamedStays(original: Doc, was: Doc, now: Doc, listsCut: bool, listsCut': bool, cuts: set<string>, what: string)
    requires Named(original, was, listsCut, cuts) && what in {LISTS, SYMBOLS, STANDING}
    requires |now.symbols| <= |was.symbols| <= |original.symbols|
    requires now.symbols != was.symbols[..|now.symbols|] ==> what == LISTS
    requires |now.symbols| < |was.symbols| ==> what == SYMBOLS
    requires listsCut' && !listsCut ==> what == STANDING
    ensures Named(original, now, listsCut', cuts + {what})
  {
    if now.symbols == was.symbols[..|now.symbols|] && was.symbols == original.symbols[..|was.symbols|] {
      assert now.symbols == original.symbols[..|now.symbols|];
    }
  }

  function Min(a: nat, b: nat): nat {
    if a < b then a else b
  }

  /** The first stage on values. */
  lemma ListsStage(original: Doc, was: Doc, full: seq<NotAnalysed>, listsCut: bool, longest: nat)
    requires Fitting(original, was, full, listsCut) && longest > 1 && IsLongest(was.symbols, longest)
    ensures var now := was.(symbols := CutSymbols(was.symbols, longest / 2));
            Fitting(original, now, full, listsCut) && ListsHalved(was, now) && Smaller(now, was)
  {
    CutListsFits(original, was, full, listsCut, longest / 2);
    HalvedShrinks(was.symbols, longest);
    HalvedLists(was, longest);
  }

  lemma HalvedShrinks(symbols: seq<Symbol>, longest: nat)
    requires longest > 1 && IsLongest(symbols, longest)
    ensures Entries(CutSymbols(symbols, longest / 2)) < Entries(symbols)
  {
    var k :| 0 <= k < |symbols|
      && longest in {|symbols[k].callers|, |symbols[k].entryPoints|, |symbols[k].tests|};
    assert Longest(symbols[k]) > longest / 2;
    CutShrinks(symbols, longest / 2);
  }

  lemma HalvedLists(d: Doc, longest: nat)
    requires longest > 1 && IsLongest(d.symbols, longest)
    ensures ListsHalved(d, d.(symbols := CutSymbols(d.symbols, longest / 2)))
  {
    var cut := CutSymbols(d.symbols, longest / 2);
    assert forall i :: 0 <= i < |cut| ==> CutTo(cut[i], d.symbols[i], longest / 2);
  }

  /** The second stage on values. */
  lemma SymbolsStage(original: Doc, was: Doc, full: seq<NotAnalysed>, longest: nat)
    requires Fitting(original, was, full, false) && longest <= 1 && IsLongest(was.symbols, longest)
    requires was.symbols != []
    ensures var keep := |was.symbols| / 2;
            var rest := full + Moved(was.symbols[keep..]);
            var now := was.(symbols := was.symbols[..keep], notAnalysed := rest);
            Fitting(original, now, rest, false) && SymbolsHalved(was, now) && Smaller(now, was)
  {
    DropSymbolsFits(original, was, full, |was.symbols| / 2);
    DropShrinks(was.symbols, |was.symbols| / 2);
    HalvedSymbols(was, longest);
  }

  lemma HalvedSymbols(d: Doc, longest: nat)
    requires longest <= 1 && IsLongest(d.symbols, longest) && d.symbols != []
    ensures var keep := |d.symbols| / 2;
            SymbolsHalved(d, d.(symbols := d.symbols[..keep], notAnalysed := d.notAnalysed + Moved(d.symbols[keep..])))
  {
    var keep := |d.symbols| / 2;
    var moved := Moved(d.symbols[keep..]);
    forall i | keep <= i < |d.symbols|
      ensures (d.notAnalysed + moved)[|d.notAnalysed| + i - keep] == NotAnalysed(d.symbols[i].name, BOUND)
    {
      assert moved[i - keep] == NotAnalysed(d.symbols[i].name, BOUND);
    }
  }

  class ChangesDocument {
    var symbols: seq<Symbol>
    var notAnalysed: seq<NotAnalysed>
    var unresolved: seq<string>
    var outOfScope: seq<string>
    var tests: seq<Row>
    var counts: Counts
    var truncation: seq<Flag>
    var truncated: bool

    constructor (d: Doc)
      ensures View() == d
    {
      symbols, notAnalysed, unresolved, outOfScope := d.symbols, d.notAnalysed, d.unresolved, d.outOfScope;
      tests, counts, truncation, truncated := d.tests, d.counts, d.truncation, d.truncated;
    }

    function View(): Doc
      reads this
    {
      Doc(symbols, notAnalysed, unresolved, outOfScope, tests, counts, truncation, truncated)
    }

    method LongestList() returns (longest: nat)
      ensures longest > 0 ==> exists k :: 0 <= k < |symbols| && Longest(symbols[k]) == longest
      ensures forall k :: 0 <= k < |symbols| ==> Longest(symbols[k]) <= longest
      ensures IsLongest(symbols, longest)
    {
      longest := 0;
      for k := 0 to |symbols|
        invariant longest > 0 ==> exists j :: 0 <= j < k && Longest(symbols[j]) == longest
        invariant forall j :: 0 <= j < k ==> Longest(symbols[j]) <= longest
      {
        if Longest(symbols[k]) > longest {
          longest := Longest(symbols[k]);
        }
      }
    }

    /** First stage: every per-symbol list is cut to `cap`. */
    method CutLists(cap: nat)
      modifies this`symbols
      ensures symbols == CutSymbols(old(symbols), cap)
    {
      var before := symbols;
      for k := 0 to |before|
        invariant |symbols| == |before|
        invariant forall i :: 0 <= i < k ==> symbols[i] == CutSymbol(before[i], cap)
        invariant forall i :: k <= i < |before| ==> symbols[i] == before[i]
      {
        symbols := symbols[k := CutSymbol(symbols[k], cap)];
      }
      assert symbols == CutSymbols(before, cap);
    }

    /** Second stage: the later half of the symbols is only named. */
    method DropSymbols(keep: nat)
      requires keep <= |symbols|
      modifies this`symbols, this`notAnalysed
      ensures symbols == old(symbols)[..keep] && notAnalysed == old(notAnalysed) + Moved(old(symbols)[keep..])
    {
      var dropped := symbols[keep..];
      symbols := symbols[..keep];
      for k := 0 to |dropped|
        invariant symbols == old(symbols)[..keep] && notAnalysed == old(notAnalysed) + Moved(dropped[..k])
      {
        notAnalysed := notAnalysed + [NotAnalysed(dropped[k].name, BOUND)];
        assert Moved(dropped[..k + 1]) == Moved(dropped[..k]) + [NotAnalysed(dropped[k].name, BOUND)];
      }
      assert dropped[..|dropped|] == dropped;
    }

    /** The test selection and the counts, from what is left. */
    method Recount()
      modifies this`tests, this`counts
      ensures Counted(View())
    {
      tests := TestSelection(AllTests(symbols));
      counts := Counts(|symbols|, |notAnalysed|, CallerCount(symbols), EntryPointCount(symbols), |tests|);
    }

    /** Third stage: the standing lists are halved. */
    method CutStanding() returns (cut: bool)
      modifies this`notAnalysed, this`unresolved, this`outOfScope
      ensures notAnalysed <= old(notAnalysed) && unresolved <= old(unresolved) && outOfScope <= old(outOfScope)
      ensures cut ==> Standing(View()) < old(Standing(View()))
      ensures !cut ==> Standing(View()) == 0 && View() == old(View())
      ensures cut && symbols == [] ==> StandingHalved(old(View()), View())
    {
      var longest := Max(|notAnalysed|, Max(|unresolved|, |outOfScope|));
      if longest == 0 {
        return false;
      }
      notAnalysed := Truncate(notAnalysed, longest / 2);
      unresolved := Truncate(unresolved, longest / 2);
      outOfScope := Truncate(outOfScope, longest / 2);
      assert StandingCutTo(old(View()), View(), longest);
      return true;
    }

    /** One round of cutting; no text when nothing is left to cut. */
    method Shrink(ghost original: Doc, ghost full: seq<NotAnalysed>, ghost listsCut: bool)
      returns (what: string, ghost full': seq<NotAnalysed>, ghost listsCut': bool)
      requires Fitting(original, View(), full, listsCut)
      modifies this`symbols, this`notAnalysed, this`unresolved, this`outOfScope
      ensures Fitting(original, View(), full', listsCut')
      ensures what in {"", LISTS, SYMBOLS, STANDING}
      ensures what == "" ==>
                View() == old(View()) && full' == full && listsCut' == listsCut && symbols == []
                && Standing(View()) == 0
      ensures what != "" ==> Smaller(View(), old(View()))
      ensures what == LISTS ==> ListsHalved(old(View()), View())
      ensures what == SYMBOLS ==> SymbolsHalved(old(View()), View())
      ensures what == STANDING ==> StandingHalved(old(View()), View())
      ensures symbols != old(symbols)[..Min(|symbols|, |old(symbols)|)] ==> what == LISTS
      ensures |symbols| <= |old(symbols)| && (|symbols| < |old(symbols)| ==> what == SYMBOLS)
      ensures listsCut' && !listsCut ==> what == STANDING
      ensures listsCut ==> listsCut'
    {
      full', listsCut' := full, listsCut;
      var longest := LongestList();
      if longest > 1 {
        ListsStage(original, View(), full, listsCut, longest);
        CutLists(longest / 2);
        what := LISTS;
      } else if symbols != [] {
        var keep := |symbols| / 2;
        full' := full + Moved(symbols[keep..]);
        SymbolsStage(original, View(), full, longest);
        DropSymbols(keep);
        what := SYMBOLS;
      } else {
        var cut := CutStanding();
        if cut {
          listsCut' := true;
          what := STANDING;
        } else {
          what := "";
        }
      }
    }

    /** A round of cutting with the counts brought up to date. */
    method Round(ghost original: Doc, ghost full: seq<NotAnalysed>, ghost listsCut: bool, ghost cuts: set<string>)
      returns (what: string, ghost full': seq<NotAnalysed>, ghost listsCut': bool)
      requires Fitting(original, View(), full, listsCut) && Named(original, View(), listsCut, cuts)
      modifies this`symbols, this`notAnalysed, this`unresolved, this`outOfScope, this`tests, this`counts
      ensures Fitting(original, View(), full', listsCut')
      ensures what == "" ==>
                View() == old(View()) && full' == full && listsCut' == listsCut && symbols == []
                && Standing(View()) == 0
      ensures what != "" ==>
                Named(original, View(), listsCut', cuts + {what}) && Counted(View()) && Smaller(View(), old(View()))
    {
      what, full', listsCut' := Shrink(original, full, listsCut);
      if what != "" {
        NamedStays(original, old(View()), View(), listsCut, listsCut', cuts, what);
        Recount();
      }
    }

    /** The cutting loop. */
    method CutUntilFits(size: Doc -> Size, maxBytes: nat)
      returns (flags: seq<Flag>, ghost full: seq<NotAnalysed>, ghost listsCut: bool, ghost cuts: set<string>)
      modifies this`symbols, this`notAnalysed, this`unresolved, this`outOfScope, this`tests, this`counts
      ensures Fitting(old(View()), View(), full, listsCut) && Named(old(View()), View(), listsCut, cuts)
      ensures forall what :: what in cuts ==> Flag(what, BOUND, maxBytes) in flags
      ensures forall f :: f in flags ==> f.bound == BOUND && f.value == maxBytes
      ensures FitsIn(size, View(), maxBytes) || (symbols == [] && Standing(View()) == 0)
      ensures flags == [] ==> View() == old(View())
      ensures flags != [] ==> Counted(View()) && !FitsIn(size, old(View()), maxBytes)
    {
      ghost var original := View();
      StartFits(original);
      flags, full, listsCut, cuts := [], notAnalysed, false, {};
      while !FitsIn(size, View(), maxBytes)
        invariant Fitting(original, View(), full, listsCut)
        invariant Named(original, View(), listsCut, cuts)
        invariant forall what :: what in cuts ==> Flag(what, BOUND, maxBytes) in flags
        invariant forall f :: f in flags ==> f.bound == BOUND && f.value == maxBytes
        invariant flags == [] ==> View() == original
        invariant flags != [] ==> Counted(View()) && !FitsIn(size, original, maxBytes)
        decreases Entries(symbols), |symbols|, Standing(View())
      {
        var what;
        what, full, listsCut := Round(original, full, listsCut, cuts);
        if what == "" {
          break;
        }
        cuts := cuts + {what};
        flags := flags + [Flag(what, BOUND, maxBytes)];
      }
    }

    /** `fit_to_bytes`: cuts until the document fits or nothing is left, then adds a
        flag for everything it cut. */
    method FitToBytes(size: Doc -> Size, maxBytes: nat)
      returns (fits: bool, ghost full: seq<NotAnalysed>, ghost listsCut: bool)
      modifies this
      ensures fits <==> FitsIn(size, View(), maxBytes)
      ensures FitsIn(size, old(View()), maxBytes) ==> View() == old(View())
      ensures Fitting(old(View()), View().(truncation := old(truncation), truncated := old(truncated)), full, listsCut)
      ensures View() != old(View()) ==> truncated && Counted(View())
      ensures forall f :: f in old(truncation) ==> f in truncation
      ensures |symbols| < |old(symbols)| ==> Flag(SYMBOLS, BOUND, maxBytes) in truncation
      ensures symbols != old(symbols)[..Min(|symbols|, |old(symbols)|)] ==> Flag(LISTS, BOUND, maxBytes) in truncation
      ensures listsCut ==> Flag(STANDING, BOUND, maxBytes) in truncation
      ensures View() != old(View()) ==> StrictlySorted(truncation, FlagKey)
      ensures forall f :: f in truncation ==> f in old(truncation) || (f.bound == BOUND && f.value == maxBytes)
      ensures !fits ==>
                || (symbols == [] && Standing(View()) == 0)
                || FitsIn(size, View().(truncation := old(truncation), truncated := old(truncated)), maxBytes)
    {
      var flags;
      ghost var cuts;
      flags, full, listsCut, cuts := CutUntilFits(size, maxBytes);
      if flags != [] {
        FlagsKept(truncation, flags);
        FlagsSorted(truncation, flags);
        truncation := WithFlags(truncation, flags);
        truncated := true;
      }
      fits := FitsIn(size, View(), maxBytes);
    }
  }

  /** A serialized size; serializing may fail. */
  datatype Size = Bytes(count: nat) | Failed

  predicate FitsIn(size: Doc -> Size, d: Doc, maxBytes: nat) {
    size(d).Bytes? && size(d).count <= maxBytes
  }
}
