// Callers, entry points and tests of a changed symbol, one row for each.

/** The `collect_*` functions and `test_selection` of analysis.rs. */
module Evidence {
  import opened Ranking

  /** One piece of evidence. `tag` is the snapshot the query ran in (for a test
      selection, the changed symbol), `shown` the snapshot of its path's end; the
      category and the source are positions in their enumerations. */
  datatype Finding = Finding(selector: string, tag: string, category: nat, distance: nat, source: nat,
                             confidence: string, shown: string, detail: string)

  /** The findings about one selector: the first of them, the strongest, and all tags. */
  datatype Row = Row(first: Finding, best: Finding, tags: seq<string>)

  function ConfidenceRank(tag: string): nat {
    if tag == "exact" then 0 else if tag == "import_resolved" then 1 else if tag == "same_module" then 2
    else if tag == "fuzzy_name" then 3 else 4
  }

  function OffHead(f: Finding): nat {
    if f.shown != "head" then 1 else 0
  }

  function CallerKey(f: Finding): seq<nat> {
    [f.category, f.distance, ConfidenceRank(f.confidence), OffHead(f)] + Codes(f.selector)
  }

  function EntryKey(f: Finding): seq<nat> {
    [f.distance, f.category, ConfidenceRank(f.confidence), OffHead(f)] + Codes(f.selector)
  }

  function TestKey(f: Finding): seq<nat> {
    [f.source, f.category, ConfidenceRank(f.confidence)] + Codes(f.selector)
  }

  // ---- What the keys order by ---------------------------------------------------

  /** How edges are resolved, the surest first; any other tag comes last. */
  predicate Surer(a: string, b: string) {
    || (a == "exact" && b != "exact")
    || (a == "import_resolved" && b !in {"exact", "import_resolved"})
    || (a == "same_module" && b !in {"exact", "import_resolved", "same_module"})
    || (a == "fuzzy_name" && b !in {"exact", "import_resolved", "same_module", "fuzzy_name"})
  }

  lemma RankIsSureness(a: string, b: string)
    ensures ConfidenceRank(a) < ConfidenceRank(b) <==> Surer(a, b)
  {
  }

  /** Of two findings alike in everything before: shown at the head first, then by name. */
  predicate ShownBefore(f: Finding, g: Finding) {
    if (f.shown == "head") != (g.shown == "head") then f.shown == "head"
    else Less(Codes(f.selector), Codes(g.selector))
  }

  predicate SurerOrShown(f: Finding, g: Finding) {
    Surer(f.confidence, g.confidence) || (!Surer(g.confidence, f.confidence) && ShownBefore(f, g))
  }

  predicate SurerOrNamed(f: Finding, g: Finding) {
    || Surer(f.confidence, g.confidence)
    || (!Surer(g.confidence, f.confidence) && Less(Codes(f.selector), Codes(g.selector)))
  }

  lemma LessCons(x: nat, a: seq<nat>, y: nat, b: seq<nat>)
    ensures Less([x] + a, [y] + b) <==> x < y || (x == y && Less(a, b))
  {
    assert ([x] + a)[1..] == a && ([y] + b)[1..] == b;
  }

  lemma LastParts(f: Finding, g: Finding)
    ensures var a, b := [OffHead(f)] + Codes(f.selector), [OffHead(g)] + Codes(g.selector);
            var p, q := ConfidenceRank(f.confidence), ConfidenceRank(g.confidence);
            && (Less(a, b) <==> ShownBefore(f, g)) && (Less([p] + a, [q] + b) <==> SurerOrShown(f, g))
            && (Less([p] + Codes(f.selector), [q] + Codes(g.selector)) <==> SurerOrNamed(f, g))
  {
    var a, b := [OffHead(f)] + Codes(f.selector), [OffHead(g)] + Codes(g.selector);
    LessCons(OffHead(f), Codes(f.selector), OffHead(g), Codes(g.selector));
    LessCons(ConfidenceRank(f.confidence), a, ConfidenceRank(g.confidence), b);
    LessCons(ConfidenceRank(f.confidence), Codes(f.selector), ConfidenceRank(g.confidence), Codes(g.selector));
    RankIsSureness(f.confidence, g.confidence);
    RankIsSureness(g.confidence, f.confidence);
  }

  lemma Nested(a: nat, b: nat, c: nat, s: seq<nat>)
    ensures [a, b, c] + s == [a] + ([b] + ([c] + s))
  {
  }

  lemma Nested4(a: nat, b: nat, c: nat, d: nat, s: seq<nat>)
    ensures [a, b, c, d] + s == [a] + ([b] + ([c] + ([d] + s)))
  {
  }

  /** Callers go by category, distance, sureness, side and name, in this order. */
  lemma CallerOrder(f: Finding, g: Finding)
    ensures Less(CallerKey(f), CallerKey(g)) <==>
              if f.category != g.category then f.category < g.category
              else if f.distance != g.distance then f.distance < g.distance
              else SurerOrShown(f, g)
  {
    var a, b := [OffHead(f)] + Codes(f.selector), [OffHead(g)] + Codes(g.selector);
    var k, l := [ConfidenceRank(f.confidence)] + a, [ConfidenceRank(g.confidence)] + b;
    LastParts(f, g);
    LessCons(f.distance, k, g.distance, l);
    LessCons(f.category, [f.distance] + k, g.category, [g.distance] + l);
    Nested4(f.category, f.distance, ConfidenceRank(f.confidence), OffHead(f), Codes(f.selector));
    Nested4(g.category, g.distance, ConfidenceRank(g.confidence), OffHead(g), Codes(g.selector));
  }

  /** Entry points go by distance, category, sureness, side and name. */
  lemma EntryOrder(f: Finding, g: Finding)
    ensures Less(EntryKey(f), EntryKey(g)) <==>
              if f.distance != g.distance then f.distance < g.distance
              else if f.category != g.category then f.category < g.category
              else SurerOrShown(f, g)
  {
    var a, b := [OffHead(f)] + Codes(f.selector), [OffHead(g)] + Codes(g.selector);
    var k, l := [ConfidenceRank(f.confidence)] + a, [ConfidenceRank(g.confidence)] + b;
    LastParts(f, g);
    LessCons(f.category, k, g.category, l);
    LessCons(f.distance, [f.category] + k, g.distance, [g.category] + l);
    Nested4(f.distance, f.category, ConfidenceRank(f.confidence), OffHead(f), Codes(f.selector));
    Nested4(g.distance, g.category, ConfidenceRank(g.confidence), OffHead(g), Codes(g.selector));
  }

  /** Tests go by source, category, sureness and name. */
  lemma TestOrder(f: Finding, g: Finding)
    ensures Less(TestKey(f), TestKey(g)) <==>
              if f.source != g.source then f.source < g.source
              else if f.category != g.category then f.category < g.category
              else SurerOrNamed(f, g)
  {
    var k, l := [ConfidenceRank(f.confidence)] + Codes(f.selector), [ConfidenceRank(g.confidence)] + Codes(g.selector);
    LastParts(f, g);
    LessCons(f.category, k, g.category, l);
    LessCons(f.source, [f.category] + k, g.source, [g.category] + l);
    Nested(f.source, f.category, ConfidenceRank(f.confidence), Codes(f.selector));
    Nested(g.source, g.category, ConfidenceRank(g.confidence), Codes(g.selector));
  }

  /** Findings with one key are about one selector. */
  ghost predicate NamesSelector(key: Finding -> seq<nat>) {
    forall f, g :: key(f) == key(g) ==> f.selector == g.selector
  }

  lemma SuffixNames(a: seq<nat>, s: string, b: seq<nat>, t: string)
    requires |a| == |b| && a + Codes(s) == b + Codes(t)
    ensures s == t
  {
    assert (a + Codes(s))[|a|..] == Codes(s) && (b + Codes(t))[|b|..] == Codes(t);
    CodesInjective(s, t);
  }

  lemma KeysNameSelectors()
    ensures NamesSelector(CallerKey) && NamesSelector(EntryKey) && NamesSelector(TestKey)
  {
    forall f, g | CallerKey(f) == CallerKey(g)
      ensures f.selector == g.selector
    {
      SuffixNames(CallerKey(f)[..4], f.selector, CallerKey(g)[..4], g.selector);
    }
    forall f, g | EntryKey(f) == EntryKey(g)
      ensures f.selector == g.selector
    {
      SuffixNames(EntryKey(f)[..4], f.selector, EntryKey(g)[..4], g.selector);
    }
    forall f, g | TestKey(f) == TestKey(g)
      ensures f.selector == g.selector
    {
      SuffixNames(TestKey(f)[..3], f.selector, TestKey(g)[..3], g.selector);
    }
  }

  // ---- Labels -----------------------------------------------------------------

  /** `merge_snapshot`. */
  function MergeSnapshot(tags: seq<string>, tag: string): seq<string> {
    if tag in tags then tags else SortBy(tags + [tag], Codes)
  }

  /** How `test_selection` notes the changed symbols. */
  function MergeSymbol(tags: seq<string>, tag: string): seq<string> {
    if tag in tags then tags else tags + [tag]
  }

  /** A merge adds one tag and repeats none. */
  ghost predicate Merges(merge: (seq<string>, string) -> seq<string>) {
    forall tags, tag :: Distinct(tags) ==>
      Distinct(merge(tags, tag)) && forall x :: x in merge(tags, tag) <==> x in tags || x == tag
  }

  lemma SnapshotMerge(tags: seq<string>, tag: string)
    ensures forall x :: x in MergeSnapshot(tags, tag) <==> x in tags || x == tag
    ensures Distinct(tags) ==> Distinct(MergeSnapshot(tags, tag))
    ensures StrictlySorted(tags, Codes) ==> StrictlySorted(MergeSnapshot(tags, tag), Codes)
  {
    if tag !in tags {
      var all, r := tags + [tag], MergeSnapshot(tags, tag);
      SortIsCorrect(all, Codes);
      SameMembers(all, r);
      if Distinct(tags) {
        DistinctKept(all, r);
        DistinctCodes(r);
        SortedStrictly(r, Codes);
      } else if StrictlySorted(tags, Codes) {
        StrictIsDistinct(tags);
      }
    }
    if StrictlySorted(tags, Codes) {
      StrictIsDistinct(tags);
    }
  }

  lemma DistinctCodes(s: seq<string>)
    requires Distinct(s)
    ensures forall i, j :: 0 <= i < j < |s| ==> Codes(s[i]) != Codes(s[j])
  {
    forall i, j | 0 <= i < j < |s|
      ensures Codes(s[i]) != Codes(s[j])
    {
      if Codes(s[i]) == Codes(s[j]) {
        CodesInjective(s[i], s[j]);
      }
    }
  }

  lemma StrictIsDistinct(s: seq<string>)
    requires StrictlySorted(s, Codes)
    ensures Distinct(s)
  {
    forall i, j | 0 <= i < j < |s|
      ensures s[i] != s[j]
    {
      LessIsTotal(Codes(s[i]), Codes(s[i]));
    }
  }

  // ---- Gathering --------------------------------------------------------------

  type Merge = (seq<string>, string) -> seq<string>

  function Merged(row: Row, f: Finding, key: Finding -> seq<nat>, merge: Merge): Row {
    Row(row.first, if Less(key(f), key(row.best)) then f else row.best, merge(row.tags, f.tag))
  }

  function Add(rows: map<string, Row>, f: Finding, key: Finding -> seq<nat>, merge: Merge): map<string, Row> {
    rows[f.selector := if f.selector in rows then Merged(rows[f.selector], f, key, merge) else Row(f, f, [f.tag])]
  }

  function Gather(fs: seq<Finding>, key: Finding -> seq<nat>, merge: Merge): map<string, Row> {
    if fs == [] then map[] else Add(Gather(fs[..|fs| - 1], key, merge), fs[|fs| - 1], key, merge)
  }

  /** `best` is the first of the strongest findings about a selector. */
  ghost predicate FirstBest(fs: seq<Finding>, key: Finding -> seq<nat>, s: string, best: Finding) {
    exists i :: 0 <= i < |fs| && fs[i] == best && StrongestAt(fs, key, s, i)
  }

  ghost predicate StrongestAt(fs: seq<Finding>, key: Finding -> seq<nat>, s: string, i: nat)
    requires i < |fs|
  {
    && fs[i].selector == s
    && (forall j :: 0 <= j < |fs| && fs[j].selector == s ==> !Less(key(fs[j]), key(fs[i])))
    && (forall j :: 0 <= j < i && fs[j].selector == s ==> Less(key(fs[i]), key(fs[j])))
  }

  ghost predicate HasTag(fs: seq<Finding>, s: string, tag: string) {
    exists i :: 0 <= i < |fs| && fs[i].selector == s && fs[i].tag == tag
  }

  ghost predicate Found(fs: seq<Finding>, s: string) {
    exists i :: 0 <= i < |fs| && fs[i].selector == s
  }

  lemma BestSnoc(fs: seq<Finding>, f: Finding, key: Finding -> seq<nat>, best: Finding)
    requires FirstBest(fs, key, f.selector, best)
    ensures FirstBest(fs + [f], key, f.selector, if Less(key(f), key(best)) then f else best)
  {
    var i :| 0 <= i < |fs| && fs[i] == best && StrongestAt(fs, key, f.selector, i);
    var all := fs + [f];
    if Less(key(f), key(best)) {
      forall j | 0 <= j < |fs| && fs[j].selector == f.selector
        ensures Less(key(f), key(fs[j])) && !Less(key(fs[j]), key(f))
      {
        LessIsTotal(key(f), key(best));
        LessIsTransitive(key(f), key(best), key(fs[j]));
        LessIsTotal(key(f), key(fs[j]));
      }
      LessIsTotal(key(f), key(f));
      assert StrongestAt(all, key, f.selector, |fs|);
    } else {
      assert StrongestAt(all, key, f.selector, i);
    }
  }

  lemma OtherSnoc(fs: seq<Finding>, f: Finding, key: Finding -> seq<nat>, s: string, best: Finding)
    requires s != f.selector && FirstBest(fs, key, s, best)
    ensures FirstBest(fs + [f], key, s, best)
  {
    var i :| 0 <= i < |fs| && fs[i] == best && StrongestAt(fs, key, s, i);
    assert StrongestAt(fs + [f], key, s, i);
  }

  lemma NewSnoc(fs: seq<Finding>, f: Finding, key: Finding -> seq<nat>)
    requires !Found(fs, f.selector)
    ensures FirstBest(fs + [f], key, f.selector, f)
  {
    LessIsTotal(key(f), key(f));
    assert StrongestAt(fs + [f], key, f.selector, |fs|);
  }

  lemma FoundSnoc(fs: seq<Finding>, f: Finding, s: string)
    ensures Found(fs + [f], s) <==> Found(fs, s) || f.selector == s
    ensures forall tag :: HasTag(fs + [f], s, tag) <==> HasTag(fs, s, tag) || (f.selector == s && f.tag == tag)
  {
    var all := fs + [f];
    assert all[|fs|] == f;
    assert forall i :: 0 <= i < |fs| ==> all[i] == fs[i];
    forall tag
      ensures HasTag(all, s, tag) <==> HasTag(fs, s, tag) || (f.selector == s && f.tag == tag)
    {
      if i :| 0 <= i < |fs| && fs[i].selector == s && fs[i].tag == tag {
        assert all[i].selector == s && all[i].tag == tag;
      }
    }
    if i :| 0 <= i < |fs| && fs[i].selector == s {
      assert all[i].selector == s;
    }
  }

  /** The first finding about a selector. */
  ghost predicate Earliest(fs: seq<Finding>, s: string, f: Finding) {
    exists i :: 0 <= i < |fs| && fs[i] == f && FirstAbout(fs, s, i)
  }

  ghost predicate FirstAbout(fs: seq<Finding>, s: string, i: nat)
    requires i < |fs|
  {
    fs[i].selector == s && forall j :: 0 <= j < i ==> fs[j].selector != s
  }

  lemma EarliestSnoc(fs: seq<Finding>, f: Finding, s: string, first: Finding)
    ensures Earliest(fs, s, first) ==> Earliest(fs + [f], s, first)
    ensures !Found(fs, s) && f.selector == s ==> Earliest(fs + [f], s, f)
  {
    if Earliest(fs, s, first) {
      var i :| 0 <= i < |fs| && fs[i] == first && FirstAbout(fs, s, i);
      assert FirstAbout(fs + [f], s, i);
    }
    if !Found(fs, s) && f.selector == s {
      assert FirstAbout(fs + [f], s, |fs|);
    }
  }

  /** What gathering leaves about one selector. */
  ghost predicate Summarises(fs: seq<Finding>, key: Finding -> seq<nat>, s: string, row: Row) {
    && Earliest(fs, s, row.first) && FirstBest(fs, key, s, row.best) && Distinct(row.tags)
    && forall tag :: tag in row.tags <==> HasTag(fs, s, tag)
  }

  /** One row for every selector found, with its strongest finding and exactly the
      tags it was found under. */
  lemma {:induction false} GatherMeaning(fs: seq<Finding>, key: Finding -> seq<nat>, merge: Merge, s: string)
    requires Merges(merge)
    ensures s in Gather(fs, key, merge) <==> Found(fs, s)
    ensures s in Gather(fs, key, merge) ==> Summarises(fs, key, s, Gather(fs, key, merge)[s])
  {
    if fs != [] {
      var rest, f := fs[..|fs| - 1], fs[|fs| - 1];
      assert fs == rest + [f];
      GatherMeaning(rest, key, merge, s);
      FoundSnoc(rest, f, s);
      EarliestSnoc(rest, f, s, if Found(rest, s) then Gather(rest, key, merge)[s].first else f);
      if f.selector == s {
        var rows := Gather(rest, key, merge);
        if s in rows {
          BestSnoc(rest, f, key, rows[s].best);
        } else {
          NewSnoc(rest, f, key);
        }
      } else if Found(rest, s) {
        OtherSnoc(rest, f, key, s, Gather(rest, key, merge)[s].best);
      }
    }
  }

  // ---- The rows in order --------------------------------------------------------

  function RowKey(key: Finding -> seq<nat>): Row -> seq<nat> {
    (r: Row) => key(r.best)
  }

  /** The rows of a report, in order: one for each selector found. */
  ghost predicate Collected(fs: seq<Finding>, key: Finding -> seq<nat>, rows: seq<Row>) {
    && StrictlySorted(rows, RowKey(key))
    && (forall k :: 0 <= k < |rows| ==> Summarises(fs, key, rows[k].best.selector, rows[k]))
    && (forall s :: Found(fs, s) ==> exists k :: 0 <= k < |rows| && rows[k].best.selector == s)
  }

  function Values(rows: map<string, Row>, keys: seq<string>): seq<Row>
    requires forall k :: k in keys ==> k in rows
  {
    seq(|keys|, i requires 0 <= i < |keys| => rows[keys[i]])
  }

  /** The selectors in a dictionary, each once. */
  method Keys(rows: map<string, Row>) returns (keys: seq<string>)
    ensures Distinct(keys) && |keys| == |rows| && forall k :: k in keys <==> k in rows
  {
    var left := rows.Keys;
    keys := [];
    while left != {}
      invariant Distinct(keys) && left <= rows.Keys && |keys| + |left| == |rows.Keys|
      invariant forall k :: k in rows <==> k in keys || k in left
      invariant forall k :: k in keys ==> k !in left
      decreases left
    {
      var k :| k in left;
      left := left - {k};
      keys := keys + [k];
    }
  }

  lemma {:induction false} SortedRows(fs: seq<Finding>, key: Finding -> seq<nat>, merge: Merge,
                                      keys: seq<string>, rows: seq<Row>)
    requires Merges(merge) && NamesSelector(key) && Distinct(keys)
    requires forall k :: k in keys <==> k in Gather(fs, key, merge)
    requires rows == SortBy(Values(Gather(fs, key, merge), keys), RowKey(key))
    ensures Collected(fs, key, rows) && |rows| == |keys|
  {
    var m := Gather(fs, key, merge);
    var values := Values(m, keys);
    SortIsCorrect(values, RowKey(key));
    SameMembers(values, rows);
    assert |multiset(rows)| == |multiset(values)|;
    forall k | 0 <= k < |rows|
      ensures Summarises(fs, key, rows[k].best.selector, rows[k])
    {
      RowSummarises(fs, key, merge, keys, rows[k]);
    }
    forall s | Found(fs, s)
      ensures exists k :: 0 <= k < |rows| && rows[k].best.selector == s
    {
      var r := RowOf(fs, key, merge, keys, s);
      assert r in rows;
    }
    RowsDiffer(fs, key, merge, keys, rows);
    SortedStrictly(rows, RowKey(key));
  }

  lemma RowSummarises(fs: seq<Finding>, key: Finding -> seq<nat>, merge: Merge, keys: seq<string>, r: Row)
    requires Merges(merge) && NamesSelector(key)
    requires forall k :: k in keys <==> k in Gather(fs, key, merge)
    requires r in Values(Gather(fs, key, merge), keys)
    ensures Summarises(fs, key, r.best.selector, r)
  {
    var values := Values(Gather(fs, key, merge), keys);
    var i :| 0 <= i < |values| && values[i] == r;
    GatherMeaning(fs, key, merge, keys[i]);
  }

  lemma RowOf(fs: seq<Finding>, key: Finding -> seq<nat>, merge: Merge, keys: seq<string>, s: string)
    returns (r: Row)
    requires Merges(merge) && NamesSelector(key) && Found(fs, s)
    requires forall k :: k in keys <==> k in Gather(fs, key, merge)
    ensures r in Values(Gather(fs, key, merge), keys) && r.best.selector == s
  {
    GatherMeaning(fs, key, merge, s);
    var values := Values(Gather(fs, key, merge), keys);
    var i :| 0 <= i < |keys| && keys[i] == s;
    r := values[i];
    assert r in values;
  }

  lemma RowsDiffer(fs: seq<Finding>, key: Finding -> seq<nat>, merge: Merge, keys: seq<string>, rows: seq<Row>)
    requires Merges(merge) && NamesSelector(key) && Distinct(keys)
    requires forall k :: k in keys <==> k in Gather(fs, key, merge)
    requires multiset(rows) == multiset(Values(Gather(fs, key, merge), keys))
    ensures forall i, j :: 0 <= i < j < |rows| ==> RowKey(key)(rows[i]) != RowKey(key)(rows[j])
  {
    var values := Values(Gather(fs, key, merge), keys);
    forall i | 0 <= i < |values|
      ensures values[i].best.selector == keys[i]
    {
      GatherMeaning(fs, key, merge, keys[i]);
    }
    SelectorsDiffer(values, rows);
  }

  lemma SelectorsDiffer(values: seq<Row>, rows: seq<Row>)
    requires multiset(rows) == multiset(values)
    requires forall i, j :: 0 <= i < j < |values| ==> values[i].best.selector != values[j].best.selector
    ensures forall i, j :: 0 <= i < j < |rows| ==> rows[i].best.selector != rows[j].best.selector
  {
    assert Distinct(values);
    DistinctKept(values, rows);
    SameMembers(values, rows);
    forall i, j | 0 <= i < j < |rows|
      ensures rows[i].best.selector != rows[j].best.selector
    {
      assert rows[i] in values && rows[j] in values && rows[i] != rows[j];
    }
  }

  // ---- The operations -----------------------------------------------------------

  function Queried(fs: seq<Finding>, queried: Finding -> bool): seq<Finding> {
    if fs == [] then [] else
    Queried(fs[..|fs| - 1], queried) + if queried(fs[|fs| - 1]) then [fs[|fs| - 1]] else []
  }

  /** The shared loop: gathers by selector, then sorts by key. */
  method Collect(fs: seq<Finding>, queried: Finding -> bool, key: Finding -> seq<nat>, merge: Merge)
    returns (rows: seq<Row>)
    requires Merges(merge) && NamesSelector(key)
    ensures Collected(Queried(fs, queried), key, rows)
    ensures |rows| == |Gather(Queried(fs, queried), key, merge)|
    ensures forall r :: r in rows ==> r.best.selector in Gather(Queried(fs, queried), key, merge)
                                      && r == Gather(Queried(fs, queried), key, merge)[r.best.selector]
  {
    var m: map<string, Row> := map[];
    for k := 0 to |fs|
      invariant m == Gather(Queried(fs[..k], queried), key, merge)
    {
      assert fs[..k + 1][..k] == fs[..k];
      QueriedSnoc(fs[..k], fs[k], queried, key, merge);
      assert fs[..k + 1] == fs[..k] + [fs[k]];
      if queried(fs[k]) {
        m := Add(m, fs[k], key, merge);
      }
    }
    assert fs[..|fs|] == fs;
    var keys := Keys(m);
    rows := SortBy(Values(m, keys), RowKey(key));
    SortedRows(Queried(fs, queried), key, merge, keys, rows);
    RowsAreValues(Queried(fs, queried), key, merge, keys, rows);
  }

  lemma QueriedSnoc(fs: seq<Finding>, f: Finding, queried: Finding -> bool, key: Finding -> seq<nat>, merge: Merge)
    ensures Queried(fs + [f], queried) == Queried(fs, queried) + if queried(f) then [f] else []
    ensures Gather(Queried(fs + [f], queried), key, merge) ==
            if queried(f) then Add(Gather(Queried(fs, queried), key, merge), f, key, merge)
            else Gather(Queried(fs, queried), key, merge)
  {
    assert (fs + [f])[..|fs|] == fs;
    var q := Queried(fs, queried);
    if queried(f) {
      assert (q + [f])[..|q|] == q;
    } else {
      assert q + [] == q;
    }
  }

  lemma RowsAreValues(fs: seq<Finding>, key: Finding -> seq<nat>, merge: Merge, keys: seq<string>, rows: seq<Row>)
    requires Merges(merge) && forall k :: k in keys <==> k in Gather(fs, key, merge)
    requires rows == SortBy(Values(Gather(fs, key, merge), keys), RowKey(key))
    ensures forall r :: r in rows ==>
              r.best.selector in Gather(fs, key, merge) && r == Gather(fs, key, merge)[r.best.selector]
  {
    var values := Values(Gather(fs, key, merge), keys);
    SortIsCorrect(values, RowKey(key));
    SameMembers(values, rows);
    forall r | r in rows
      ensures r.best.selector in Gather(fs, key, merge) && r == Gather(fs, key, merge)[r.best.selector]
    {
      var i :| 0 <= i < |values| && values[i] == r;
      GatherMeaning(fs, key, merge, keys[i]);
    }
  }

  lemma MergesHold()
    ensures Merges(MergeSnapshot) && Merges(MergeSymbol)
  {
    forall tags, tag | Distinct(tags)
      ensures Distinct(MergeSnapshot(tags, tag)) && forall x :: x in MergeSnapshot(tags, tag) <==> x in tags || x == tag
    {
      SnapshotMerge(tags, tag);
    }
  }

  /** Snapshots stay sorted. */
  lemma {:induction false} SnapshotsSorted(fs: seq<Finding>, key: Finding -> seq<nat>, s: string)
    ensures s in Gather(fs, key, MergeSnapshot) ==> StrictlySorted(Gather(fs, key, MergeSnapshot)[s].tags, Codes)
  {
    if fs != [] {
      var rest, f := fs[..|fs| - 1], fs[|fs| - 1];
      SnapshotsSorted(rest, key, s);
      if s in Gather(rest, key, MergeSnapshot) {
        SnapshotMerge(Gather(rest, key, MergeSnapshot)[s].tags, f.tag);
      }
    }
  }

  /** Where a selector is first found under a tag. */
  ghost predicate FirstUnder(fs: seq<Finding>, s: string, tag: string, i: nat)
    requires i < |fs|
  {
    && fs[i].selector == s && fs[i].tag == tag
    && forall j :: 0 <= j < i ==> !(fs[j].selector == s && fs[j].tag == tag)
  }

  /** Tags in the order in which the selector was first found under them. */
  ghost predicate InFirstOrder(fs: seq<Finding>, s: string, tags: seq<string>) {
    forall a, b, i, j | 0 <= a < b < |tags| && 0 <= i < |fs| && 0 <= j < |fs| ::
      FirstUnder(fs, s, tags[a], i) && FirstUnder(fs, s, tags[b], j) ==> i < j
  }

  lemma FirstUnderSnoc(fs: seq<Finding>, f: Finding, s: string, tag: string, i: nat)
    requires i < |fs| + 1 && FirstUnder(fs + [f], s, tag, i) && HasTag(fs, s, tag)
    ensures i < |fs| && FirstUnder(fs, s, tag, i)
  {
    var more := fs + [f];
    assert forall j :: 0 <= j < |fs| ==> more[j] == fs[j];
    var k :| 0 <= k < |fs| && fs[k].selector == s && fs[k].tag == tag;
    assert more[k].selector == s && more[k].tag == tag;
  }

  lemma FirstOrderSnoc(fs: seq<Finding>, f: Finding, s: string, tags: seq<string>)
    requires InFirstOrder(fs, s, tags) && Distinct(tags) && forall t :: t in tags <==> HasTag(fs, s, t)
    ensures InFirstOrder(fs + [f], s, if f.selector == s then MergeSymbol(tags, f.tag) else tags)
  {
    var more := fs + [f];
    var all := if f.selector == s then MergeSymbol(tags, f.tag) else tags;
    forall a, b, i, j |
      0 <= a < b < |all| && 0 <= i < |more| && 0 <= j < |more|
      && FirstUnder(more, s, all[a], i) && FirstUnder(more, s, all[b], j)
      ensures i < j
    {
      assert all[a] == tags[a] && tags[a] in tags;
      FirstUnderSnoc(fs, f, s, all[a], i);
      if b < |tags| {
        assert all[b] == tags[b] && tags[b] in tags;
        FirstUnderSnoc(fs, f, s, all[b], j);
      } else {
        NewTagIsLast(fs, f, s, all[b], j);
      }
    }
  }

  lemma NewTagIsLast(fs: seq<Finding>, f: Finding, s: string, tag: string, j: nat)
    requires !HasTag(fs, s, tag) && j <= |fs| && FirstUnder(fs + [f], s, tag, j)
    ensures j == |fs|
  {
  }

  /** The changed symbols of a selected test stand in the order they were first found. */
  lemma {:induction false} SymbolsInOrder(fs: seq<Finding>, key: Finding -> seq<nat>, s: string)
    requires Merges(MergeSymbol)
    ensures s in Gather(fs, key, MergeSymbol) ==> InFirstOrder(fs, s, Gather(fs, key, MergeSymbol)[s].tags)
  {
    if fs != [] {
      var rest, f := fs[..|fs| - 1], fs[|fs| - 1];
      assert fs == rest + [f];
      SymbolsInOrder(rest, key, s);
      GatherMeaning(rest, key, MergeSymbol, s);
      var rows := Gather(rest, key, MergeSymbol);
      if s in rows {
        FirstOrderSnoc(rest, f, s, rows[s].tags);
      }
    }
  }

  /** A capped list and the number of rows before the cap: the kept rows are the
      first `cap` of the whole list. */
  ghost predicate Capped(fs: seq<Finding>, key: Finding -> seq<nat>, cap: nat, kept: seq<Row>, found: nat) {
    exists all: seq<Row> :: && Collected(fs, key, all) && found == |all|
                  && kept == (if |all| <= cap then all else all[..cap])
                  && forall k :: 0 <= k < |all| ==> StrictlySorted(all[k].tags, Codes)
  }

  method CollectCapped(fs: seq<Finding>, queried: Finding -> bool, key: Finding -> seq<nat>, cap: nat)
    returns (kept: seq<Row>, found: nat)
    requires NamesSelector(key)
    ensures Capped(Queried(fs, queried), key, cap, kept, found)
  {
    MergesHold();
    var all := Collect(fs, queried, key, MergeSnapshot);
    found := |all|;
    kept := if |all| <= cap then all else all[..cap];
    forall k | 0 <= k < |all|
      ensures StrictlySorted(all[k].tags, Codes)
    {
      assert all[k] in all;
      SnapshotsSorted(Queried(fs, queried), key, all[k].best.selector);
    }
  }

  /** `collect_callers`. */
  method CollectCallers(paths: seq<Finding>, queried: Finding -> bool, cap: nat) returns (callers: seq<Row>, found: nat)
    ensures Capped(Queried(paths, queried), CallerKey, cap, callers, found)
  {
    KeysNameSelectors();
    callers, found := CollectCapped(paths, queried, CallerKey, cap);
  }

  /** `collect_entry_points`. */
  method CollectEntryPoints(entries: seq<Finding>, queried: Finding -> bool, cap: nat)
    returns (points: seq<Row>, found: nat)
    ensures Capped(Queried(entries, queried), EntryKey, cap, points, found)
  {
    KeysNameSelectors();
    points, found := CollectCapped(entries, queried, EntryKey, cap);
  }

  /** `collect_tests`. */
  method CollectTests(candidates: seq<Finding>, queried: Finding -> bool, cap: nat)
    returns (tests: seq<Row>, found: nat)
    ensures Capped(Queried(candidates, queried), TestKey, cap, tests, found)
  {
    KeysNameSelectors();
    tests, found := CollectCapped(candidates, queried, TestKey, cap);
  }

  /** `test_selection`, over the kept tests tagged with the symbol they were found
      for: one row for every test, with the endpoint of its first finding, the labels of
      its strongest, and all its changed symbols in the order they were found. */
  method TestSelection(tests: seq<Finding>) returns (rows: seq<Row>)
    ensures Collected(tests, TestKey, rows)
    ensures forall k :: 0 <= k < |rows| ==> InFirstOrder(tests, rows[k].best.selector, rows[k].tags)
  {
    KeysNameSelectors();
    MergesHold();
    rows := Collect(tests, _ => true, TestKey, MergeSymbol);
    AllQueried(tests);
    forall k | 0 <= k < |rows|
      ensures InFirstOrder(tests, rows[k].best.selector, rows[k].tags)
    {
      assert rows[k] in rows;
      SymbolsInOrder(tests, TestKey, rows[k].best.selector);
    }
  }

  lemma {:induction false} AllQueried(fs: seq<Finding>)
    ensures Queried(fs, _ => true) == fs
  {
    if fs != [] {
      AllQueried(fs[..|fs| - 1]);
    }
  }

  // ---- What the rows are ----------------------------------------------------------

  /** The collected rows are determined by the findings: the same strongest findings
      in the same order, under the same tags. */
  lemma CollectedIsUnique(fs: seq<Finding>, key: Finding -> seq<nat>, a: seq<Row>, b: seq<Row>)
    requires Collected(fs, key, a) && Collected(fs, key, b)
    ensures Bests(a) == Bests(b)
    ensures |a| == |b| && forall k, t :: 0 <= k < |a| ==> (t in a[k].tags <==> t in b[k].tags)
  {
    BestsSorted(fs, key, a);
    BestsSorted(fs, key, b);
    forall x
      ensures x in Bests(a) <==> x in Bests(b)
    {
      SameBest(fs, key, a, b, x);
      SameBest(fs, key, b, a, x);
    }
    SortedIsUnique(Bests(a), Bests(b), key);
    assert |a| == |Bests(a)| && |b| == |Bests(b)|;
    forall k, t | 0 <= k < |a|
      ensures t in a[k].tags <==> t in b[k].tags
    {
      assert Bests(a)[k] == Bests(b)[k];
    }
  }

  function Bests(rows: seq<Row>): seq<Finding> {
    seq(|rows|, i requires 0 <= i < |rows| => rows[i].best)
  }

  lemma BestsSorted(fs: seq<Finding>, key: Finding -> seq<nat>, rows: seq<Row>)
    requires Collected(fs, key, rows)
    ensures StrictlySorted(Bests(rows), key)
  {
    forall i, j | 0 <= i < j < |rows|
      ensures Less(key(Bests(rows)[i]), key(Bests(rows)[j]))
    {
      assert Less(RowKey(key)(rows[i]), RowKey(key)(rows[j]));
    }
  }

  lemma StrongestIsOne(fs: seq<Finding>, key: Finding -> seq<nat>, s: string, m: nat, n: nat)
    requires m < |fs| && n < |fs| && StrongestAt(fs, key, s, m) && StrongestAt(fs, key, s, n)
    ensures m == n
  {
  }

  lemma RowBest(fs: seq<Finding>, key: Finding -> seq<nat>, rows: seq<Row>, k: nat) returns (m: nat)
    requires Collected(fs, key, rows) && k < |rows|
    ensures m < |fs| && fs[m] == rows[k].best && StrongestAt(fs, key, rows[k].best.selector, m)
  {
    var s := rows[k].best.selector;
    assert Summarises(fs, key, s, rows[k]);
    m :| 0 <= m < |fs| && fs[m] == rows[k].best && StrongestAt(fs, key, s, m);
  }

  lemma RowFor(fs: seq<Finding>, key: Finding -> seq<nat>, rows: seq<Row>, s: string) returns (k: nat)
    requires Collected(fs, key, rows) && Found(fs, s)
    ensures k < |rows| && rows[k].best.selector == s
  {
    k :| 0 <= k < |rows| && rows[k].best.selector == s;
  }

  lemma SameBest(fs: seq<Finding>, key: Finding -> seq<nat>, a: seq<Row>, b: seq<Row>, x: Finding)
    requires Collected(fs, key, a) && Collected(fs, key, b)
    ensures x in Bests(a) ==> x in Bests(b)
  {
    if x in Bests(a) {
      var i :| 0 <= i < |Bests(a)| && Bests(a)[i] == x;
      var m := RowBest(fs, key, a, i);
      var k := RowFor(fs, key, b, x.selector);
      var n := RowBest(fs, key, b, k);
      StrongestIsOne(fs, key, x.selector, m, n);
      assert Bests(b)[k] == x;
    }
  }
}
