// The pairing code: two mutable sets of unpaired selectors and a growing list.

/** `Pairer` and what it reads, proved against the ladder. */
module SymbolPairing {
  import opened Wrappers
  import opened Folding
  import opened PairingLadder
  import opened PairingFacts

  // ---- The inputs -------------------------------------------------------------

  function SelectorOf(row: Symbol): Selector {
    Selector(row.path, row.qualified, row.kind)
  }

  function Produced(rows: seq<Symbol>): set<Selector> {
    set row | row in rows :: SelectorOf(row)
  }

  /** More than one row produces `sel`. */
  ghost predicate Twice(rows: seq<Symbol>, sel: Selector) {
    exists i, j :: 0 <= i < j < |rows| && SelectorOf(rows[i]) == sel && SelectorOf(rows[j]) == sel
  }

  lemma {:induction false} OneMoreRow(rows: seq<Symbol>, row: Symbol)
    ensures Produced(rows + [row]) == Produced(rows) + {SelectorOf(row)}
    ensures forall sel :: Twice(rows + [row], sel) <==>
              Twice(rows, sel) || (sel == SelectorOf(row) && sel in Produced(rows))
  {
    var more := rows + [row];
    forall sel
      ensures Twice(more, sel) <==> Twice(rows, sel) || (sel == SelectorOf(row) && sel in Produced(rows))
    {
      if Twice(more, sel) {
        var i, j :| 0 <= i < j < |more| && SelectorOf(more[i]) == sel && SelectorOf(more[j]) == sel;
        assert rows[i] in rows;
        assert j < |rows| ==> Twice(rows, sel);
      }
      if sel == SelectorOf(row) && sel in Produced(rows) {
        var earlier :| earlier in rows && SelectorOf(earlier) == sel;
        var i :| 0 <= i < |rows| && rows[i] == earlier;
        assert SelectorOf(more[i]) == sel && SelectorOf(more[|rows|]) == sel;
      }
      if Twice(rows, sel) {
        var i, j :| 0 <= i < j < |rows| && SelectorOf(rows[i]) == sel && SelectorOf(rows[j]) == sel;
        assert SelectorOf(more[i]) == sel && SelectorOf(more[j]) == sel;
      }
    }
  }

  /** One more row of an overview. */
  function Listed(inv: Inventory, row: Symbol): Inventory {
    var sel := SelectorOf(row);
    if sel in inv.symbols then
      inv.(symbols := inv.symbols[sel := row], ambiguous := inv.ambiguous + {sel})
    else
      inv.(symbols := inv.symbols[sel := row], byPath := inv.byPath[sel.path := SelectorsIn(inv, sel.path) + [sel]])
  }

  lemma ListedIsWellFormed(inv: Inventory, row: Symbol)
    requires WellFormed(inv)
    ensures WellFormed(Listed(inv, row))
  {
    var next := Listed(inv, row);
    forall p, k | p in next.byPath && 0 <= k < |next.byPath[p]|
      ensures var sel := next.byPath[p][k];
              sel.path == p && sel in next.symbols && next.symbols[sel].path == p && next.symbols[sel].kind == sel.kind
    {
      if p in inv.byPath && k < |inv.byPath[p]| {
        assert next.byPath[p][k] == inv.byPath[p][k];
      }
    }
  }

  ghost predicate LoadedFrom(inv: Inventory, rows: seq<Symbol>) {
    && WellFormed(inv)
    && inv.symbols.Keys == Produced(rows)
    && (forall sel :: sel in inv.ambiguous <==> Twice(rows, sel))
    && (forall sel :: sel in inv.symbols ==> sel in SelectorsIn(inv, sel.path))
  }

  lemma ListedIsLoaded(inv: Inventory, rows: seq<Symbol>, row: Symbol)
    requires LoadedFrom(inv, rows)
    ensures LoadedFrom(Listed(inv, row), rows + [row])
  {
    var next, more := Listed(inv, row), rows + [row];
    assert WellFormed(next) by { ListedIsWellFormed(inv, row); }
    assert next.symbols.Keys == Produced(more) by { OneMoreRow(rows, row); }
    assert forall sel :: sel in next.ambiguous <==> Twice(more, sel) by { ListedAmbiguity(inv, rows, row); }
    assert forall sel :: sel in next.symbols ==> sel in SelectorsIn(next, sel.path) by { AllListedFound(inv, row); }
  }

  lemma AllListedFound(inv: Inventory, row: Symbol)
    requires forall sel :: sel in inv.symbols ==> sel in SelectorsIn(inv, sel.path)
    ensures forall sel :: sel in Listed(inv, row).symbols ==> sel in SelectorsIn(Listed(inv, row), sel.path)
  {
    forall sel | sel in Listed(inv, row).symbols
      ensures sel in SelectorsIn(Listed(inv, row), sel.path)
    {
      ListedIsFound(inv, row, sel);
    }
  }

  lemma ListedAmbiguity(inv: Inventory, rows: seq<Symbol>, row: Symbol)
    requires inv.symbols.Keys == Produced(rows) && forall sel :: sel in inv.ambiguous <==> Twice(rows, sel)
    ensures forall sel :: sel in Listed(inv, row).ambiguous <==> Twice(rows + [row], sel)
  {
    OneMoreRow(rows, row);
  }

  lemma ListedIsFound(inv: Inventory, row: Symbol, sel: Selector)
    requires sel == SelectorOf(row) || sel in inv.symbols
    requires sel in inv.symbols ==> sel in SelectorsIn(inv, sel.path)
    ensures sel in SelectorsIn(Listed(inv, row), sel.path)
  {
  }

  /** `SideInventory::load` over the indexed rows in overview order: the result is
      well formed, knows exactly the indexed selectors, and calls ambiguous exactly
      those that more than one row produces. */
  method Load(rows: seq<Symbol>) returns (inv: Inventory)
    ensures LoadedFrom(inv, rows)
  {
    inv := Inventory(map[], {}, map[], map[]);
    for n := 0 to |rows|
      invariant LoadedFrom(inv, rows[..n])
    {
      assert rows[..n + 1] == rows[..n] + [rows[n]];
      ListedIsLoaded(inv, rows[..n], rows[n]);
      inv := Listed(inv, rows[n]);
    }
    assert rows[..|rows|] == rows;
  }

  /** The last of the deltas that has this path, by base or by head. */
  predicate LastWith(deltas: seq<Delta>, pathOf: Delta -> Option<Text>, path: Text, i: nat)
    requires i < |deltas|
  {
    pathOf(deltas[i]) == Some(path) && forall j :: i < j < |deltas| ==> pathOf(deltas[j]) != Some(path)
  }

  /** A path index holds, for each path, the last delta that has it, and nothing else. */
  ghost predicate IndexesLast(index: map<Text, Delta>, deltas: seq<Delta>, pathOf: Delta -> Option<Text>) {
    && (forall path :: path in index ==>
          exists i :: 0 <= i < |deltas| && LastWith(deltas, pathOf, path, i) && index[path] == deltas[i])
    && (forall i :: 0 <= i < |deltas| && pathOf(deltas[i]).Some? ==> pathOf(deltas[i]).value in index)
  }

  lemma IndexesLastSnoc(index: map<Text, Delta>, deltas: seq<Delta>, pathOf: Delta -> Option<Text>, d: Delta)
    requires IndexesLast(index, deltas, pathOf)
    ensures IndexesLast(if pathOf(d).Some? then index[pathOf(d).value := d] else index, deltas + [d], pathOf)
  {
    var more := deltas + [d];
    var next := if pathOf(d).Some? then index[pathOf(d).value := d] else index;
    forall path | path in next
      ensures exists i :: 0 <= i < |more| && LastWith(more, pathOf, path, i) && next[path] == more[i]
    {
      if pathOf(d) == Some(path) {
        assert LastWith(more, pathOf, path, |deltas|);
      } else {
        var i :| 0 <= i < |deltas| && LastWith(deltas, pathOf, path, i) && index[path] == deltas[i];
        assert LastWith(more, pathOf, path, i);
      }
    }
  }

  function BasePathOf(d: Delta): Option<Text> {
    d.base
  }

  function HeadPathOf(d: Delta): Option<Text> {
    d.head
  }

  /** `ChangedFiles::push`, once per delta. */
  method Index(deltas: seq<Delta>) returns (base: map<Text, Delta>, head: map<Text, Delta>)
    ensures IndexesLast(base, deltas, BasePathOf) && IndexesLast(head, deltas, HeadPathOf)
    ensures base == BaseIndex(deltas) && head == HeadIndex(deltas)
  {
    base, head := map[], map[];
    for k := 0 to |deltas|
      invariant base == BaseIndex(deltas[..k]) && head == HeadIndex(deltas[..k])
      invariant IndexesLast(base, deltas[..k], BasePathOf) && IndexesLast(head, deltas[..k], HeadPathOf)
    {
      var delta := deltas[k];
      assert deltas[..k + 1][..k] == deltas[..k] && deltas[..k + 1] == deltas[..k] + [delta];
      IndexesLastSnoc(base, deltas[..k], BasePathOf, delta);
      IndexesLastSnoc(head, deltas[..k], HeadPathOf, delta);
      if delta.base.Some? {
        base := base[delta.base.value := delta];
      }
      if delta.head.Some? {
        head := head[delta.head.value := delta];
      }
    }
    assert deltas[..|deltas|] == deltas;
  }

  lemma CandidatesGrow(inv: Inventory, paths: set<Text>, path: Text)
    ensures Candidates(inv, paths + {path}) == Candidates(inv, paths) + set sel | sel in SelectorsIn(inv, path)
  {
  }

  method CandidateSelectors(inv: Inventory, paths: set<Text>) returns (selectors: set<Selector>)
    ensures selectors == Candidates(inv, paths)
  {
    selectors := {};
    var todo := paths;
    while todo != {}
      invariant todo <= paths && selectors == Candidates(inv, paths - todo)
    {
      var path :| path in todo;
      assert paths - (todo - {path}) - {path} == paths - todo;
      todo := todo - {path};
      var listed := SelectorsIn(inv, path);
      ghost var before := selectors;
      CandidatesGrow(inv, paths - todo - {path}, path);
      for k := 0 to |listed|
        invariant selectors == before + set j | 0 <= j < k :: listed[j]
      {
        selectors := selectors + {listed[k]};
      }
      assert paths - todo == (paths - todo - {path}) + {path};
      assert (set j | 0 <= j < |listed| :: listed[j]) == set sel | sel in listed;
    }
    assert paths - {} == paths;
  }

  // ---- The pairer -------------------------------------------------------------

  /** What the first rung reports of some shared selectors. */
  function Reported(c: Comparison, shared: set<Selector>): set<Entry> {
    set sel | sel in shared && SameSelector(c, sel).Some? :: SameSelector(c, sel).value
  }

  lemma ReportedGrows(c: Comparison, shared: set<Selector>, sel: Selector)
    requires sel !in shared
    ensures multiset(Reported(c, shared + {sel})) ==
              multiset(Reported(c, shared))
                + (if SameSelector(c, sel).Some? then multiset{SameSelector(c, sel).value} else multiset{})
  {
    if SameSelector(c, sel).Some? {
      var x := SameSelector(c, sel).value;
      assert forall other :: other in shared && SameSelector(c, other).Some? ==>
               SameSelector(c, other).value.base == Some(other);
      assert x !in Reported(c, shared);
      assert Reported(c, shared + {sel}) == Reported(c, shared) + {x};
    } else {
      assert Reported(c, shared + {sel}) == Reported(c, shared);
    }
  }

  /** A group's entry is not among those of other groups. */
  lemma RowIsNew(c: Comparison, rung: Rung, bs: set<Selector>, hs: set<Selector>, keys: set<GroupKey>, key: GroupKey)
    requires key !in keys && key in Keys(c.base, rung, bs)
    ensures Group(c.base, rung, bs, key) != {}
    ensures RowOf(c, rung, bs, hs, key) !in KeyedEffect(c, rung, bs, hs, keys).out
  {
    var sel :| sel in bs && KeyOf(c.base, rung, sel).Some? && KeyOf(c.base, rung, sel).value == key;
    assert sel in Group(c.base, rung, bs, key);
    MatchSpeaksOfGroup(c, rung, Group(c.base, rung, bs, key), Group(c.head, rung, hs, key));
    forall k | k in keys
      ensures sel !in OfBase(MatchEntry(c, rung, Group(c.base, rung, bs, k), Group(c.head, rung, hs, k)))
    {
      MatchSpeaksOfGroup(c, rung, Group(c.base, rung, bs, k), Group(c.head, rung, hs, k));
    }
  }

  lemma KeyedTakes(inv: Inventory, rung: Rung, sels: set<Selector>, keys: set<GroupKey>, key: GroupKey)
    requires key !in keys
    ensures Taken(inv, rung, sels, keys + {key}) == Taken(inv, rung, sels, keys) + Group(inv, rung, sels, key)
    ensures Taken(inv, rung, sels, keys) !! Group(inv, rung, sels, key)
  {
  }

  lemma KeyedEmits(c: Comparison, rung: Rung, bs: set<Selector>, hs: set<Selector>, keys: set<GroupKey>, key: GroupKey)
    ensures KeyedEffect(c, rung, bs, hs, keys + {key}).out ==
            KeyedEffect(c, rung, bs, hs, keys).out
              + {MatchEntry(c, rung, Group(c.base, rung, bs, key), Group(c.head, rung, hs, key))}
  {
  }

  /** Matching one more group adds its members and its entry to the effect. */
  lemma KeyedGrows(c: Comparison, rung: Rung, bs: set<Selector>, hs: set<Selector>, keys: set<GroupKey>, key: GroupKey,
                   st: State)
    requires key !in keys && key in Keys(c.base, rung, bs)
    ensures Group(c.base, rung, bs, key) !! KeyedEffect(c, rung, bs, hs, keys).base
    ensures Group(c.head, rung, hs, key) !! KeyedEffect(c, rung, bs, hs, keys).head
    ensures Apply(Apply(st, KeyedEffect(c, rung, bs, hs, keys)),
                  Effect(Group(c.base, rung, bs, key), Group(c.head, rung, hs, key), {RowOf(c, rung, bs, hs, key)}))
            == Apply(st, KeyedEffect(c, rung, bs, hs, keys + {key}))
  {
    var was, now := KeyedEffect(c, rung, bs, hs, keys), KeyedEffect(c, rung, bs, hs, keys + {key});
    var bg, hg, row := Group(c.base, rung, bs, key), Group(c.head, rung, hs, key), RowOf(c, rung, bs, hs, key);
    RowIsNew(c, rung, bs, hs, keys, key);
    KeyedTakes(c.base, rung, bs, keys, key);
    KeyedTakes(c.head, rung, hs, keys, key);
    KeyedEmits(c, rung, bs, hs, keys, key);
    assert st.base - was.base - bg == st.base - now.base;
    assert st.head - was.head - hg == st.head - now.head;
    assert multiset(was.out + {row}) == multiset(was.out) + multiset({row});
  }

  ghost predicate GroupsOf(inv: Inventory, rung: Rung, sels: set<Selector>, groups: map<GroupKey, set<Selector>>) {
    && groups.Keys == Keys(inv, rung, sels)
    && forall key :: key in groups ==> groups[key] == Group(inv, rung, sels, key)
  }

  ghost predicate Divides<T>(done: set<T>, todo: set<T>, all: set<T>) {
    done !! todo && done + todo == all
  }

  lemma MoveOne<T>(done: set<T>, todo: set<T>, all: set<T>, x: T)
    requires Divides(done, todo, all) && x in todo
    ensures x in all && x !in done && Divides(done + {x}, todo - {x}, all)
  {
  }

  lemma AllMoved<T>(done: set<T>, todo: set<T>, all: set<T>)
    requires Divides(done, todo, all) && todo == {}
    ensures done == all
  {
  }

  lemma NothingKeyed(c: Comparison, rung: Rung, bs: set<Selector>, hs: set<Selector>, st: State)
    ensures Apply(st, KeyedEffect(c, rung, bs, hs, {})) == st
  {
    assert KeyedEffect(c, rung, bs, hs, {}) == Effect({}, {}, {});
    assert st.base - {} == st.base && st.head - {} == st.head;
  }

  class Pairer {
    const files: seq<Delta>
    const c: Comparison
    var unpairedBase: set<Selector>
    var unpairedHead: set<Selector>
    var symbols: seq<Entry>

    ghost function View(): State
      reads this
    {
      State(unpairedBase, unpairedHead, multiset(symbols))
    }

    constructor (base: Inventory, head: Inventory, deltas: seq<Delta>)
      ensures files == deltas && c == Compare(base, head, deltas)
      ensures View() == Start(base, head, deltas)
    {
      var baseIndex, headIndex := Index(deltas);
      var unpairedBase := CandidateSelectors(base, baseIndex.Keys);
      var unpairedHead := CandidateSelectors(head, headIndex.Keys);
      files, c := deltas, Comparison(base, head, baseIndex, headIndex);
      this.unpairedBase, this.unpairedHead, symbols := unpairedBase, unpairedHead, [];
    }

    /** Rungs 1 and 2. */
    method PairSameSelector()
      modifies this
      ensures View() == Same(c, old(View()))
    {
      var shared := unpairedBase * unpairedHead;
      var todo := shared;
      while todo != {}
        invariant todo <= shared
        invariant unpairedBase == old(unpairedBase) - (shared - todo)
                  && unpairedHead == old(unpairedHead) - (shared - todo)
        invariant multiset(symbols) == old(multiset(symbols)) + multiset(Reported(c, shared - todo))
      {
        var sel :| sel in todo;
        ReportedGrows(c, shared - todo, sel);
        assert shared - (todo - {sel}) == (shared - todo) + {sel};
        todo := todo - {sel};
        unpairedBase := unpairedBase - {sel};
        unpairedHead := unpairedHead - {sel};
        var reported := SameSelector(c, sel);
        if reported.Some? {
          symbols := symbols + [reported.value];
        }
      }
      assert shared - {} == shared;
    }

    method GroupBy(inv: Inventory, rung: Rung, sels: set<Selector>) returns (groups: map<GroupKey, set<Selector>>)
      ensures GroupsOf(inv, rung, sels, groups)
    {
      groups := map[];
      var todo := sels;
      while todo != {}
        invariant todo <= sels
        invariant groups.Keys == Keys(inv, rung, sels - todo)
        invariant forall key :: key in groups ==> groups[key] == Group(inv, rung, sels - todo, key)
      {
        var sel :| sel in todo;
        assert sels - (todo - {sel}) == (sels - todo) + {sel};
        todo := todo - {sel};
        var key := KeyOf(inv, rung, sel);
        if key.Some? {
          groups := groups[key.value := (if key.value in groups then groups[key.value] else {}) + {sel}];
        }
      }
      assert sels - {} == sels;
    }

    /** `emit_moved` and `emit_renamed`. */
    method EmitPair(rung: Rung, b: Selector, h: Selector)
      modifies this
      ensures View() == Apply(old(View()), Effect({b}, {h}, {PairEntry(c, rung, b, h)}))
    {
      unpairedBase := unpairedBase - {b};
      unpairedHead := unpairedHead - {h};
      symbols := symbols + [PairEntry(c, rung, b, h)];
    }

    method EmitUncertainGroup(rung: Rung, bs: set<Selector>, hs: set<Selector>)
      modifies this
      ensures var b, h := bs * old(unpairedBase), hs * old(unpairedHead);
              View() == if b == {} && h == {} then old(View())
                        else Apply(old(View()), Effect(b, h, {GroupEntry(rung, b, h)}))
    {
      var b, h := bs * unpairedBase, hs * unpairedHead;
      if b == {} && h == {} {
        return;
      }
      unpairedBase := unpairedBase - b;
      unpairedHead := unpairedHead - h;
      symbols := symbols + [GroupEntry(rung, b, h)];
    }

    method MatchGroup(rung: Rung, bg: set<Selector>, hg: set<Selector>)
      requires bg <= unpairedBase && hg <= unpairedHead && bg != {}
      modifies this
      ensures View() == Apply(old(View()), Effect(bg, hg, {MatchEntry(c, rung, bg, hg)}))
    {
      if OneToOne(rung, bg, hg) {
        EmitPair(rung, The(bg), The(hg));
      } else {
        assert bg * unpairedBase == bg && hg * unpairedHead == hg;
        EmitUncertainGroup(rung, bg, hg);
      }
    }

    method MatchKey(rung: Rung, bs: set<Selector>, hs: set<Selector>, key: GroupKey,
                    baseGroups: map<GroupKey, set<Selector>>, headGroups: map<GroupKey, set<Selector>>,
                    ghost done: set<GroupKey>, ghost start: State)
      requires GroupsOf(c.base, rung, bs, baseGroups) && GroupsOf(c.head, rung, hs, headGroups)
      requires key in baseGroups && key in headGroups && key !in done && bs <= start.base && hs <= start.head
      requires View() == Apply(start, KeyedEffect(c, rung, bs, hs, done))
      modifies this
      ensures View() == Apply(start, KeyedEffect(c, rung, bs, hs, done + {key}))
    {
      KeyedGrows(c, rung, bs, hs, done, key, start);
      RowIsNew(c, rung, bs, hs, done, key);
      MatchGroup(rung, baseGroups[key], headGroups[key]);
    }

    /** One grouping rung: in one file pair, one file, or across all paths. */
    method ClimbRung(rung: Rung)
      modifies this
      ensures View() == RungIn(c, rung, old(View()))
    {
      var bs := Scope(c.base, unpairedBase, BasePath(rung));
      var hs := Scope(c.head, unpairedHead, HeadPath(rung));
      var baseGroups := GroupBy(c.base, rung, bs);
      var headGroups := GroupBy(c.head, rung, hs);
      MatchGroups(rung, bs, hs, baseGroups, headGroups, baseGroups.Keys * headGroups.Keys, View());
    }

    method MatchGroups(rung: Rung, bs: set<Selector>, hs: set<Selector>,
                       baseGroups: map<GroupKey, set<Selector>>, headGroups: map<GroupKey, set<Selector>>,
                       keys: set<GroupKey>, ghost start: State)
      requires bs <= start.base && hs <= start.head
      requires GroupsOf(c.base, rung, bs, baseGroups) && GroupsOf(c.head, rung, hs, headGroups)
      requires keys <= baseGroups.Keys && keys <= headGroups.Keys && start == View()
      modifies this
      ensures View() == Apply(start, KeyedEffect(c, rung, bs, hs, keys))
    {
      NothingKeyed(c, rung, bs, hs, start);
      var todo := keys;
      ghost var done: set<GroupKey> := {};
      assert Divides(done, todo, keys);
      while todo != {}
        invariant Divides(done, todo, keys)
        invariant View() == Apply(start, KeyedEffect(c, rung, bs, hs, done))
      {
        var key :| key in todo;
        MoveOne(done, todo, keys, key);
        MatchKey(rung, bs, hs, key, baseGroups, headGroups, done, start);
        todo := todo - {key};
        done := done + {key};
      }
      AllMoved(done, todo, keys);
    }

    method PairAcrossRenamedFiles()
      modifies this
      ensures View() == Files(c, AcrossFiles, files, old(View()))
    {
      for k := 0 to |files|
        invariant View() == Files(c, AcrossFiles, files[..k], old(View()))
      {
        var delta := files[k];
        ghost var before := View();
        if IsRename(delta) {
          ClimbRung(MovedIn(delta.base.value, delta.head.value, delta.kind));
          ClimbRung(RenamedIn(delta.base.value, delta.head.value, delta.kind));
        }
        assert View() == FileStep(c, AcrossFiles, delta, before);
        FilesSnoc(c, AcrossFiles, files, k, old(View()));
      }
      assert files[..|files|] == files;
    }

    method PairRenamedByBodyHash()
      modifies this
      ensures View() == Files(c, WithinFiles, files, old(View()))
    {
      for k := 0 to |files|
        invariant View() == Files(c, WithinFiles, files[..k], old(View()))
      {
        var delta := files[k];
        ghost var before := View();
        if IsSamePath(delta) {
          ClimbRung(SameBody(delta.base.value, delta.kind));
        }
        assert View() == FileStep(c, WithinFiles, delta, before);
        FilesSnoc(c, WithinFiles, files, k, old(View()));
      }
      assert files[..|files|] == files;
    }

    method EmitRemoved(bases: set<Selector>)
      modifies this`symbols
      ensures multiset(symbols) == old(multiset(symbols)) + multiset(RemovedOf(c, bases))
    {
      var todo := bases;
      while todo != {}
        invariant todo <= bases
        invariant multiset(symbols) == old(multiset(symbols)) + multiset(RemovedOf(c, bases - todo))
      {
        var sel :| sel in todo;
        RemovedGrows(c, bases - todo, sel);
        assert bases - (todo - {sel}) == bases - todo + {sel};
        todo := todo - {sel};
        symbols := symbols + [RemovedEntry(c, sel)];
      }
      assert bases - {} == bases;
    }

    method EmitAdded(heads: set<Selector>)
      modifies this`symbols
      ensures multiset(symbols) == old(multiset(symbols)) + multiset(AddedOf(c, heads))
    {
      var todo := heads;
      while todo != {}
        invariant todo <= heads
        invariant multiset(symbols) == old(multiset(symbols)) + multiset(AddedOf(c, heads - todo))
      {
        var sel :| sel in todo;
        AddedGrows(c, heads - todo, sel);
        assert heads - (todo - {sel}) == heads - todo + {sel};
        todo := todo - {sel};
        symbols := symbols + [AddedEntry(c, sel)];
      }
      assert heads - {} == heads;
    }

    method EmitUnpaired()
      modifies this
      ensures View() == Leftover(c, old(View()))
    {
      var bases, heads := unpairedBase, unpairedHead;
      unpairedBase, unpairedHead := {}, {};
      EmitRemoved(bases);
      EmitAdded(heads);
      LeftoverSplits(c, old(View()));
    }
  }

  function RemovedOf(c: Comparison, sels: set<Selector>): set<Entry> {
    set sel | sel in sels :: RemovedEntry(c, sel)
  }

  function AddedOf(c: Comparison, sels: set<Selector>): set<Entry> {
    set sel | sel in sels :: AddedEntry(c, sel)
  }

  lemma RemovedGrows(c: Comparison, sels: set<Selector>, sel: Selector)
    requires sel !in sels
    ensures multiset(RemovedOf(c, sels + {sel})) == multiset(RemovedOf(c, sels)) + multiset{RemovedEntry(c, sel)}
  {
    assert forall x :: x in RemovedOf(c, sels) ==> x.base != Some(sel);
    assert RemovedOf(c, sels + {sel}) == RemovedOf(c, sels) + {RemovedEntry(c, sel)};
  }

  lemma AddedGrows(c: Comparison, sels: set<Selector>, sel: Selector)
    requires sel !in sels
    ensures multiset(AddedOf(c, sels + {sel})) == multiset(AddedOf(c, sels)) + multiset{AddedEntry(c, sel)}
  {
    assert forall x :: x in AddedOf(c, sels) ==> x.head != Some(sel);
    assert AddedOf(c, sels + {sel}) == AddedOf(c, sels) + {AddedEntry(c, sel)};
  }

  lemma LeftoverSplits(c: Comparison, st: State)
    ensures Leftover(c, st) == State({}, {}, st.out + multiset(RemovedOf(c, st.base)) + multiset(AddedOf(c, st.head)))
  {
    var removed, added := RemovedOf(c, st.base), AddedOf(c, st.head);
    assert removed !! added;
    assert multiset(removed + added) == multiset(removed) + multiset(added);
    assert st.base - st.base == {} && st.head - st.head == {};
  }

  lemma FilesSnoc(c: Comparison, pass: Pass, files: seq<Delta>, k: nat, st: State)
    requires k < |files|
    ensures Files(c, pass, files[..k + 1], st) == FileStep(c, pass, files[k], Files(c, pass, files[..k], st))
  {
    assert files[..k + 1] == files[..k] + [files[k]];
    FoldSnoc((d, before) => FileStep(c, pass, d, before), files[..k], files[k], st);
  }

  /** The whole computation: what it returns is the ladder's result, whatever order
      sets and groups are walked in. */
  method Compute(base: Inventory, head: Inventory, deltas: seq<Delta>) returns (symbols: seq<Entry>)
    ensures multiset(symbols) == ChangedSymbols(base, head, deltas)
  {
    var pairer := new Pairer(base, head, deltas);
    pairer.PairSameSelector();
    pairer.PairAcrossRenamedFiles();
    pairer.PairRenamedByBodyHash();
    pairer.ClimbRung(CrossPath);
    pairer.EmitUnpaired();
    symbols := pairer.symbols;
  }
}
