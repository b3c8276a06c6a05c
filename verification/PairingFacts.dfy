// What the pairing ladder guarantees.

/** Exact accounting, no false remove/add pair, and sole matches. */
module PairingFacts {
  import opened Wrappers
  import opened Folding
  import opened PairingLadder

  // ---- Exact accounting -------------------------------------------------------

  datatype Side = Base | Head

  /** The selectors of one side an entry speaks about. */
  function Of(side: Side, x: Entry): set<Selector> {
    if side == Base then OfBase(x) else OfHead(x)
  }

  ghost predicate Covered(side: Side, out: set<Entry>, sel: Selector) {
    exists x :: x in out && sel in Of(side, x)
  }

  /** Of the selectors `all` of one side, each is still `left`, or quiet, or in
      exactly one entry of `out`; and `out` speaks about nothing else. */
  ghost predicate Once(side: Side, out: set<Entry>, left: set<Selector>, all: set<Selector>, quiet: set<Selector>) {
    && left <= all
    && (forall x :: x in out ==> Of(side, x) <= all - left - quiet)
    && (forall x, y :: x in out && y in out && x != y ==> Of(side, x) !! Of(side, y))
    && (forall sel :: sel in all - left - quiet ==> Covered(side, out, sel))
  }

  lemma OnceAndOnce(side: Side, out: set<Entry>, left: set<Selector>, all: set<Selector>, more: set<Entry>,
                    taken: set<Selector>, quiet: set<Selector>)
    requires Once(side, out, left, all, quiet) && Once(side, more, {}, taken, quiet) && taken <= left
    ensures Once(side, out + more, left - taken, all, quiet)
  {
    forall sel | sel in all - (left - taken) - quiet
      ensures Covered(side, out + more, sel)
    {
      if sel in taken {
        assert Covered(side, more, sel);
        var x :| x in more && sel in Of(side, x);
        assert x in out + more;
      } else {
        assert Covered(side, out, sel);
        var x :| x in out && sel in Of(side, x);
        assert x in out + more;
      }
    }
  }

  function Rows(out: multiset<Entry>): set<Entry> {
    set x | x in out
  }

  ghost predicate Speaks(out: set<Entry>) {
    forall x :: x in out ==> Of(Base, x) != {} || Of(Head, x) != {}
  }

  /** An effect speaks once about each selector it takes, except the quiet ones. */
  ghost predicate Exact(e: Effect, quiet: set<Selector>) {
    Speaks(e.out) && Once(Base, e.out, {}, e.base, quiet) && Once(Head, e.out, {}, e.head, quiet)
  }

  /** Every entry was emitted once, and both sides are accounted for. */
  ghost predicate Accounted(st: State, base: set<Selector>, head: set<Selector>, quiet: set<Selector>) {
    && (forall x :: x in st.out ==> st.out[x] == 1)
    && Speaks(Rows(st.out))
    && Once(Base, Rows(st.out), st.base, base, quiet)
    && Once(Head, Rows(st.out), st.head, head, quiet)
  }

  lemma ApplyKeepsAccounts(st: State, e: Effect, base: set<Selector>, head: set<Selector>, quiet: set<Selector>)
    requires Accounted(st, base, head, quiet) && Exact(e, quiet)
    requires e.base <= st.base && e.head <= st.head
    ensures Accounted(Apply(st, e), base, head, quiet)
  {
    var t := Apply(st, e);
    OnceAndOnce(Base, Rows(st.out), st.base, base, e.out, e.base, quiet);
    OnceAndOnce(Head, Rows(st.out), st.head, head, e.out, e.head, quiet);
    assert Rows(t.out) == Rows(st.out) + e.out;
    forall x | x in t.out
      ensures t.out[x] == 1
    {
      assert Of(Base, x) != {} || Of(Head, x) != {};
      assert !(x in e.out && x in Rows(st.out));
    }
  }

  /** A matched group's entry speaks about exactly that group. */
  lemma MatchSpeaksOfGroup(c: Comparison, rung: Rung, bs: set<Selector>, hs: set<Selector>)
    ensures OfBase(MatchEntry(c, rung, bs, hs)) == bs && OfHead(MatchEntry(c, rung, bs, hs)) == hs
  {
  }

  lemma RungIsExact(c: Comparison, rung: Rung, bs: set<Selector>, hs: set<Selector>, quiet: set<Selector>)
    requires quiet !! bs && quiet !! hs
    ensures Exact(RungEffect(c, rung, bs, hs), quiet)
    ensures RungEffect(c, rung, bs, hs).base <= bs && RungEffect(c, rung, bs, hs).head <= hs
  {
    var e := RungEffect(c, rung, bs, hs);
    forall x | x in e.out
      ensures Of(Base, x) <= e.base && Of(Head, x) <= e.head && Of(Base, x) != {}
    {
      RowIsWithin(c, rung, bs, hs, x);
    }
    forall x, y | x in e.out && y in e.out && x != y
      ensures Of(Base, x) !! Of(Base, y) && Of(Head, x) !! Of(Head, y)
    {
      RowsAreApart(c, rung, bs, hs, x, y);
    }
    RungCovers(c, rung, bs, hs);
  }

  /** What a rung takes is what its entries speak about. */
  lemma RungCovers(c: Comparison, rung: Rung, bs: set<Selector>, hs: set<Selector>)
    ensures var e := RungEffect(c, rung, bs, hs);
            && (forall sel :: sel in e.base ==> Covered(Base, e.out, sel))
            && (forall sel :: sel in e.head ==> Covered(Head, e.out, sel))
  {
    var e := RungEffect(c, rung, bs, hs);
    forall sel | sel in e.base
      ensures Covered(Base, e.out, sel)
    {
      var key := KeyOf(c.base, rung, sel).value;
      MatchSpeaksOfGroup(c, rung, Group(c.base, rung, bs, key), Group(c.head, rung, hs, key));
      assert RowOf(c, rung, bs, hs, key) in e.out && sel in Group(c.base, rung, bs, key);
    }
    forall sel | sel in e.head
      ensures Covered(Head, e.out, sel)
    {
      var key := KeyOf(c.head, rung, sel).value;
      MatchSpeaksOfGroup(c, rung, Group(c.base, rung, bs, key), Group(c.head, rung, hs, key));
      assert RowOf(c, rung, bs, hs, key) in e.out && sel in Group(c.head, rung, hs, key);
    }
  }

  /** The group an entry of a rung is about. */
  lemma RowKey(c: Comparison, rung: Rung, bs: set<Selector>, hs: set<Selector>, x: Entry) returns (key: GroupKey)
    requires x in RungEffect(c, rung, bs, hs).out
    ensures key in Keys(c.base, rung, bs) * Keys(c.head, rung, hs) && x == RowOf(c, rung, bs, hs, key)
    ensures Of(Base, x) == Group(c.base, rung, bs, key) && Of(Head, x) == Group(c.head, rung, hs, key)
  {
    var keys := Keys(c.base, rung, bs) * Keys(c.head, rung, hs);
    key :| key in keys && x == RowOf(c, rung, bs, hs, key);
    MatchSpeaksOfGroup(c, rung, Group(c.base, rung, bs, key), Group(c.head, rung, hs, key));
  }

  lemma RowIsWithin(c: Comparison, rung: Rung, bs: set<Selector>, hs: set<Selector>, x: Entry)
    requires x in RungEffect(c, rung, bs, hs).out
    ensures var e := RungEffect(c, rung, bs, hs);
            Of(Base, x) <= e.base && Of(Head, x) <= e.head && Of(Base, x) != {}
  {
    var key := RowKey(c, rung, bs, hs, x);
    var sel :| sel in bs && KeyOf(c.base, rung, sel).Some? && KeyOf(c.base, rung, sel).value == key;
    assert sel in Group(c.base, rung, bs, key);
  }

  lemma RowsAreApart(c: Comparison, rung: Rung, bs: set<Selector>, hs: set<Selector>, x: Entry, y: Entry)
    requires x in RungEffect(c, rung, bs, hs).out && y in RungEffect(c, rung, bs, hs).out && x != y
    ensures Of(Base, x) !! Of(Base, y) && Of(Head, x) !! Of(Head, y)
  {
    var kx := RowKey(c, rung, bs, hs, x);
    var ky := RowKey(c, rung, bs, hs, y);
    assert kx != ky;
  }

  function RowOf(c: Comparison, rung: Rung, bs: set<Selector>, hs: set<Selector>, key: GroupKey): Entry {
    MatchEntry(c, rung, Group(c.base, rung, bs, key), Group(c.head, rung, hs, key))
  }

  lemma RungKeepsAccounts(c: Comparison, rung: Rung, st: State, base: set<Selector>, head: set<Selector>,
                          quiet: set<Selector>)
    requires Accounted(st, base, head, quiet) && quiet !! st.base && quiet !! st.head
    ensures Accounted(RungIn(c, rung, st), base, head, quiet)
    ensures RungIn(c, rung, st).base <= st.base && RungIn(c, rung, st).head <= st.head
  {
    var bs, hs := Scope(c.base, st.base, BasePath(rung)), Scope(c.head, st.head, HeadPath(rung));
    RungIsExact(c, rung, bs, hs, quiet);
    ApplyKeepsAccounts(st, RungEffect(c, rung, bs, hs), base, head, quiet);
  }

  lemma {:induction false} FilesKeepAccounts(c: Comparison, pass: Pass, deltas: seq<Delta>, st: State,
                                             base: set<Selector>, head: set<Selector>, quiet: set<Selector>)
    requires Accounted(st, base, head, quiet) && quiet !! st.base && quiet !! st.head
    ensures Accounted(Files(c, pass, deltas, st), base, head, quiet)
    ensures Files(c, pass, deltas, st).base <= st.base && Files(c, pass, deltas, st).head <= st.head
  {
    if deltas != [] {
      var d := deltas[|deltas| - 1];
      var before := Files(c, pass, deltas[..|deltas| - 1], st);
      FilesKeepAccounts(c, pass, deltas[..|deltas| - 1], st, base, head, quiet);
      if pass == AcrossFiles && IsRename(d) {
        var moved := RungIn(c, MovedIn(d.base.value, d.head.value, d.kind), before);
        RungKeepsAccounts(c, MovedIn(d.base.value, d.head.value, d.kind), before, base, head, quiet);
        RungKeepsAccounts(c, RenamedIn(d.base.value, d.head.value, d.kind), moved, base, head, quiet);
      } else if pass == WithinFiles && IsSamePath(d) {
        RungKeepsAccounts(c, SameBody(d.base.value, d.kind), before, base, head, quiet);
      }
    }
  }

  /** The shared selectors whose source did not change. */
  function Quiet(c: Comparison, st: State): set<Selector> {
    set sel | sel in st.base * st.head && Unchanged(c, sel)
  }

  lemma {:induction false} SameKeepsAccounts(c: Comparison, st: State)
    requires st.out == multiset{}
    ensures Accounted(Same(c, st), st.base, st.head, Quiet(c, st))
    ensures Quiet(c, st) !! Same(c, st).base && Quiet(c, st) !! Same(c, st).head
  {
    SameIsExact(c, st);
    ApplyKeepsAccounts(st, SameEffect(c, st), st.base, st.head, Quiet(c, st));
  }

  function SameEffect(c: Comparison, st: State): Effect {
    var shared := st.base * st.head;
    Effect(shared, shared, set sel | sel in shared && SameSelector(c, sel).Some? :: SameSelector(c, sel).value)
  }

  lemma {:induction false} SameIsExact(c: Comparison, st: State)
    ensures Exact(SameEffect(c, st), Quiet(c, st))
  {
    var shared, quiet := st.base * st.head, Quiet(c, st);
    var e := SameEffect(c, st);
    forall sel | sel in shared
      ensures SameSelector(c, sel).Some? <==> sel !in quiet
      ensures SameSelector(c, sel).Some? ==>
                OfBase(SameSelector(c, sel).value) == {sel} == OfHead(SameSelector(c, sel).value)
    {
    }
    forall sel | sel in shared - quiet
      ensures Covered(Base, e.out, sel) && Covered(Head, e.out, sel)
    {
      assert SameSelector(c, sel).value in e.out;
      assert sel in Of(Base, SameSelector(c, sel).value) && sel in Of(Head, SameSelector(c, sel).value);
    }
  }

  function LeftoverEffect(c: Comparison, base: set<Selector>, head: set<Selector>): Effect {
    Effect(base, head, (set sel | sel in base :: RemovedEntry(c, sel)) + (set sel | sel in head :: AddedEntry(c, sel)))
  }

  lemma LeftoverIsExact(c: Comparison, base: set<Selector>, head: set<Selector>, quiet: set<Selector>)
    requires quiet !! base && quiet !! head
    ensures Exact(LeftoverEffect(c, base, head), quiet)
  {
    var e := LeftoverEffect(c, base, head);
    forall x | x in e.out
      ensures (exists sel :: sel in base && x == RemovedEntry(c, sel) && Of(Base, x) == {sel} && Of(Head, x) == {})
           || (exists sel :: sel in head && x == AddedEntry(c, sel) && Of(Head, x) == {sel} && Of(Base, x) == {})
    {
      if sel :| sel in base && x == RemovedEntry(c, sel) {
        assert Of(Base, x) == {sel} && Of(Head, x) == {};
      } else {
        var sel :| sel in head && x == AddedEntry(c, sel);
        assert Of(Head, x) == {sel} && Of(Base, x) == {};
      }
    }
    forall sel | sel in base
      ensures Covered(Base, e.out, sel)
    {
      assert RemovedEntry(c, sel) in e.out && sel in Of(Base, RemovedEntry(c, sel));
    }
    forall sel | sel in head
      ensures Covered(Head, e.out, sel)
    {
      assert AddedEntry(c, sel) in e.out && sel in Of(Head, AddedEntry(c, sel));
    }
  }

  lemma LeftoverKeepsAccounts(c: Comparison, st: State, base: set<Selector>, head: set<Selector>, quiet: set<Selector>)
    requires Accounted(st, base, head, quiet) && quiet !! st.base && quiet !! st.head
    ensures Accounted(Leftover(c, st), base, head, quiet)
  {
    LeftoverIsExact(c, st.base, st.head, quiet);
    ApplyKeepsAccounts(st, LeftoverEffect(c, st.base, st.head), base, head, quiet);
  }

  lemma PairedIsAccounted(base: Inventory, head: Inventory, deltas: seq<Delta>)
    ensures var start := Start(base, head, deltas);
            var quiet := Quiet(Compare(base, head, deltas), start);
            && Accounted(Paired(base, head, deltas), start.base, start.head, quiet)
            && quiet !! Paired(base, head, deltas).base && quiet !! Paired(base, head, deltas).head
  {
    var c := Compare(base, head, deltas);
    var start := Start(base, head, deltas);
    var quiet := Quiet(c, start);
    SameKeepsAccounts(c, start);
    FilesKeepAccounts(c, AcrossFiles, deltas, Same(c, start), start.base, start.head, quiet);
    var across := Files(c, AcrossFiles, deltas, Same(c, start));
    FilesKeepAccounts(c, WithinFiles, deltas, across, start.base, start.head, quiet);
    RungKeepsAccounts(c, CrossPath, Files(c, WithinFiles, deltas, across), start.base, start.head, quiet);
  }

  /** For every input: a candidate of either side that is not an unchanged shared
      selector is in exactly one emitted entry, emitted once; an unchanged one is in
      none; and every emitted entry speaks about candidates only. */
  lemma NothingLostOrDuplicated(base: Inventory, head: Inventory, deltas: seq<Delta>)
    ensures var start := Start(base, head, deltas);
            var quiet := Quiet(Compare(base, head, deltas), start);
            Accounted(State({}, {}, ChangedSymbols(base, head, deltas)), start.base, start.head, quiet)
  {
    var c := Compare(base, head, deltas);
    var start := Start(base, head, deltas);
    var paired := Paired(base, head, deltas);
    PairedIsAccounted(base, head, deltas);
    LeftoverKeepsAccounts(c, paired, start.base, start.head, Quiet(c, start));
    assert Leftover(c, paired) == State({}, {}, ChangedSymbols(base, head, deltas)) by {
      assert paired.base - paired.base == {} && paired.head - paired.head == {};
    }
  }

  // ---- Sole matches, and no false remove/add pair -----------------------------

  /** Whatever is pending, a rung reports a move or rename only between symbols of
      one kind that are each the only member of their group; a move also keeps the
      name, and a body-hash rename the parent and the normalised body. */
  lemma PairsAreSoleMatches(c: Comparison, rung: Rung, bs: set<Selector>, hs: set<Selector>, x: Entry)
    requires x in RungEffect(c, rung, bs, hs).out && (x.status == Moved || x.status == Renamed)
    ensures x.base.Some? && x.head.Some? && x.base.value in c.base.symbols && x.head.value in c.head.symbols
    ensures var b, h := c.base.symbols[x.base.value], c.head.symbols[x.head.value];
            b.kind == h.kind && (x.status == Moved ==> b.name == h.name)
    ensures exists key ::
              && Group(c.base, rung, bs, key) == {x.base.value} && Group(c.head, rung, hs, key) == {x.head.value}
              && (rung.SameBody? ==> key.OfBody?)
  {
    var keys := Keys(c.base, rung, bs) * Keys(c.head, rung, hs);
    var key :| key in keys && x == MatchEntry(c, rung, Group(c.base, rung, bs, key), Group(c.head, rung, hs, key));
    var bg, hg := Group(c.base, rung, bs, key), Group(c.head, rung, hs, key);
    assert x == MatchEntry(c, rung, bg, hg);
    assert bg == {x.base.value} && hg == {x.head.value};
    assert x.base.value in bg && x.head.value in hg;
  }

  // ---- The rungs of a run -------------------------------------------------------

  /** At `st`, on the way over a delta reached in state `before`, the rung is climbed. */
  predicate ClimbedOver(c: Comparison, pass: Pass, d: Delta, before: State, rung: Rung, st: State) {
    if pass == AcrossFiles && IsRename(d) then
      var moved := MovedIn(d.base.value, d.head.value, d.kind);
      || (rung == moved && st == before)
      || (rung == RenamedIn(d.base.value, d.head.value, d.kind) && st == RungIn(c, moved, before))
    else
      pass == WithinFiles && IsSamePath(d) && rung == SameBody(d.base.value, d.kind) && st == before
  }

  /** In a pass over the deltas that begins in `first`, the rung is climbed at `st`. */
  ghost predicate ClimbedIn(c: Comparison, pass: Pass, deltas: seq<Delta>, first: State, rung: Rung, st: State) {
    exists k :: 0 <= k < |deltas| && ClimbedOver(c, pass, deltas[k], Files(c, pass, deltas[..k], first), rung, st)
  }

  /** In the run over these inventories and deltas, the rung is climbed at `st`. */
  ghost predicate Climbed(base: Inventory, head: Inventory, deltas: seq<Delta>, rung: Rung, st: State) {
    var c := Compare(base, head, deltas);
    var same := Same(c, Start(base, head, deltas));
    var across := Files(c, AcrossFiles, deltas, same);
    || ClimbedIn(c, AcrossFiles, deltas, same, rung, st)
    || ClimbedIn(c, WithinFiles, deltas, across, rung, st)
    || (rung == CrossPath && st == Files(c, WithinFiles, deltas, across))
  }

  /** What the rung emits when it is climbed at `st`. */
  function Emitted(c: Comparison, rung: Rung, st: State): set<Entry> {
    RungEffect(c, rung, Scope(c.base, st.base, BasePath(rung)), Scope(c.head, st.head, HeadPath(rung))).out
  }

  /** What holds of all a pass emits holds of all entries after it, if it held before. */
  ghost predicate All(st: State, p: Entry -> bool) {
    forall x :: x in st.out ==> p(x)
  }

  ghost predicate OfClimbs(c: Comparison, pass: Pass, deltas: seq<Delta>, first: State, p: Entry -> bool) {
    forall rung, st, x :: ClimbedIn(c, pass, deltas, first, rung, st) && x in Emitted(c, rung, st) ==> p(x)
  }

  lemma RungKeepsAll(c: Comparison, rung: Rung, st: State, p: Entry -> bool)
    requires All(st, p) && forall x :: x in Emitted(c, rung, st) ==> p(x)
    ensures All(RungIn(c, rung, st), p)
  {
    forall x | x in RungIn(c, rung, st).out
      ensures p(x)
    {
      assert x in st.out || x in Emitted(c, rung, st);
    }
  }

  lemma {:induction false} OfFewerClimbs(c: Comparison, pass: Pass, deltas: seq<Delta>, first: State, p: Entry -> bool)
    requires deltas != [] && OfClimbs(c, pass, deltas, first, p)
    ensures OfClimbs(c, pass, deltas[..|deltas| - 1], first, p)
  {
    var n := |deltas| - 1;
    forall rung, st, x | ClimbedIn(c, pass, deltas[..n], first, rung, st) && x in Emitted(c, rung, st)
      ensures p(x)
    {
      ClimbedEarlier(c, pass, deltas[..n], deltas, first, rung, st);
    }
  }

  lemma {:induction false} ClimbedEarlier(c: Comparison, pass: Pass, fewer: seq<Delta>, deltas: seq<Delta>,
                                          first: State, rung: Rung, st: State)
    requires fewer <= deltas && ClimbedIn(c, pass, fewer, first, rung, st)
    ensures ClimbedIn(c, pass, deltas, first, rung, st)
  {
    var k :| 0 <= k < |fewer| && ClimbedOver(c, pass, fewer[k], Files(c, pass, fewer[..k], first), rung, st);
    assert fewer[..k] == deltas[..k];
    assert ClimbedOver(c, pass, deltas[k], Files(c, pass, deltas[..k], first), rung, st);
  }

  lemma LastClimb(c: Comparison, pass: Pass, deltas: seq<Delta>, first: State, rung: Rung, st: State)
    requires deltas != []
    requires ClimbedOver(c, pass, deltas[|deltas| - 1], Files(c, pass, deltas[..|deltas| - 1], first), rung, st)
    ensures ClimbedIn(c, pass, deltas, first, rung, st)
  {
  }

  lemma {:induction false} FilesKeepAll(c: Comparison, pass: Pass, deltas: seq<Delta>, first: State, p: Entry -> bool)
    requires All(first, p) && OfClimbs(c, pass, deltas, first, p)
    ensures All(Files(c, pass, deltas, first), p)
    decreases |deltas|
  {
    if deltas != [] {
      var d := deltas[|deltas| - 1];
      var before := Files(c, pass, deltas[..|deltas| - 1], first);
      OfFewerClimbs(c, pass, deltas, first, p);
      FilesKeepAll(c, pass, deltas[..|deltas| - 1], first, p);
      if pass == AcrossFiles && IsRename(d) {
        var moved := MovedIn(d.base.value, d.head.value, d.kind);
        LastClimb(c, pass, deltas, first, moved, before);
        RungKeepsAll(c, moved, before, p);
        LastClimb(c, pass, deltas, first, RenamedIn(d.base.value, d.head.value, d.kind), RungIn(c, moved, before));
        RungKeepsAll(c, RenamedIn(d.base.value, d.head.value, d.kind), RungIn(c, moved, before), p);
      } else if pass == WithinFiles && IsSamePath(d) {
        LastClimb(c, pass, deltas, first, SameBody(d.base.value, d.kind), before);
        RungKeepsAll(c, SameBody(d.base.value, d.kind), before, p);
      }
    }
  }

  /** What holds of all that the rungs of the run and the same-selector pass emit holds
      of all entries before the leftovers. */
  lemma PairedKeepsAll(base: Inventory, head: Inventory, deltas: seq<Delta>, p: Entry -> bool) returns (within: State)
    requires forall rung, st, x ::
               Climbed(base, head, deltas, rung, st) && x in Emitted(Compare(base, head, deltas), rung, st) ==> p(x)
    requires forall sel ::
               SameSelector(Compare(base, head, deltas), sel).Some? ==>
                 p(SameSelector(Compare(base, head, deltas), sel).value)
    ensures All(Paired(base, head, deltas), p)
    ensures Paired(base, head, deltas) == RungIn(Compare(base, head, deltas), CrossPath, within)
  {
    var c := Compare(base, head, deltas);
    var same := Same(c, Start(base, head, deltas));
    assert All(same, p);
    FilesKeepAll(c, AcrossFiles, deltas, same, p);
    var across := Files(c, AcrossFiles, deltas, same);
    FilesKeepAll(c, WithinFiles, deltas, across, p);
    within := Files(c, WithinFiles, deltas, across);
    assert Climbed(base, head, deltas, CrossPath, within);
    RungKeepsAll(c, CrossPath, within, p);
  }

  // ---- Every pair of a run is a sole match ----------------------------------------

  predicate IsPair(x: Entry) {
    x.status == Moved || x.status == Renamed
  }

  /** The pending selectors of the rung's scope in `st` that share the key are just the
      two symbols of the pair. */
  predicate SoleAt(c: Comparison, rung: Rung, st: State, key: GroupKey, x: Entry) {
    && x.base.Some? && x.head.Some?
    && Group(c.base, rung, Scope(c.base, st.base, BasePath(rung)), key) == {x.base.value}
    && Group(c.head, rung, Scope(c.head, st.head, HeadPath(rung)), key) == {x.head.value}
  }

  /** A pair of symbols of one kind that a rung of this run emitted at a moment when each
      was the only pending member of their group on its side. */
  ghost predicate SoleMatch(base: Inventory, head: Inventory, deltas: seq<Delta>, x: Entry) {
    var c := Compare(base, head, deltas);
    && x.base.Some? && x.head.Some? && x.base.value in c.base.symbols && x.head.value in c.head.symbols
    && c.base.symbols[x.base.value].kind == c.head.symbols[x.head.value].kind
    && (x.status == Moved ==> c.base.symbols[x.base.value].name == c.head.symbols[x.head.value].name)
    && exists rung, st, key ::
         Climbed(base, head, deltas, rung, st) && x in Emitted(c, rung, st) && SoleAt(c, rung, st, key, x)
  }

  ghost function PairsAreSole(base: Inventory, head: Inventory, deltas: seq<Delta>): Entry -> bool {
    (x: Entry) => IsPair(x) ==> SoleMatch(base, head, deltas, x)
  }

  lemma ClimbedPairIsSole(base: Inventory, head: Inventory, deltas: seq<Delta>, rung: Rung, st: State, x: Entry)
    requires Climbed(base, head, deltas, rung, st) && x in Emitted(Compare(base, head, deltas), rung, st) && IsPair(x)
    ensures SoleMatch(base, head, deltas, x)
  {
    var c := Compare(base, head, deltas);
    var bs, hs := Scope(c.base, st.base, BasePath(rung)), Scope(c.head, st.head, HeadPath(rung));
    PairsAreSoleMatches(c, rung, bs, hs, x);
    var key :| Group(c.base, rung, bs, key) == {x.base.value} && Group(c.head, rung, hs, key) == {x.head.value};
    assert SoleAt(c, rung, st, key, x);
  }

  lemma SamePairsAreSole(base: Inventory, head: Inventory, deltas: seq<Delta>)
    ensures var c := Compare(base, head, deltas);
            forall sel :: SameSelector(c, sel).Some? ==> PairsAreSole(base, head, deltas)(SameSelector(c, sel).value)
  {
    var c := Compare(base, head, deltas);
    assert forall sel :: SameSelector(c, sel).Some? ==> !IsPair(SameSelector(c, sel).value);
  }

  lemma LeftoverHasNoPairs(c: Comparison, st: State, x: Entry)
    requires x in Leftover(c, st).out && IsPair(x)
    ensures x in st.out
  {
    assert x in st.out || x in LeftoverEffect(c, st.base, st.head).out;
  }

  /** Every moved or renamed entry of a result was emitted by a rung of the run at a
      moment when it was the sole match of its group on both sides. */
  lemma EveryPairIsASoleMatch(base: Inventory, head: Inventory, deltas: seq<Delta>, x: Entry)
    requires x in ChangedSymbols(base, head, deltas) && IsPair(x)
    ensures SoleMatch(base, head, deltas, x)
  {
    var c := Compare(base, head, deltas);
    var p := PairsAreSole(base, head, deltas);
    forall rung, st, y | Climbed(base, head, deltas, rung, st) && y in Emitted(c, rung, st)
      ensures p(y)
    {
      if IsPair(y) {
        ClimbedPairIsSole(base, head, deltas, rung, st, y);
      }
    }
    SamePairsAreSole(base, head, deltas);
    var within := PairedKeepsAll(base, head, deltas, p);
    LeftoverHasNoPairs(c, Paired(base, head, deltas), x);
  }

  /** Nothing is reported as removed or added before the leftovers are. */
  predicate NoEnd(x: Entry) {
    x.status != Removed && x.status != Added
  }

  lemma RungsHaveNoEnds(c: Comparison)
    ensures forall rung, st, x :: x in Emitted(c, rung, st) ==> NoEnd(x)
  {
    forall rung, st, x | x in Emitted(c, rung, st)
      ensures NoEnd(x)
    {
      var bs, hs := Scope(c.base, st.base, BasePath(rung)), Scope(c.head, st.head, HeadPath(rung));
      var keys := Keys(c.base, rung, bs) * Keys(c.head, rung, hs);
      var key :| key in keys && x == MatchEntry(c, rung, Group(c.base, rung, bs, key), Group(c.head, rung, hs, key));
    }
  }

  /** After the cross-path rung, no name and kind is unpaired on both sides. */
  lemma CrossPathSeparates(c: Comparison, st: State, b: Selector, h: Selector)
    requires var t := RungIn(c, CrossPath, st); b in t.base && h in t.head
    requires b in c.base.symbols && h in c.head.symbols
    ensures c.base.symbols[b].name != c.head.symbols[h].name || c.base.symbols[b].kind != c.head.symbols[h].kind
  {
    var key := Identity(c.base.symbols[b].name, c.base.symbols[b].kind);
    assert key in Keys(c.base, CrossPath, st.base);
  }

  /** Removed and added entries are the leftovers of their side. */
  lemma LeftoverEnds(c: Comparison, st: State, x: Entry)
    requires All(st, NoEnd) && x in Leftover(c, st).out
    ensures x.status == Removed ==> x.base.Some? && x.base.value in st.base
    ensures x.status == Added ==> x.head.Some? && x.head.value in st.head
  {
    assert x in st.out || x in LeftoverEffect(c, st.base, st.head).out;
  }

  /** No removed entry and added entry of one result share both name and kind. */
  lemma NoFalseRemoveAdd(base: Inventory, head: Inventory, deltas: seq<Delta>, x: Entry, y: Entry)
    requires x in ChangedSymbols(base, head, deltas) && x.status == Removed
    requires y in ChangedSymbols(base, head, deltas) && y.status == Added
    ensures x.base.Some? && y.head.Some?
    ensures x.base.value in base.symbols && y.head.value in head.symbols ==>
              || base.symbols[x.base.value].name != head.symbols[y.head.value].name
              || base.symbols[x.base.value].kind != head.symbols[y.head.value].kind
  {
    var c := Compare(base, head, deltas);
    var within := PairedHasNoEnds(base, head, deltas);
    var st := Paired(base, head, deltas);
    LeftoverEnds(c, st, x);
    LeftoverEnds(c, st, y);
    if x.base.value in base.symbols && y.head.value in head.symbols {
      CrossPathSeparates(c, within, x.base.value, y.head.value);
    }
  }

  lemma PairedHasNoEnds(base: Inventory, head: Inventory, deltas: seq<Delta>) returns (within: State)
    ensures All(Paired(base, head, deltas), NoEnd)
    ensures Paired(base, head, deltas) == RungIn(Compare(base, head, deltas), CrossPath, within)
  {
    RungsHaveNoEnds(Compare(base, head, deltas));
    within := PairedKeepsAll(base, head, deltas, NoEnd);
  }

  // ---- The order of Git's deltas does not matter ------------------------------

  predicate Apart(d: Delta, e: Delta) {
    (d.base.Some? && e.base.Some? ==> d.base != e.base) && (d.head.Some? && e.head.Some? ==> d.head != e.head)
  }

  /** No two deltas share a base path or a head path. */
  ghost predicate NoSharedPath(deltas: multiset<Delta>) {
    && (forall d :: d in deltas ==> deltas[d] == 1)
    && (forall d, e :: d in deltas && e in deltas && d != e ==> Apart(d, e))
  }

  lemma RungsCommute(c: Comparison, r1: Rung, r2: Rung, st: State)
    requires WellFormed(c.base) && WellFormed(c.head) && !r1.CrossPath? && !r2.CrossPath?
    requires BasePath(r1) != BasePath(r2) && HeadPath(r1) != HeadPath(r2)
    ensures RungIn(c, r1, RungIn(c, r2, st)) == RungIn(c, r2, RungIn(c, r1, st))
  {
    var b1, h1, b2, h2 := BasePath(r1).value, HeadPath(r1).value, BasePath(r2).value, HeadPath(r2).value;
    var e1 := RungEffect(c, r1, Pending(c.base, st.base, b1), Pending(c.head, st.head, h1));
    var e2 := RungEffect(c, r2, Pending(c.base, st.base, b2), Pending(c.head, st.head, h2));
    PendingApart(c.base, st.base, b1, b2, e2.base);
    PendingApart(c.head, st.head, h1, h2, e2.head);
    PendingApart(c.base, st.base, b2, b1, e1.base);
    PendingApart(c.head, st.head, h2, h1, e1.head);
    EffectsCommute(st, e1, e2);
  }

  lemma EffectsCommute(st: State, e1: Effect, e2: Effect)
    ensures Apply(Apply(st, e2), e1) == Apply(Apply(st, e1), e2)
  {
    assert st.base - e2.base - e1.base == st.base - e1.base - e2.base;
    assert st.head - e2.head - e1.head == st.head - e1.head - e2.head;
  }

  /** Taking selectors of one path away leaves what is pending at another. */
  lemma PendingApart(inv: Inventory, unpaired: set<Selector>, p: Text, q: Text, taken: set<Selector>)
    requires WellFormed(inv) && p != q && taken <= Pending(inv, unpaired, q)
    ensures Pending(inv, unpaired - taken, p) == Pending(inv, unpaired, p)
  {
  }

  lemma FileStepsCommute(c: Comparison, pass: Pass, d: Delta, e: Delta, st: State)
    requires WellFormed(c.base) && WellFormed(c.head) && Apart(d, e)
    ensures FileStep(c, pass, d, FileStep(c, pass, e, st)) == FileStep(c, pass, e, FileStep(c, pass, d, st))
  {
    if pass == WithinFiles {
      if IsSamePath(d) && IsSamePath(e) {
        RungsCommute(c, SameBody(d.base.value, d.kind), SameBody(e.base.value, e.kind), st);
      }
    } else if IsRename(d) && IsRename(e) {
      var m1, r1 := MovedIn(d.base.value, d.head.value, d.kind), RenamedIn(d.base.value, d.head.value, d.kind);
      var m2, r2 := MovedIn(e.base.value, e.head.value, e.kind), RenamedIn(e.base.value, e.head.value, e.kind);
      RungsCommute(c, m1, r2, RungIn(c, m2, st));
      RungsCommute(c, m1, m2, st);
      RungsCommute(c, r1, r2, RungIn(c, m1, RungIn(c, m2, st)));
      RungsCommute(c, r1, m2, RungIn(c, m1, st));
    }
  }

  lemma FilesPermute(c: Comparison, pass: Pass, a: seq<Delta>, b: seq<Delta>, st: State)
    requires WellFormed(c.base) && WellFormed(c.head)
    requires multiset(a) == multiset(b) && NoSharedPath(multiset(a))
    ensures Files(c, pass, a, st) == Files(c, pass, b, st)
  {
    var f := (d, before) => FileStep(c, pass, d, before);
    forall d, e | d in multiset(a) && e in multiset(a) && d != e
      ensures Commute(f, d, e)
    {
      forall s
        ensures f(d, f(e, s)) == f(e, f(d, s))
      {
        FileStepsCommute(c, pass, d, e, s);
      }
    }
    FoldPermutes(f, a, b, st);
  }

  /** Each path indexes the one delta that has it. */
  lemma {:induction false} IndexFacts(deltas: seq<Delta>)
    ensures forall p :: p in BaseIndex(deltas) <==> exists d :: d in deltas && d.base == Some(p)
    ensures forall p :: p in BaseIndex(deltas) ==>
              BaseIndex(deltas)[p] in deltas && BaseIndex(deltas)[p].base == Some(p)
    ensures forall p :: p in HeadIndex(deltas) <==> exists d :: d in deltas && d.head == Some(p)
    ensures forall p :: p in HeadIndex(deltas) ==>
              HeadIndex(deltas)[p] in deltas && HeadIndex(deltas)[p].head == Some(p)
  {
    if deltas != [] {
      var rest, last := deltas[..|deltas| - 1], deltas[|deltas| - 1];
      IndexFacts(rest);
      assert deltas == rest + [last];
      assert forall d :: d in deltas <==> d in rest || d == last;
    }
  }

  lemma BaseIndexPermutes(a: seq<Delta>, b: seq<Delta>)
    requires multiset(a) == multiset(b) && NoSharedPath(multiset(a))
    ensures BaseIndex(a) == BaseIndex(b)
  {
    IndexFacts(a);
    IndexFacts(b);
    assert forall d :: (d in a <==> d in multiset(a)) && (d in b <==> d in multiset(b));
    assert BaseIndex(a).Keys == BaseIndex(b).Keys;
    forall p | p in BaseIndex(a)
      ensures BaseIndex(a)[p] == BaseIndex(b)[p]
    {
      assert !Apart(BaseIndex(a)[p], BaseIndex(b)[p]);
    }
  }

  lemma HeadIndexPermutes(a: seq<Delta>, b: seq<Delta>)
    requires multiset(a) == multiset(b) && NoSharedPath(multiset(a))
    ensures HeadIndex(a) == HeadIndex(b)
  {
    IndexFacts(a);
    IndexFacts(b);
    assert forall d :: (d in a <==> d in multiset(a)) && (d in b <==> d in multiset(b));
    assert HeadIndex(a).Keys == HeadIndex(b).Keys;
    forall p | p in HeadIndex(a)
      ensures HeadIndex(a)[p] == HeadIndex(b)[p]
    {
      assert !Apart(HeadIndex(a)[p], HeadIndex(b)[p]);
    }
  }

  /** If no two deltas share a base path or a head path, the changed symbols do not
      depend on the order in which Git lists the deltas. */
  lemma OrderIndependent(base: Inventory, head: Inventory, a: seq<Delta>, b: seq<Delta>)
    requires WellFormed(base) && WellFormed(head)
    requires multiset(a) == multiset(b) && NoSharedPath(multiset(a))
    ensures ChangedSymbols(base, head, a) == ChangedSymbols(base, head, b)
  {
    BaseIndexPermutes(a, b);
    HeadIndexPermutes(a, b);
    var c := Compare(base, head, a);
    var same := Same(c, Start(base, head, a));
    FilesPermute(c, AcrossFiles, a, b, same);
    FilesPermute(c, WithinFiles, a, b, Files(c, AcrossFiles, a, same));
  }
}
