// What the entries of a comparison say about the symbols and their sources.

/** Statuses and evidence, in terms of the two inventories and Git's deltas alone. */
module PairingMeaning {
  import opened Wrappers
  import opened BodyNormalizer
  import opened Folding
  import opened PairingLadder
  import opened PairingFacts
  import opened SymbolPairing

  // ---- Symbols that belong together -------------------------------------------------

  /** `::` stands at `n`. */
  predicate SeparatorAt(q: Text, n: nat) {
    n + 2 <= |q| && q[n] == 58 && q[n + 1] == 58
  }

  /** `p` is what precedes the last `::` of a qualified name, or empty if there is none. */
  ghost predicate IsParent(p: Text, q: Text) {
    || (&& p <= q && SeparatorAt(q, |p|) && forall m: nat :: m > |p| ==> !SeparatorAt(q, m))
    || (p == [] && forall m: nat :: !SeparatorAt(q, m))
  }

  lemma {:induction false} ParentPrecedes(q: Text, end: nat)
    requires end <= |q| && forall m: nat :: m + 2 > end ==> !SeparatorAt(q, m)
    ensures IsParent(ParentBefore(q, end), q)
    decreases end
  {
    if end >= 2 {
      assert q[end - 2..end] == [q[end - 2], q[end - 1]];
      if SeparatorAt(q, end - 2) {
        assert ParentBefore(q, end) == q[..end - 2];
      } else {
        ParentPrecedes(q, end - 1);
      }
    }
  }

  lemma OneParent(p: Text, r: Text, q: Text)
    requires IsParent(p, q) && IsParent(r, q)
    ensures p == r
  {
    if |p| == |r| {
      assert p == q[..|p|] || p == [];
      assert r == q[..|r|] || r == [];
    }
  }

  ghost predicate SameParent(q: Text, r: Text) {
    exists p :: IsParent(p, q) && IsParent(p, r)
  }

  lemma SameParents(q: Text, r: Text)
    ensures SameParent(q, r) <==> Parent(q) == Parent(r)
  {
    ParentPrecedes(q, |q|);
    ParentPrecedes(r, |r|);
    if p :| IsParent(p, q) && IsParent(p, r) {
      OneParent(p, Parent(q), q);
      OneParent(p, Parent(r), r);
    }
  }

  /** Two bodies are the same once each symbol's own name is neutral: word by word for
      names that are words, and as the scan reads them for any other name. */
  predicate SameBodies(b: Source, bName: Text, h: Source, hName: Text) {
    && bName != [] && hName != [] && !b.truncated && !h.truncated
    && (if IsIdentifier(bName) && IsIdentifier(hName) then
          NormalPieces(Tokens(b.bytes), bName) == NormalPieces(Tokens(h.bytes), hName)
        else ScanFrom(b.bytes, bName, 0) == ScanFrom(h.bytes, hName, 0))
  }

  lemma BodiesCompare(b: Source, bName: Text, h: Source, hName: Text)
    ensures SameBodies(b, bName, h, hName) <==> BodyOf(b, bName).Body? && BodyOf(b, bName) == BodyOf(h, hName)
  {
    if IsIdentifier(bName) {
      ScanIsWordwise(b.bytes, bName);
    }
    if IsIdentifier(hName) {
      ScanIsWordwise(h.bytes, hName);
    }
  }

  predicate SameKind(inv: Inventory, b: Selector, other: Inventory, h: Selector) {
    b in inv.symbols && h in other.symbols && inv.symbols[b].kind == other.symbols[h].kind
  }

  predicate SameName(inv: Inventory, b: Selector, other: Inventory, h: Selector) {
    b in inv.symbols && h in other.symbols && inv.symbols[b].name == other.symbols[h].name
  }

  /** One kind, one parent, and the same complete body but for the names. */
  ghost predicate SameButName(inv: Inventory, b: Selector, other: Inventory, h: Selector) {
    && SameKind(inv, b, other, h) && SameParent(inv.symbols[b].qualified, other.symbols[h].qualified)
    && b in inv.source && h in other.source
    && SameBodies(inv.source[b], inv.symbols[b].name, other.source[h], other.symbols[h].name)
  }

  /** What puts two symbols, of one side or of both, into one group of a rung. */
  ghost predicate Alike(rung: Rung, inv: Inventory, b: Selector, other: Inventory, h: Selector) {
    match rung
    case MovedIn(_, _, _) => SameKind(inv, b, other, h) && SameName(inv, b, other, h)
    case CrossPath => SameKind(inv, b, other, h) && SameName(inv, b, other, h)
    case RenamedIn(_, _, _) => SameKind(inv, b, other, h)
    case SameBody(_, _) => SameButName(inv, b, other, h)
  }

  /** The groups of a rung are exactly the symbols alike. */
  lemma GroupsAreAlike(rung: Rung, inv: Inventory, b: Selector, other: Inventory, h: Selector)
    ensures KeyOf(inv, rung, b).Some? && KeyOf(inv, rung, b) == KeyOf(other, rung, h) <==> Alike(rung, inv, b, other, h)
  {
    if rung.SameBody? && b in inv.symbols && h in other.symbols {
      SameParents(inv.symbols[b].qualified, other.symbols[h].qualified);
      if b in inv.source && h in other.source {
        BodiesCompare(inv.source[b], inv.symbols[b].name, other.source[h], other.symbols[h].name);
      }
    }
  }

  lemma {:induction false} BaseIndexesLast(deltas: seq<Delta>)
    ensures IndexesLast(BaseIndex(deltas), deltas, BasePathOf)
  {
    if deltas != [] {
      var n := |deltas| - 1;
      BaseIndexesLast(deltas[..n]);
      IndexesLastSnoc(BaseIndex(deltas[..n]), deltas[..n], BasePathOf, deltas[n]);
      assert deltas == deltas[..n] + [deltas[n]];
    }
  }

  lemma {:induction false} HeadIndexesLast(deltas: seq<Delta>)
    ensures IndexesLast(HeadIndex(deltas), deltas, HeadPathOf)
  {
    if deltas != [] {
      var n := |deltas| - 1;
      HeadIndexesLast(deltas[..n]);
      IndexesLastSnoc(HeadIndex(deltas[..n]), deltas[..n], HeadPathOf, deltas[n]);
      assert deltas == deltas[..n] + [deltas[n]];
    }
  }

  /** The last delta that has the path. */
  ghost predicate LastDelta(deltas: seq<Delta>, pathOf: Delta -> Option<Text>, path: Text, d: Delta) {
    exists i :: 0 <= i < |deltas| && LastWith(deltas, pathOf, path, i) && d == deltas[i]
  }

  // ---- What an entry says -----------------------------------------------------------

  /** The pair stands in the two files of a delta that Git resolved as renamed or copied,
      and the evidence says which. */
  ghost predicate AcrossRenamed(base: Inventory, head: Inventory, deltas: seq<Delta>, x: Entry, b: Selector,
                                h: Selector)
  {
    exists d :: d in deltas && (d.kind == FileRenamed || d.kind == FileCopied) && d.base.Some? && d.head.Some?
      && b in SelectorsIn(base, d.base.value) && h in SelectorsIn(head, d.head.value) && x.change.kind == d.kind
      && x.evidence == if d.kind == FileCopied then GitCopy else GitRename
  }

  /** The pair stands in a file that kept its path. */
  ghost predicate WithinFile(base: Inventory, head: Inventory, deltas: seq<Delta>, x: Entry, b: Selector, h: Selector) {
    exists d :: d in deltas && d.base.Some? && d.base == d.head && x.change.kind == d.kind
      && b in SelectorsIn(base, d.base.value) && h in SelectorsIn(head, d.base.value)
  }

  predicate Readable(base: Inventory, head: Inventory, sel: Selector) {
    && sel !in base.ambiguous && sel !in head.ambiguous && sel in base.source && sel in head.source
  }

  /** What a selector found on both sides can be reported as, and on what grounds. */
  ghost predicate SharedMeans(base: Inventory, head: Inventory, x: Entry, sel: Selector) {
    && x.base == Some(sel) && x.head == Some(sel)
    && (x.status == Uncertain || x.status == Modified || x.status == SignatureChanged)
    && (x.status == Uncertain && x.evidence == NoEvidence <==> sel in base.ambiguous || sel in head.ambiguous)
    && (x.status == Uncertain && x.evidence == BySelector <==>
          && sel !in base.ambiguous && sel !in head.ambiguous
          && (sel in base.source && sel in head.source ==>
                base.source[sel].bytes == head.source[sel].bytes
                && (base.source[sel].truncated || head.source[sel].truncated)))
    && (x.status == SignatureChanged <==>
          && Readable(base, head, sel) && base.source[sel].bytes != head.source[sel].bytes
          && base.source[sel].signature != head.source[sel].signature)
    && (x.status == Modified <==>
          && Readable(base, head, sel) && base.source[sel].bytes != head.source[sel].bytes
          && base.source[sel].signature == head.source[sel].signature)
    && (x.status == SignatureChanged ==> x.evidence == BySignature)
    && (x.status == Modified ==> x.evidence == BySelector)
  }

  /** The rung belongs to the run: to one of its deltas, or it is the last one. */
  ghost predicate RungOf(deltas: seq<Delta>, rung: Rung) {
    match rung
    case CrossPath => true
    case SameBody(p, kind) => exists d :: d in deltas && d.base == Some(p) && d.head == Some(p) && d.kind == kind
    case MovedIn(b, h, kind) =>
      (kind == FileRenamed || kind == FileCopied) && Delta(kind, Some(b), Some(h)) in deltas
    case RenamedIn(b, h, kind) =>
      (kind == FileRenamed || kind == FileCopied) && Delta(kind, Some(b), Some(h)) in deltas
  }

  /** The candidates are alike in the sense of the rung, and stand in its files. */
  ghost predicate CandidatesOf(base: Inventory, head: Inventory, x: Entry, rung: Rung) {
    && (forall b, h :: b in x.baseCandidates && h in x.headCandidates ==> Alike(rung, base, b, head, h))
    && (if rung.CrossPath? then x.change.kind == FileOther
        else
          && x.change.kind == rung.kind && (|x.baseCandidates| > 1 || |x.headCandidates| > 1)
          && (forall b :: b in x.baseCandidates ==> b in SelectorsIn(base, BasePath(rung).value))
          && (forall h :: h in x.headCandidates ==> h in SelectorsIn(head, HeadPath(rung).value)))
  }

  /** An uncertain group: candidates on both sides that one rung of the run groups. */
  ghost predicate GroupMeans(base: Inventory, head: Inventory, deltas: seq<Delta>, x: Entry) {
    && x.base.None? && x.head.None? && x.evidence == NoEvidence
    && x.baseCandidates != {} && x.headCandidates != {}
    && exists rung :: RungOf(deltas, rung) && CandidatesOf(base, head, x, rung)
  }

  ghost predicate PairMeans(base: Inventory, head: Inventory, deltas: seq<Delta>, x: Entry, b: Selector, h: Selector) {
    && SameKind(base, b, head, h)
    && (exists d :: LastDelta(deltas, BasePathOf, base.symbols[b].path, d)
                    && x.change.base == d.base && x.change.head == d.head)
    && (if x.status == Moved then SameName(base, b, head, h) && AcrossRenamed(base, head, deltas, x, b, h)
        else if x.evidence == BodyHash then
          SameButName(base, b, head, h) && WithinFile(base, head, deltas, x, b, h)
        else AcrossRenamed(base, head, deltas, x, b, h))
  }

  /** What an entry reported before the leftovers says. */
  ghost predicate Means(base: Inventory, head: Inventory, deltas: seq<Delta>, x: Entry) {
    if x.status == Moved || x.status == Renamed then
      x.base.Some? && x.head.Some? && PairMeans(base, head, deltas, x, x.base.value, x.head.value)
    else if x.base.Some? && x.head.Some? then SharedMeans(base, head, x, x.base.value)
    else x.status == Uncertain && GroupMeans(base, head, deltas, x)
  }

  ghost function Meaning(base: Inventory, head: Inventory, deltas: seq<Delta>): Entry -> bool {
    (x: Entry) => Means(base, head, deltas, x)
  }

  // ---- What the rungs emit ----------------------------------------------------------

  lemma ClimbedIsOfRun(c: Comparison, pass: Pass, deltas: seq<Delta>, first: State, rung: Rung, st: State)
    requires ClimbedIn(c, pass, deltas, first, rung, st)
    ensures RungOf(deltas, rung) && !rung.CrossPath?
  {
    var k :| 0 <= k < |deltas| && ClimbedOver(c, pass, deltas[k], Files(c, pass, deltas[..k], first), rung, st);
    var d := deltas[k];
    assert d in deltas;
    if pass == AcrossFiles {
      assert d == Delta(d.kind, Some(d.base.value), Some(d.head.value));
    }
  }

  /** The members of a group are alike, across the sides. */
  lemma GroupAlike(c: Comparison, rung: Rung, bs: set<Selector>, hs: set<Selector>, key: GroupKey)
    ensures forall b, h :: b in Group(c.base, rung, bs, key) && h in Group(c.head, rung, hs, key) ==>
              Alike(rung, c.base, b, c.head, h)
  {
    forall b, h | b in Group(c.base, rung, bs, key) && h in Group(c.head, rung, hs, key)
      ensures Alike(rung, c.base, b, c.head, h)
    {
      GroupsAreAlike(rung, c.base, b, c.head, h);
    }
  }

  lemma InScope(inv: Inventory, unpaired: set<Selector>, path: Option<Text>, sel: Selector)
    requires path.Some? && sel in Scope(inv, unpaired, path)
    ensures sel in SelectorsIn(inv, path.value)
  {
  }

  lemma EmittedMeans(base: Inventory, head: Inventory, deltas: seq<Delta>, rung: Rung, st: State, x: Entry)
    requires WellFormed(base) && RungOf(deltas, rung) && x in Emitted(Compare(base, head, deltas), rung, st)
    ensures Means(base, head, deltas, x)
  {
    var c := Compare(base, head, deltas);
    var bs, hs := Scope(base, st.base, BasePath(rung)), Scope(head, st.head, HeadPath(rung));
    var key := RowKey(c, rung, bs, hs, x);
    var bg, hg := Group(base, rung, bs, key), Group(head, rung, hs, key);
    GroupAlike(c, rung, bs, hs, key);
    if OneToOne(rung, bg, hg) {
      assert x == PairEntry(c, rung, The(bg), The(hg));
      PairIsMeant(base, head, deltas, rung, st, x, The(bg), The(hg));
    } else {
      assert x == GroupEntry(rung, bg, hg);
      GroupIsMeant(base, head, deltas, rung, st, key, x);
    }
  }

  lemma PairIsMeant(base: Inventory, head: Inventory, deltas: seq<Delta>, rung: Rung, st: State, x: Entry,
                    b: Selector, h: Selector)
    requires WellFormed(base) && RungOf(deltas, rung) && !rung.CrossPath?
    requires x == PairEntry(Compare(base, head, deltas), rung, b, h)
    requires b in Scope(base, st.base, BasePath(rung)) && h in Scope(head, st.head, HeadPath(rung))
    requires Alike(rung, base, b, head, h)
    ensures PairMeans(base, head, deltas, x, b, h) && (x.status == Moved || x.status == Renamed)
  {
    InScope(base, st.base, BasePath(rung), b);
    InScope(head, st.head, HeadPath(rung), h);
    ShowsItsFile(base, head, deltas, BasePath(rung).value, b);
    if rung.SameBody? {
      var d :| d in deltas && d.base == Some(rung.path) && d.head == Some(rung.path) && d.kind == rung.kind;
      assert WithinFile(base, head, deltas, x, b, h);
    } else {
      var d := Delta(rung.kind, Some(rung.basePath), Some(rung.headPath));
      assert d in deltas && x.change.kind == d.kind;
      assert AcrossRenamed(base, head, deltas, x, b, h);
    }
  }

  /** A symbol listed in a base file of a delta shows the last delta of that file. */
  lemma ShowsItsFile(base: Inventory, head: Inventory, deltas: seq<Delta>, path: Text, b: Selector)
    requires WellFormed(base) && b in SelectorsIn(base, path) && exists d :: d in deltas && d.base == Some(path)
    ensures b in base.symbols && base.symbols[b].path == path == b.path
    ensures LastDelta(deltas, BasePathOf, path, ChangeOf(base, BaseIndex(deltas), b))
  {
    BaseIndexesLast(deltas);
    var d :| d in deltas && d.base == Some(path);
    var i :| 0 <= i < |deltas| && deltas[i] == d;
    assert BasePathOf(deltas[i]) == Some(path);
  }

  lemma GroupIsMeant(base: Inventory, head: Inventory, deltas: seq<Delta>, rung: Rung, st: State, key: GroupKey,
                     x: Entry)
    requires RungOf(deltas, rung)
    requires var bs, hs := Scope(base, st.base, BasePath(rung)), Scope(head, st.head, HeadPath(rung));
             && key in Keys(base, rung, bs) * Keys(head, rung, hs)
             && var bg, hg := Group(base, rung, bs, key), Group(head, rung, hs, key);
                && !OneToOne(rung, bg, hg) && x == GroupEntry(rung, bg, hg)
                && forall b, h :: b in bg && h in hg ==> Alike(rung, base, b, head, h)
    ensures GroupMeans(base, head, deltas, x)
  {
    var bs, hs := Scope(base, st.base, BasePath(rung)), Scope(head, st.head, HeadPath(rung));
    var b :| b in bs && KeyOf(base, rung, b).Some? && KeyOf(base, rung, b).value == key;
    var h :| h in hs && KeyOf(head, rung, h).Some? && KeyOf(head, rung, h).value == key;
    assert b in x.baseCandidates && h in x.headCandidates;
    assert |x.baseCandidates - {b}| == |x.baseCandidates| - 1 && |x.headCandidates - {h}| == |x.headCandidates| - 1;
    assert CandidatesOf(base, head, x, rung);
  }

  lemma SharedIsMeant(base: Inventory, head: Inventory, deltas: seq<Delta>, sel: Selector)
    requires SameSelector(Compare(base, head, deltas), sel).Some?
    ensures var x := SameSelector(Compare(base, head, deltas), sel).value;
            SharedMeans(base, head, x, sel) && Means(base, head, deltas, x)
  {
  }

  // ---- Every entry ------------------------------------------------------------------

  /** Every entry of a result but the leftovers says, of the symbols' kinds, names and
      parents, of their sources, and of Git's deltas, what its status and evidence mean. */
  lemma EntriesMean(base: Inventory, head: Inventory, deltas: seq<Delta>, x: Entry)
    requires WellFormed(base)
    requires x in ChangedSymbols(base, head, deltas) && x.status != Removed && x.status != Added
    ensures Means(base, head, deltas, x)
  {
    var c := Compare(base, head, deltas);
    forall rung, st, y | Climbed(base, head, deltas, rung, st) && y in Emitted(c, rung, st)
      ensures Meaning(base, head, deltas)(y)
    {
      RungIsOfRun(base, head, deltas, rung, st);
      EmittedMeans(base, head, deltas, rung, st, y);
    }
    forall sel | SameSelector(c, sel).Some?
      ensures Meaning(base, head, deltas)(SameSelector(c, sel).value)
    {
      SharedIsMeant(base, head, deltas, sel);
    }
    var within := PairedKeepsAll(base, head, deltas, Meaning(base, head, deltas));
    LeftoversAreEnds(c, Paired(base, head, deltas), x);
  }

  lemma RungIsOfRun(base: Inventory, head: Inventory, deltas: seq<Delta>, rung: Rung, st: State)
    requires Climbed(base, head, deltas, rung, st)
    ensures RungOf(deltas, rung)
  {
    var c := Compare(base, head, deltas);
    var same := Same(c, Start(base, head, deltas));
    var across := Files(c, AcrossFiles, deltas, same);
    if ClimbedIn(c, AcrossFiles, deltas, same, rung, st) {
      ClimbedIsOfRun(c, AcrossFiles, deltas, same, rung, st);
    } else if ClimbedIn(c, WithinFiles, deltas, across, rung, st) {
      ClimbedIsOfRun(c, WithinFiles, deltas, across, rung, st);
    }
  }

  lemma LeftoversAreEnds(c: Comparison, st: State, x: Entry)
    requires x in Leftover(c, st).out && x.status != Removed && x.status != Added
    ensures x in st.out
  {
    assert x in st.out || x in LeftoverEffect(c, st.base, st.head).out;
  }

  lemma IndexedHasDelta(deltas: seq<Delta>, path: Text)
    requires path in BaseIndex(deltas)
    ensures exists d :: d in deltas && d.base == Some(path)
  {
    BaseIndexesLast(deltas);
    var i :| 0 <= i < |deltas| && LastWith(deltas, BasePathOf, path, i);
    assert deltas[i] in deltas && deltas[i].base == Some(path);
  }

  // ---- Every shared selector --------------------------------------------------------

  lemma {:induction false} FilesKeepOut(c: Comparison, pass: Pass, deltas: seq<Delta>, st: State)
    ensures st.out <= Files(c, pass, deltas, st).out
    ensures Files(c, pass, deltas, st).base <= st.base && Files(c, pass, deltas, st).head <= st.head
    decreases |deltas|
  {
    if deltas != [] {
      FilesKeepOut(c, pass, deltas[..|deltas| - 1], st);
    }
  }

  lemma SameIsKept(base: Inventory, head: Inventory, deltas: seq<Delta>)
    ensures Same(Compare(base, head, deltas), Start(base, head, deltas)).out <= ChangedSymbols(base, head, deltas)
  {
    var c := Compare(base, head, deltas);
    var same := Same(c, Start(base, head, deltas));
    FilesKeepOut(c, AcrossFiles, deltas, same);
    FilesKeepOut(c, WithinFiles, deltas, Files(c, AcrossFiles, deltas, same));
  }

  /** An entry of a result is the only one that speaks of a selector it speaks of. */
  lemma OnlyEntry(base: Inventory, head: Inventory, deltas: seq<Delta>, sel: Selector, x: Entry, y: Entry)
    requires x in ChangedSymbols(base, head, deltas) && y in ChangedSymbols(base, head, deltas)
    requires sel in OfBase(x) && sel in OfHead(x) && (sel in OfBase(y) || sel in OfHead(y))
    ensures x == y
  {
    NothingLostOrDuplicated(base, head, deltas);
    var start := Start(base, head, deltas);
    var quiet := Quiet(Compare(base, head, deltas), start);
    OnlyRow(State({}, {}, ChangedSymbols(base, head, deltas)), start.base, start.head, quiet, sel, x, y);
  }

  lemma OnlyRow(st: State, base: set<Selector>, head: set<Selector>, quiet: set<Selector>, sel: Selector, x: Entry,
                y: Entry)
    requires Accounted(st, base, head, quiet) && x in st.out && y in st.out
    requires sel in OfBase(x) && sel in OfHead(x) && (sel in OfBase(y) || sel in OfHead(y))
    ensures x == y
  {
    var rows := Rows(st.out);
    assert x in rows && y in rows && (sel in Of(Base, x) && sel in Of(Head, x));
    assert sel in Of(Base, y) || sel in Of(Head, y);
  }

  lemma QuietIsUnspoken(base: Inventory, head: Inventory, deltas: seq<Delta>, sel: Selector, x: Entry)
    requires sel in Quiet(Compare(base, head, deltas), Start(base, head, deltas))
    requires x in ChangedSymbols(base, head, deltas)
    ensures sel !in OfBase(x) && sel !in OfHead(x)
  {
    NothingLostOrDuplicated(base, head, deltas);
    var start := Start(base, head, deltas);
    var quiet := Quiet(Compare(base, head, deltas), start);
    assert x in Rows(ChangedSymbols(base, head, deltas));
    assert Of(Base, x) <= start.base - {} - quiet && Of(Head, x) <= start.head - {} - quiet;
  }

  /** The entry of a shared selector that is not unchanged. */
  lemma SharedEntry(base: Inventory, head: Inventory, deltas: seq<Delta>, sel: Selector) returns (x: Entry)
    requires WellFormed(base) && sel in Start(base, head, deltas).base && sel in Start(base, head, deltas).head
    requires sel !in Quiet(Compare(base, head, deltas), Start(base, head, deltas))
    ensures x in ChangedSymbols(base, head, deltas) && SharedMeans(base, head, x, sel)
    ensures LastDelta(deltas, BasePathOf, sel.path, x.change) && sel in OfBase(x) && sel in OfHead(x)
  {
    var c := Compare(base, head, deltas);
    SharedIsMeant(base, head, deltas, sel);
    SameIsKept(base, head, deltas);
    x := SameSelector(c, sel).value;
    var path :| path in BaseIndex(deltas).Keys && sel in SelectorsIn(base, path);
    IndexedHasDelta(deltas, path);
    ShowsItsFile(base, head, deltas, path, sel);
    assert x in Same(c, Start(base, head, deltas)).out;
  }

  /** A selector that is a candidate on both sides is spoken of by no entry if its complete
      source is byte-identical, and otherwise by exactly one entry, which says what became
      of it. */
  lemma SharedSelector(base: Inventory, head: Inventory, deltas: seq<Delta>, sel: Selector)
    requires WellFormed(base)
    requires sel in Start(base, head, deltas).base && sel in Start(base, head, deltas).head
    ensures var result := ChangedSymbols(base, head, deltas);
            if Readable(base, head, sel) && base.source[sel].bytes == head.source[sel].bytes
               && !base.source[sel].truncated && !head.source[sel].truncated
            then forall x :: x in result ==> sel !in OfBase(x) && sel !in OfHead(x)
            else exists x :: x in result && SharedMeans(base, head, x, sel)
                             && LastDelta(deltas, BasePathOf, sel.path, x.change)
                             && forall y :: y in result && (sel in OfBase(y) || sel in OfHead(y)) ==> y == x
  {
    var c := Compare(base, head, deltas);
    var start, result := Start(base, head, deltas), ChangedSymbols(base, head, deltas);
    if sel in Quiet(c, start) {
      forall x | x in result
        ensures sel !in OfBase(x) && sel !in OfHead(x)
      {
        QuietIsUnspoken(base, head, deltas, sel, x);
      }
    } else {
      var x := SharedEntry(base, head, deltas, sel);
      forall y | y in result && (sel in OfBase(y) || sel in OfHead(y))
        ensures y == x
      {
        OnlyEntry(base, head, deltas, sel, x, y);
      }
    }
  }

  // ---- Every leftover ---------------------------------------------------------------

  /** A removed symbol stands in a base file of a delta and is no candidate of the head,
      an added one the other way round, and either shows the delta of its file. */
  ghost predicate LeftoverMeans(base: Inventory, head: Inventory, deltas: seq<Delta>, x: Entry) {
    var start := Start(base, head, deltas);
    && x.evidence == BySelector && x.baseCandidates == {} && x.headCandidates == {}
    && (if x.status == Removed then
          && x.base.Some? && x.head.None? && x.base.value in start.base && x.base.value !in start.head
          && LastDelta(deltas, BasePathOf, x.base.value.path, x.change)
        else
          && x.head.Some? && x.base.None? && x.head.value in start.head && x.head.value !in start.base
          && LastDelta(deltas, HeadPathOf, x.head.value.path, x.change))
  }

  lemma LeftoversMean(base: Inventory, head: Inventory, deltas: seq<Delta>, x: Entry)
    requires WellFormed(base) && WellFormed(head)
    requires x in ChangedSymbols(base, head, deltas) && (x.status == Removed || x.status == Added)
    ensures LeftoverMeans(base, head, deltas, x)
  {
    var c := Compare(base, head, deltas);
    var within := PairedHasNoEnds(base, head, deltas);
    var st := Paired(base, head, deltas);
    EndIsLeftover(c, st, x);
    UnpairedShrinks(base, head, deltas);
    BaseIndexesLast(deltas);
    HeadIndexesLast(deltas);
  }

  lemma EndIsLeftover(c: Comparison, st: State, x: Entry)
    requires All(st, NoEnd) && x in Leftover(c, st).out && (x.status == Removed || x.status == Added)
    ensures x.status == Removed ==> x.base.Some? && x.base.value in st.base && x == RemovedEntry(c, x.base.value)
    ensures x.status == Added ==> x.head.Some? && x.head.value in st.head && x == AddedEntry(c, x.head.value)
  {
    assert x in st.out || x in LeftoverEffect(c, st.base, st.head).out;
  }

  lemma UnpairedShrinks(base: Inventory, head: Inventory, deltas: seq<Delta>)
    ensures var start, st := Start(base, head, deltas), Paired(base, head, deltas);
            st.base <= start.base - start.head && st.head <= start.head - start.base
  {
    var c := Compare(base, head, deltas);
    var same := Same(c, Start(base, head, deltas));
    FilesKeepOut(c, AcrossFiles, deltas, same);
    FilesKeepOut(c, WithinFiles, deltas, Files(c, AcrossFiles, deltas, same));
  }

  // ---- No match is missed -----------------------------------------------------------

  /** After a rung, nothing it could group is unpaired on both sides. */
  lemma RungSeparates(c: Comparison, rung: Rung, st: State, b: Selector, h: Selector)
    requires var t := RungIn(c, rung, st); b in t.base && h in t.head
    requires BasePath(rung).Some? ==> b in SelectorsIn(c.base, BasePath(rung).value)
    requires HeadPath(rung).Some? ==> h in SelectorsIn(c.head, HeadPath(rung).value)
    ensures !Alike(rung, c.base, b, c.head, h)
  {
    GroupsAreAlike(rung, c.base, b, c.head, h);
    var bs, hs := Scope(c.base, st.base, BasePath(rung)), Scope(c.head, st.head, HeadPath(rung));
    assert b in bs && h in hs;
  }

  /** What is unpaired after a pass was not alike on any rung of a file's delta. */
  lemma {:induction false} FilesSeparate(c: Comparison, pass: Pass, deltas: seq<Delta>, st: State, d: Delta,
                                         b: Selector, h: Selector)
    requires d in deltas && d.base.Some? && d.head.Some?
    requires b in SelectorsIn(c.base, d.base.value) && h in SelectorsIn(c.head, d.head.value)
    requires var t := Files(c, pass, deltas, st); b in t.base && h in t.head
    ensures pass == AcrossFiles && (d.kind == FileRenamed || d.kind == FileCopied) ==> !SameKind(c.base, b, c.head, h)
    ensures pass == WithinFiles && d.base == d.head ==> !SameButName(c.base, b, c.head, h)
    decreases |deltas|
  {
    var n := |deltas| - 1;
    var before := Files(c, pass, deltas[..n], st);
    var last := deltas[n];
    if last == d {
      if pass == AcrossFiles && IsRename(d) {
        RungSeparates(c, RenamedIn(d.base.value, d.head.value, d.kind),
                      RungIn(c, MovedIn(d.base.value, d.head.value, d.kind), before), b, h);
      } else if pass == WithinFiles && IsSamePath(d) {
        RungSeparates(c, SameBody(d.base.value, d.kind), before, b, h);
      }
    } else {
      FilesSeparate(c, pass, deltas[..n], st, d, b, h);
    }
  }

  /** No removed and added entry of one result are two symbols that a rung would have put
      together: of one kind, in two files Git resolved as renamed or copied; the same but
      for the name, in a file that kept its path; or of one name and kind anywhere. */
  lemma NoMissedMatch(base: Inventory, head: Inventory, deltas: seq<Delta>, x: Entry, y: Entry, d: Delta)
    requires x in ChangedSymbols(base, head, deltas) && x.status == Removed
    requires y in ChangedSymbols(base, head, deltas) && y.status == Added
    ensures x.base.Some? && y.head.Some?
    ensures !(SameKind(base, x.base.value, head, y.head.value) && SameName(base, x.base.value, head, y.head.value))
    ensures d in deltas && d.base.Some? && d.head.Some?
            && x.base.value in SelectorsIn(base, d.base.value) && y.head.value in SelectorsIn(head, d.head.value) ==>
              && (d.kind == FileRenamed || d.kind == FileCopied ==> !SameKind(base, x.base.value, head, y.head.value))
              && (d.base == d.head ==> !SameButName(base, x.base.value, head, y.head.value))
  {
    var c := Compare(base, head, deltas);
    NoFalseRemoveAdd(base, head, deltas, x, y);
    var last := PairedHasNoEnds(base, head, deltas);
    LeftoverEnds(c, Paired(base, head, deltas), x);
    LeftoverEnds(c, Paired(base, head, deltas), y);
    if d in deltas && d.base.Some? && d.head.Some?
       && x.base.value in SelectorsIn(base, d.base.value) && y.head.value in SelectorsIn(head, d.head.value) {
      var same := Same(c, Start(base, head, deltas));
      var across := Files(c, AcrossFiles, deltas, same);
      FilesKeepOut(c, WithinFiles, deltas, across);
      FilesSeparate(c, AcrossFiles, deltas, same, d, x.base.value, y.head.value);
      FilesSeparate(c, WithinFiles, deltas, across, d, x.base.value, y.head.value);
    }
  }
}
