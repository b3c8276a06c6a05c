// The changed-symbol pairing ladder: what each rung consumes and emits.

/** Running a step over a sequence, first element first. */
module Folding {
  function Fold<D, S>(f: (D, S) -> S, xs: seq<D>, s: S): S {
    if xs == [] then s else f(xs[|xs| - 1], Fold(f, xs[..|xs| - 1], s))
  }

  lemma FoldSnoc<D, S>(f: (D, S) -> S, xs: seq<D>, x: D, s: S)
    ensures Fold(f, xs + [x], s) == f(x, Fold(f, xs, s))
  {
    assert (xs + [x])[..|xs|] == xs;
  }

  ghost predicate Commute<D, S(!new)>(f: (D, S) -> S, d: D, e: D) {
    forall s :: f(d, f(e, s)) == f(e, f(d, s))
  }

  /** An element that commutes with all later ones might as well come last. */
  lemma {:induction false} MoveLast<D, S(!new)>(f: (D, S) -> S, x: seq<D>, d: D, y: seq<D>, s: S)
    requires forall k :: 0 <= k < |y| ==> Commute(f, d, y[k])
    ensures Fold(f, x + [d] + y, s) == f(d, Fold(f, x + y, s))
    decreases |y|
  {
    if y == [] {
      assert x + [d] + y == x + [d] && x + y == x;
      FoldSnoc(f, x, d, s);
    } else {
      var e, rest := y[|y| - 1], y[..|y| - 1];
      MoveLast(f, x, d, rest, s);
      assert x + [d] + y == (x + [d] + rest) + [e] && x + y == (x + rest) + [e];
      FoldSnoc(f, x + [d] + rest, e, s);
      FoldSnoc(f, x + rest, e, s);
      assert Commute(f, d, e);
    }
  }

  /** A fold whose elements commute pairwise does not depend on their order. */
  lemma {:induction false} FoldPermutes<D, S(!new)>(f: (D, S) -> S, a: seq<D>, b: seq<D>, s: S)
    requires multiset(a) == multiset(b)
    requires forall d, e :: d in multiset(a) && e in multiset(a) && (d != e || multiset(a)[d] > 1) ==> Commute(f, d, e)
    ensures Fold(f, a, s) == Fold(f, b, s)
    decreases |a|
  {
    if a == [] {
      assert |multiset(b)| == 0;
    } else {
      var d := a[|a| - 1];
      var x, y := TakeOut(a, b);
      forall k | 0 <= k < |y|
        ensures Commute(f, d, y[k])
      {
        assert y[k] == (x + y)[|x| + k] && y[k] in multiset(x + y);
        assert y[k] == d ==> multiset(a)[d] > 1;
      }
      FoldPermutes(f, a[..|a| - 1], x + y, s);
      MoveLast(f, x, d, y, s);
    }
  }

  /** Where the last element of `a` is in its permutation `b`. */
  lemma {:induction false} TakeOut<D>(a: seq<D>, b: seq<D>) returns (x: seq<D>, y: seq<D>)
    requires a != [] && multiset(a) == multiset(b)
    ensures b == x + [a[|a| - 1]] + y && multiset(a[..|a| - 1]) == multiset(x + y)
    ensures multiset(x + y) <= multiset(a)
  {
    var d, rest := a[|a| - 1], a[..|a| - 1];
    assert a == rest + [d];
    assert d in multiset(b);
    var i :| 0 <= i < |b| && b[i] == d;
    x, y := b[..i], b[i + 1..];
    assert b == x + [d] + y;
    assert multiset(b) == multiset(x + y) + multiset{d};
    assert multiset(rest) == multiset(a) - multiset{d} && multiset(x + y) == multiset(b) - multiset{d};
  }
}

/** The ladder as a function on the two sets of unpaired selectors. */
module PairingLadder {
  import opened Wrappers
  import opened BodyNormalizer
  import opened Folding

  type Text = seq<Byte>

  /** Canonical selector `symbol:<path>#<qualified name>:<kind>`. */
  datatype Selector = Selector(path: Text, symbol: Text, kind: Text)

  datatype Symbol = Symbol(path: Text, name: Text, qualified: Text, kind: Text)

  /** The indexed shape of one side; `source` holds what `show` can read. */
  datatype Inventory = Inventory(
    symbols: map<Selector, Symbol>,
    ambiguous: set<Selector>,
    byPath: map<Text, seq<Selector>>,
    source: map<Selector, Source>)

  datatype FileChange = FileAdded | FileDeleted | FileModified | FileRenamed | FileCopied | FileTypeChanged | FileOther

  datatype Delta = Delta(kind: FileChange, base: Option<Text>, head: Option<Text>)

  datatype Status = Added | Removed | Modified | SignatureChanged | Moved | Renamed | Uncertain

  datatype Evidence = BySelector | BySignature | GitRename | GitCopy | BodyHash | NoEvidence

  /** A changed symbol, without its note. `baseCandidates` and `headCandidates` are
      the uncertain candidates of either side. */
  datatype Entry = Entry(
    status: Status,
    evidence: Evidence,
    base: Option<Selector>,
    head: Option<Selector>,
    change: Delta,
    baseCandidates: set<Selector>,
    headCandidates: set<Selector>)

  function Only(s: Option<Selector>): set<Selector> {
    if s.Some? then {s.value} else {}
  }

  /** The base-side selectors an entry speaks about. */
  function OfBase(e: Entry): set<Selector> {
    Only(e.base) + e.baseCandidates
  }

  function OfHead(e: Entry): set<Selector> {
    Only(e.head) + e.headCandidates
  }

  // ---- Inventories ------------------------------------------------------------

  /** What `SideInventory::load` builds: a selector is listed once, under the path
      it names, with its own symbol. */
  ghost predicate WellFormed(inv: Inventory) {
    forall p :: p in inv.byPath ==>
      forall k :: 0 <= k < |inv.byPath[p]| ==>
        var sel := inv.byPath[p][k];
        sel.path == p && sel in inv.symbols && inv.symbols[sel].path == p && inv.symbols[sel].kind == sel.kind
  }

  function SelectorsIn(inv: Inventory, path: Text): seq<Selector> {
    if path in inv.byPath then inv.byPath[path] else []
  }

  /** Indexed symbols in files the Git diff touched. */
  function Candidates(inv: Inventory, paths: set<Text>): set<Selector> {
    set p, sel | p in paths && sel in SelectorsIn(inv, p) :: sel
  }

  function Pending(inv: Inventory, unpaired: set<Selector>, path: Text): set<Selector> {
    set sel | sel in SelectorsIn(inv, path) && sel in unpaired
  }

  // ---- Changed files ----------------------------------------------------------

  /** The delta each base path belongs to; a later delta replaces an earlier one. */
  function BaseIndex(deltas: seq<Delta>): map<Text, Delta> {
    if deltas == [] then map[] else
    var last := deltas[|deltas| - 1];
    var rest := BaseIndex(deltas[..|deltas| - 1]);
    if last.base.Some? then rest[last.base.value := last] else rest
  }

  function HeadIndex(deltas: seq<Delta>): map<Text, Delta> {
    if deltas == [] then map[] else
    var last := deltas[|deltas| - 1];
    var rest := HeadIndex(deltas[..|deltas| - 1]);
    if last.head.Some? then rest[last.head.value := last] else rest
  }

  function ChangeOf(inv: Inventory, index: map<Text, Delta>, sel: Selector): Delta {
    if sel !in inv.symbols then Delta(FileOther, None, None)
    else
      var path := inv.symbols[sel].path;
      if path in index then index[path] else Delta(FileOther, Some(path), Some(path))
  }

  /** Everything a comparison reads. */
  datatype Comparison = Comparison(base: Inventory, head: Inventory, baseIndex: map<Text, Delta>,
                                   headIndex: map<Text, Delta>)

  function Compare(base: Inventory, head: Inventory, deltas: seq<Delta>): Comparison {
    Comparison(base, head, BaseIndex(deltas), HeadIndex(deltas))
  }

  // ---- Rungs 1 and 2: the same selector on both sides -------------------------

  function UncertainPair(c: Comparison, sel: Selector, evidence: Evidence): Entry {
    Entry(Uncertain, evidence, Some(sel), Some(sel), ChangeOf(c.base, c.baseIndex, sel), {sel}, {sel})
  }

  /** What a selector found on both sides is reported as; `None` when its complete
      source is byte-identical. */
  function SameSelector(c: Comparison, sel: Selector): Option<Entry> {
    if sel in c.base.ambiguous || sel in c.head.ambiguous then
      Some(UncertainPair(c, sel, NoEvidence))
    else if sel !in c.base.source || sel !in c.head.source then
      Some(UncertainPair(c, sel, BySelector))
    else
      var b, h := c.base.source[sel], c.head.source[sel];
      if b.bytes == h.bytes then
        if !b.truncated && !h.truncated then None else Some(UncertainPair(c, sel, BySelector))
      else
        var signature := b.signature != h.signature;
        Some(Entry(if signature then SignatureChanged else Modified, if signature then BySignature else BySelector,
                   Some(sel), Some(sel), ChangeOf(c.base, c.baseIndex, sel), {}, {}))
  }

  /** Shared, unambiguous, and byte-identical in full. */
  predicate Unchanged(c: Comparison, sel: Selector) {
    && sel !in c.base.ambiguous && sel !in c.head.ambiguous
    && sel in c.base.source && sel in c.head.source
    && c.base.source[sel].bytes == c.head.source[sel].bytes
    && !c.base.source[sel].truncated && !c.head.source[sel].truncated
  }

  // ---- The grouping rungs -----------------------------------------------------

  datatype Rung =
    | MovedIn(basePath: Text, headPath: Text, kind: FileChange)
    | RenamedIn(basePath: Text, headPath: Text, kind: FileChange)
    | SameBody(path: Text, kind: FileChange)
    | CrossPath

  datatype GroupKey = Identity(name: Text, kind: Text) | OfKind(kind: Text) | OfBody(kind: Text, parent: Text,
                               body: seq<Byte>)

  /** The qualified name before its last `::`. */
  function Parent(qualified: Text): Text {
    ParentBefore(qualified, |qualified|)
  }

  function ParentBefore(qualified: Text, end: nat): Text
    requires end <= |qualified|
  {
    if end < 2 then []
    else if qualified[end - 2..end] == [58, 58] then qualified[..end - 2]
    else ParentBefore(qualified, end - 1)
  }

  /** The group a selector joins on a rung, if any. */
  function KeyOf(inv: Inventory, rung: Rung, sel: Selector): Option<GroupKey> {
    if sel !in inv.symbols then None else
    var symbol := inv.symbols[sel];
    match rung
    case MovedIn(_, _, _) => Some(Identity(symbol.name, symbol.kind))
    case CrossPath => Some(Identity(symbol.name, symbol.kind))
    case RenamedIn(_, _, _) => Some(OfKind(symbol.kind))
    case SameBody(_, _) =>
      if sel !in inv.source then None else
      match BodyOf(inv.source[sel], symbol.name)
      case NoBody => None
      case Body(body) => Some(OfBody(symbol.kind, Parent(symbol.qualified), body))
  }

  function Group(inv: Inventory, rung: Rung, sels: set<Selector>, key: GroupKey): set<Selector> {
    set sel | sel in sels && KeyOf(inv, rung, sel) == Some(key)
  }

  function Keys(inv: Inventory, rung: Rung, sels: set<Selector>): set<GroupKey> {
    set sel | sel in sels && KeyOf(inv, rung, sel).Some? :: KeyOf(inv, rung, sel).value
  }

  function ChangeKind(rung: Rung): FileChange {
    if rung.CrossPath? then FileOther else rung.kind
  }

  /** The entry of a one-to-one match. */
  function PairEntry(c: Comparison, rung: Rung, b: Selector, h: Selector): Entry {
    var paths := ChangeOf(c.base, c.baseIndex, b);
    Entry(if rung.MovedIn? then Moved else Renamed,
          if rung.SameBody? then BodyHash else if ChangeKind(rung) == FileCopied then GitCopy else GitRename,
          Some(b), Some(h), Delta(ChangeKind(rung), paths.base, paths.head), {}, {})
  }

  /** The entry of an ambiguous group: every candidate listed, none chosen. */
  function GroupEntry(rung: Rung, bs: set<Selector>, hs: set<Selector>): Entry {
    Entry(Uncertain, NoEvidence, None, None, Delta(ChangeKind(rung), None, None), bs, hs)
  }

  predicate OneToOne(rung: Rung, bs: set<Selector>, hs: set<Selector>) {
    !rung.CrossPath? && |bs| == 1 && |hs| == 1
  }

  function The(s: set<Selector>): Selector
    requires |s| == 1
  {
    TheExists(s);
    var x :| s == {x}; x
  }

  lemma TheExists(s: set<Selector>)
    requires |s| == 1
    ensures exists x :: s == {x}
  {
    var x :| x in s;
    assert |s - {x}| == 0;
    assert s == {x};
  }

  function MatchEntry(c: Comparison, rung: Rung, bs: set<Selector>, hs: set<Selector>): Entry {
    if OneToOne(rung, bs, hs) then PairEntry(c, rung, The(bs), The(hs)) else GroupEntry(rung, bs, hs)
  }

  /** What a rung takes from either side and emits. */
  datatype Effect = Effect(base: set<Selector>, head: set<Selector>, out: set<Entry>)

  /** The members of the groups of some keys. */
  function Taken(inv: Inventory, rung: Rung, sels: set<Selector>, keys: set<GroupKey>): set<Selector> {
    set sel | sel in sels && KeyOf(inv, rung, sel).Some? && KeyOf(inv, rung, sel).value in keys
  }

  /** The effect of matching the groups of some keys. */
  function KeyedEffect(c: Comparison, rung: Rung, bs: set<Selector>, hs: set<Selector>, keys: set<GroupKey>): Effect {
    Effect(Taken(c.base, rung, bs, keys), Taken(c.head, rung, hs, keys),
           set key | key in keys :: MatchEntry(c, rung, Group(c.base, rung, bs, key), Group(c.head, rung, hs, key)))
  }

  function RungEffect(c: Comparison, rung: Rung, bs: set<Selector>, hs: set<Selector>): Effect {
    KeyedEffect(c, rung, bs, hs, Keys(c.base, rung, bs) * Keys(c.head, rung, hs))
  }

  // ---- The whole ladder -------------------------------------------------------

  /** The unpaired selectors of either side, and what was emitted. */
  datatype State = State(base: set<Selector>, head: set<Selector>, out: multiset<Entry>)

  function Apply(st: State, e: Effect): State {
    State(st.base - e.base, st.head - e.head, st.out + multiset(e.out))
  }

  function Same(c: Comparison, st: State): State {
    var shared := st.base * st.head;
    Apply(st,
          Effect(shared, shared, set sel | sel in shared && SameSelector(c, sel).Some? :: SameSelector(c, sel).value))
  }

  /** The selectors a rung looks at: those still pending at its path, or all. */
  function Scope(inv: Inventory, unpaired: set<Selector>, path: Option<Text>): set<Selector> {
    if path.Some? then Pending(inv, unpaired, path.value) else unpaired
  }

  function BasePath(rung: Rung): Option<Text> {
    match rung
    case CrossPath => None
    case SameBody(p, _) => Some(p)
    case MovedIn(b, _, _) => Some(b)
    case RenamedIn(b, _, _) => Some(b)
  }

  function HeadPath(rung: Rung): Option<Text> {
    match rung
    case CrossPath => None
    case SameBody(p, _) => Some(p)
    case MovedIn(_, h, _) => Some(h)
    case RenamedIn(_, h, _) => Some(h)
  }

  function RungIn(c: Comparison, rung: Rung, st: State): State {
    Apply(st, RungEffect(c, rung, Scope(c.base, st.base, BasePath(rung)), Scope(c.head, st.head, HeadPath(rung))))
  }

  predicate IsRename(d: Delta) {
    (d.kind == FileRenamed || d.kind == FileCopied) && d.base.Some? && d.head.Some?
  }

  predicate IsSamePath(d: Delta) {
    d.base.Some? && d.head.Some? && d.base == d.head
  }

  /** The two passes over the deltas: files Git renamed or copied, then files that
      kept their path. */
  datatype Pass = AcrossFiles | WithinFiles

  function FileStep(c: Comparison, pass: Pass, d: Delta, st: State): State {
    if pass == AcrossFiles && IsRename(d) then
      RungIn(c, RenamedIn(d.base.value, d.head.value, d.kind),
             RungIn(c, MovedIn(d.base.value, d.head.value, d.kind), st))
    else if pass == WithinFiles && IsSamePath(d) then
      RungIn(c, SameBody(d.base.value, d.kind), st)
    else
      st
  }

  function Files(c: Comparison, pass: Pass, deltas: seq<Delta>, st: State): State {
    Fold((d, before) => FileStep(c, pass, d, before), deltas, st)
  }

  function RemovedEntry(c: Comparison, sel: Selector): Entry {
    Entry(Removed, BySelector, Some(sel), None, ChangeOf(c.base, c.baseIndex, sel), {}, {})
  }

  function AddedEntry(c: Comparison, sel: Selector): Entry {
    Entry(Added, BySelector, None, Some(sel), ChangeOf(c.head, c.headIndex, sel), {}, {})
  }

  function Leftover(c: Comparison, st: State): State {
    Apply(st, Effect(st.base, st.head,
                     (set sel | sel in st.base :: RemovedEntry(c, sel))
                       + (set sel | sel in st.head :: AddedEntry(c, sel))))
  }

  function Start(base: Inventory, head: Inventory, deltas: seq<Delta>): State {
    State(Candidates(base, BaseIndex(deltas).Keys), Candidates(head, HeadIndex(deltas).Keys), multiset{})
  }

  /** The state before leftovers are reported. */
  function Paired(base: Inventory, head: Inventory, deltas: seq<Delta>): State {
    var c := Compare(base, head, deltas);
    RungIn(c, CrossPath,
           Files(c, WithinFiles, deltas, Files(c, AcrossFiles, deltas, Same(c, Start(base, head, deltas)))))
  }

  /** The changed symbols of a comparison. */
  function ChangedSymbols(base: Inventory, head: Inventory, deltas: seq<Delta>): multiset<Entry> {
    Leftover(Compare(base, head, deltas), Paired(base, head, deltas)).out
  }
}
