// Deciding which snapshot-cache entries a clean removes.

/** `SnapshotCache::clean_with_options` of cache.rs. What the file system and Git say
    about an entry is part of the listing; nobody else changes it meanwhile. */
module CacheClean {
  import opened Wrappers
  import opened CacheKey
  import opened CacheLock
  import opened Ranking

  datatype Liveness = Live | Gone | Unknown

  datatype Reason =
    | StaleKey | UnreferencedCommit | AbandonedStaging | Expired | EvictedLru | StillCurrent | Unrecognized | Building
    | InUse | Unreadable | NewerIdentity | UnknownAge | Unverifiable | Untrusted

  datatype Shape = Marker | Staging | Commit(sha: nat) | OtherName

  /** A listed path and all that is asked about it. */
  datatype Entry = Entry(path: string, shape: Shape, isDir: bool, size: nat, provenance: Provenance,
                         metadata: Option<Metadata>, published: Option<nat>, lastUsed: Option<nat>, liveness: Liveness,
                         building: LockFile, inUse: LockFile, removable: bool)

  datatype Options = Options(olderThan: Option<nat>, keep: Option<nat>, now: nat, apply: bool)

  datatype Item = Item(entry: Entry, reason: Reason)

  datatype Report = Report(wouldDelete: seq<Item>, kept: seq<Item>, unmarked: bool)

  datatype Result = Ok(report: Report) | Err

  // ---- One entry on its own ---------------------------------------------------

  /** What is decided about an entry without looking at the others. */
  datatype Judged = Ignored | Kept(reason: Reason) | Candidate(reason: Reason) | Usable

  function Judge(e: Entry, ours: Versions): Judged {
    if e.shape.Marker? then Ignored
    else if e.shape.Staging? && e.isDir then Candidate(AbandonedStaging)
    else if !e.shape.Commit? || !e.isDir then Kept(Unrecognized)
    else
      match e.provenance
      case Missing => Ignored
      case Loose => Candidate(Untrusted)
      case Foreign => Kept(Untrusted)
      case Private =>
        if e.metadata.None? then Kept(Unreadable) else
        match Match(e.metadata.value, e.shape.sha, ours)
        case Older => Candidate(StaleKey)
        case Newer => Kept(NewerIdentity)
        case OtherCommit => Kept(Unrecognized)
        case Current =>
          match e.liveness
          case Gone => Candidate(UnreferencedCommit)
          case Unknown => Kept(Unverifiable)
          case Live => Usable
  }

  function Age(e: Entry): Option<nat> {
    if e.lastUsed.Some? then e.lastUsed else e.published
  }

  predicate Retaining(o: Options) {
    o.olderThan.Some? || o.keep.Some?
  }

  predicate IsExpired(e: Entry, o: Options) {
    Age(e).Some? && o.olderThan.Some? && o.now - Age(e).value > o.olderThan.value
  }

  // ---- The retention policy ---------------------------------------------------

  /** A usable entry of known age that has not expired. */
  predicate Retained(e: Entry, o: Options, ours: Versions) {
    Judge(e, ours) == Usable && Age(e).Some? && !IsExpired(e, o)
  }

  /** Used more recently; equal ages go by path. */
  predicate Precedes(a: Entry, b: Entry)
    requires Age(a).Some? && Age(b).Some?
  {
    Age(a).value > Age(b).value || (Age(a).value == Age(b).value && Less(Codes(a.path), Codes(b.path)))
  }

  /** The retained entries used more recently than `e`. */
  function Ahead(listed: seq<Entry>, o: Options, ours: Versions, e: Entry): set<Entry>
    requires Age(e).Some?
  {
    set x | x in listed && Retained(x, o, ours) && Precedes(x, e)
  }

  /** The entry is beyond the number of entries to keep. */
  predicate Evicted(listed: seq<Entry>, o: Options, ours: Versions, e: Entry)
    requires Age(e).Some?
  {
    o.keep.Some? && |Ahead(listed, o, ours, e)| >= o.keep.value
  }

  // ---- The decision -----------------------------------------------------------

  datatype Decision = Skip | Keep(reason: Reason) | Delete(reason: Reason) | Fail

  function LockOf(e: Entry, reason: Reason): LockFile {
    if reason == AbandonedStaging then e.building else e.inUse
  }

  function BusyReason(reason: Reason): Reason {
    if reason == AbandonedStaging then Building else InUse
  }

  /** What a plan or an apply is answered about a candidate. */
  function AnswerFor(o: Options, e: Entry, reason: Reason): Answer {
    if o.apply then RemoveIfUnlocked(LockOf(e, reason), e.removable) else LockIsHeld(LockOf(e, reason))
  }

  function ByLock(o: Options, e: Entry, reason: Reason): Decision {
    match AnswerFor(o, e, reason)
    case Idle => Delete(reason)
    case Busy => Keep(BusyReason(reason))
    case Unsafe => Keep(Untrusted)
    case Error => Fail
  }

  /** What becomes of an entry, from the whole listing. */
  function Decide(listed: seq<Entry>, o: Options, ours: Versions, e: Entry): Decision {
    match Judge(e, ours)
    case Ignored => Skip
    case Kept(reason) => Keep(reason)
    case Candidate(reason) => ByLock(o, e, reason)
    case Usable =>
      if !Retaining(o) then Keep(StillCurrent)
      else if Age(e).None? then Keep(UnknownAge)
      else if IsExpired(e, o) then ByLock(o, e, Expired)
      else if Evicted(listed, o, ours, e) then ByLock(o, e, EvictedLru)
      else Keep(StillCurrent)
  }

  function PathKey(i: Item): seq<nat> {
    Codes(i.entry.path)
  }

  /** The report of a listing: exactly the deletions and exactly the entries kept,
      both in path order. */
  ghost predicate ReportOf(listed: seq<Entry>, o: Options, ours: Versions, r: Report) {
    && StrictlySorted(r.wouldDelete, PathKey) && StrictlySorted(r.kept, PathKey) && !r.unmarked
    && (forall i :: i in r.wouldDelete <==> i.entry in listed && Decide(listed, o, ours, i.entry) == Delete(i.reason))
    && (forall i :: i in r.kept <==> i.entry in listed && Decide(listed, o, ours, i.entry) == Keep(i.reason))
  }

  ghost predicate SomeFails(listed: seq<Entry>, o: Options, ours: Versions) {
    exists e :: e in listed && Decide(listed, o, ours, e) == Fail
  }

  /** A directory lists each path once. */
  ghost predicate DistinctPaths(listed: seq<Entry>) {
    forall i, j :: 0 <= i < j < |listed| ==> listed[i].path != listed[j].path
  }

  // ---- What the decisions mean ------------------------------------------------

  /** Nobody holds the lock, as far as its path shows. */
  predicate Unheld(f: LockFile) {
    f.DirectoryGone? || f.Absent? || (f.Regular? && f.owned && f.state == Free)
  }

  /** Deletion needs a verified fact, and never hits a usable entry of unknown age or
      an owner-only entry of a newer binary. */
  lemma DeletionsHaveFacts(listed: seq<Entry>, o: Options, ours: Versions, e: Entry)
    ensures Decide(listed, o, ours, e).Delete? ==>
              || (e.shape.Staging? && e.isDir && Unheld(e.building))
              || (&& e.shape.Commit? && e.isDir && Unheld(e.inUse)
                  && (|| e.provenance == Loose
                      || (&& e.provenance == Private && e.metadata.Some?
                          && var key := Match(e.metadata.value, e.shape.sha, ours);
                             || key == Older
                             || (key == Current && e.liveness == Gone)
                             || (key == Current && e.liveness == Live && Retaining(o) && Age(e).Some?))))
  {
  }

  lemma {:induction false} CardinalityOf(s: seq<Entry>)
    requires DistinctPaths(s)
    ensures |set e | e in s| == |s|
  {
    if s != [] {
      var rest, last := s[..|s| - 1], s[|s| - 1];
      CardinalityOf(rest);
      assert s == rest + [last];
      assert (set e | e in s) == (set e | e in rest) + {last};
    }
  }

  // ---- Recency ------------------------------------------------------------------

  /** The sort key of a retained entry, for the newest age of all. */
  function RecencyKey(newest: nat): Item -> seq<nat> {
    (i: Item) => [if Age(i.entry).Some? && Age(i.entry).value <= newest then newest - Age(i.entry).value else 0]
      + Codes(i.entry.path)
  }

  predicate Dated(i: Item, newest: nat) {
    Age(i.entry).Some? && Age(i.entry).value <= newest
  }

  lemma KeyIsRecency(a: Item, b: Item, newest: nat)
    requires Dated(a, newest) && Dated(b, newest)
    ensures Less(RecencyKey(newest)(a), RecencyKey(newest)(b)) <==> Precedes(a.entry, b.entry)
  {
    var k, l := RecencyKey(newest)(a), RecencyKey(newest)(b);
    assert k[1..] == Codes(a.entry.path) && l[1..] == Codes(b.entry.path);
  }

  ghost predicate AllDated(items: seq<Item>, newest: nat) {
    forall k :: 0 <= k < |items| ==> Dated(items[k], newest)
  }

  /** Items in order of recency. */
  ghost predicate InOrder(items: seq<Item>, newest: nat) {
    AllDated(items, newest) && forall i, j :: 0 <= i < j < |items| ==> Precedes(items[i].entry, items[j].entry)
  }

  ghost predicate NoRepeats(items: seq<Item>) {
    forall i, j :: 0 <= i < j < |items| ==> items[i].entry.path != items[j].entry.path
  }

  function EntriesOf(items: seq<Item>): seq<Entry> {
    seq(|items|, k requires 0 <= k < |items| => items[k].entry)
  }

  /** Exactly the retained entries of a listing. */
  ghost predicate AreRetained(items: seq<Item>, listed: seq<Entry>, o: Options, ours: Versions) {
    forall e :: e in EntriesOf(items) <==> e in listed && Retained(e, o, ours)
  }

  lemma PrecedesIsStrict(a: Entry, b: Entry)
    requires Age(a).Some? && Age(b).Some?
    ensures !(Precedes(a, b) && Precedes(b, a)) && !Precedes(a, a)
  {
    LessIsTotal(Codes(a.path), Codes(b.path));
    LessIsTotal(Codes(a.path), Codes(a.path));
  }

  /** The place in the order is the number of entries ahead. */
  lemma PlaceIsRank(items: seq<Item>, newest: nat, listed: seq<Entry>, o: Options, ours: Versions, k: nat)
    requires InOrder(items, newest) && NoRepeats(items) && AreRetained(items, listed, o, ours) && k < |items|
    ensures Age(items[k].entry).Some? && |Ahead(listed, o, ours, items[k].entry)| == k
  {
    var es := EntriesOf(items);
    assert Dated(items[k], newest);
    var front := es[..k];
    assert DistinctPaths(front);
    CardinalityOf(front);
    var ahead := Ahead(listed, o, ours, es[k]);
    forall e
      ensures e in ahead <==> e in front
    {
      if e in front {
        var i :| 0 <= i < k && front[i] == e;
        assert es[i] == e && items[i].entry == e;
      }
      if e in ahead {
        assert e in es;
        var i :| 0 <= i < |es| && es[i] == e;
        AheadIsBefore(items, newest, i, k);
        assert front[i] == e;
      }
    }
    assert ahead == set e | e in front;
  }

  lemma AheadIsBefore(items: seq<Item>, newest: nat, i: nat, k: nat)
    requires InOrder(items, newest) && i < |items| && k < |items|
    requires Age(items[i].entry).Some? && Age(items[k].entry).Some? && Precedes(items[i].entry, items[k].entry)
    ensures i < k
  {
    PrecedesIsStrict(items[i].entry, items[k].entry);
  }

  /** Of the retained entries exactly the first `keep` survive: as many as there are
      up to that number, and each used more recently than every evicted one. */
  lemma KeepsMostRecent(items: seq<Item>, newest: nat, listed: seq<Entry>, o: Options, ours: Versions, k: nat)
    requires InOrder(items, newest) && NoRepeats(items) && AreRetained(items, listed, o, ours) && k < |items|
             && o.keep.Some?
    ensures Age(items[k].entry).Some? && (Evicted(listed, o, ours, items[k].entry) <==> k >= o.keep.value)
  {
    PlaceIsRank(items, newest, listed, o, ours, k);
  }

  // ---- Selecting ----------------------------------------------------------------

  function Select<T>(s: seq<T>, f: T -> Option<Item>): seq<Item> {
    if s == [] then [] else
    Select(s[..|s| - 1], f) + if f(s[|s| - 1]).Some? then [f(s[|s| - 1]).value] else []
  }

  lemma SelectSnoc<T>(s: seq<T>, x: T, f: T -> Option<Item>)
    ensures Select(s + [x], f) == Select(s, f) + if f(x).Some? then [f(x).value] else []
  {
    assert (s + [x])[..|s|] == s;
  }

  lemma {:induction false} SelectMembers<T>(s: seq<T>, f: T -> Option<Item>, i: Item)
    ensures i in Select(s, f) <==> exists k :: 0 <= k < |s| && f(s[k]) == Some(i)
  {
    if s != [] {
      var n := |s| - 1;
      SelectMembers(s[..n], f, i);
      if k :| 0 <= k < n && f(s[..n][k]) == Some(i) {
        assert f(s[k]) == Some(i);
      }
      if k :| 0 <= k < |s| && f(s[k]) == Some(i) {
        if k < n {
          assert f(s[..n][k]) == Some(i);
        }
      }
    }
  }

  /** The selection names the path of what it selects. */
  ghost predicate KeepsPath<T(!new)>(f: T -> Option<Item>, path: T -> string) {
    forall x :: f(x).Some? ==> f(x).value.entry.path == path(x)
  }

  lemma {:induction false} SelectDistinct<T(!new)>(s: seq<T>, f: T -> Option<Item>, path: T -> string)
    requires KeepsPath(f, path) && forall i, j :: 0 <= i < j < |s| ==> path(s[i]) != path(s[j])
    ensures NoRepeats(Select(s, f))
  {
    if s != [] {
      var n := |s| - 1;
      var rest := s[..n];
      SelectDistinct(rest, f, path);
      if f(s[n]).Some? {
        forall i | i in Select(rest, f)
          ensures i.entry.path != path(s[n])
        {
          SelectMembers(rest, f, i);
          var k :| 0 <= k < |rest| && f(rest[k]) == Some(i);
          assert path(s[k]) != path(s[n]);
        }
      }
    }
  }

  lemma JoinDistinct(a: seq<Item>, b: seq<Item>)
    requires NoRepeats(a) && NoRepeats(b) && forall x, y :: x in a && y in b ==> x.entry.path != y.entry.path
    ensures NoRepeats(a + b)
  {
    forall i, j | 0 <= i < j < |a + b|
      ensures (a + b)[i].entry.path != (a + b)[j].entry.path
    {
      if i < |a| <= j {
        assert a[i] in a && b[j - |a|] in b;
      }
    }
  }

  // ---- The lists on the way -----------------------------------------------------

  /** Why an entry is put up for deletion, if it is. */
  function Queue(listed: seq<Entry>, o: Options, ours: Versions, e: Entry): Option<Reason> {
    match Judge(e, ours)
    case Candidate(reason) => Some(reason)
    case Usable =>
      if !Retaining(o) || Age(e).None? then None
      else if IsExpired(e, o) then Some(Expired)
      else if Evicted(listed, o, ours, e) then Some(EvictedLru) else None
    case _ => None
  }

  /** Why an entry stays without a look at its lock, if it does. */
  function Stays(listed: seq<Entry>, o: Options, ours: Versions, e: Entry): Option<Reason> {
    match Judge(e, ours)
    case Kept(reason) => Some(reason)
    case Usable =>
      if !Retaining(o) then Some(StillCurrent)
      else if Age(e).None? then Some(UnknownAge)
      else if IsExpired(e, o) || Evicted(listed, o, ours, e) then None else Some(StillCurrent)
    case _ => None
  }

  lemma DecisionSplits(listed: seq<Entry>, o: Options, ours: Versions, e: Entry)
    ensures var queue, stays := Queue(listed, o, ours, e), Stays(listed, o, ours, e);
            && !(queue.Some? && stays.Some?)
            && Decide(listed, o, ours, e) ==
                 (if queue.Some? then ByLock(o, e, queue.value) else if stays.Some? then Keep(stays.value) else Skip)
  {
  }

  ghost predicate IsQueue(listed: seq<Entry>, o: Options, ours: Versions, candidates: seq<Item>) {
    && NoRepeats(candidates)
    && forall i :: i in candidates <==> i.entry in listed && Queue(listed, o, ours, i.entry) == Some(i.reason)
  }

  ghost predicate IsStay(listed: seq<Entry>, o: Options, ours: Versions, kept: seq<Item>) {
    && NoRepeats(kept)
    && forall i :: i in kept <==> i.entry in listed && Stays(listed, o, ours, i.entry) == Some(i.reason)
  }

  /** The two lists before the locks are looked at. */
  ghost predicate Divided(listed: seq<Entry>, o: Options, ours: Versions, candidates: seq<Item>, kept: seq<Item>) {
    IsQueue(listed, o, ours, candidates) && IsStay(listed, o, ours, kept)
  }

  function EntryPath(e: Entry): string {
    e.path
  }

  function ItemPath(i: Item): string {
    i.entry.path
  }

  function CandidateOf(ours: Versions): Entry -> Option<Item> {
    (e: Entry) => if Judge(e, ours).Candidate? then Some(Item(e, Judge(e, ours).reason)) else None
  }

  function KeptOf(ours: Versions): Entry -> Option<Item> {
    (e: Entry) => if Judge(e, ours).Kept? then Some(Item(e, Judge(e, ours).reason)) else None
  }

  function UsableOf(ours: Versions): Entry -> Option<Item> {
    (e: Entry) => if Judge(e, ours).Usable? then Some(Item(e, StillCurrent)) else None
  }

  function UndatedOf(i: Item): Option<Item> {
    if Age(i.entry).None? then Some(Item(i.entry, UnknownAge)) else None
  }

  function ExpiredOf(o: Options): Item -> Option<Item> {
    (i: Item) => if IsExpired(i.entry, o) then Some(Item(i.entry, Expired)) else None
  }

  function RetainedOf(o: Options): Item -> Option<Item> {
    (i: Item) => if Age(i.entry).Some? && !IsExpired(i.entry, o) then Some(i) else None
  }

  function EvictedOf(i: Item): Option<Item> {
    Some(Item(i.entry, EvictedLru))
  }

  function DeletedOf(o: Options): Item -> Option<Item> {
    (i: Item) => if AnswerFor(o, i.entry, i.reason) == Idle then Some(i) else None
  }

  function BusyOf(o: Options): Item -> Option<Item> {
    (i: Item) =>
      match AnswerFor(o, i.entry, i.reason)
      case Busy => Some(Item(i.entry, BusyReason(i.reason)))
      case Unsafe => Some(Item(i.entry, Untrusted))
      case _ => None
  }

  lemma SelectEntries(listed: seq<Entry>, f: Entry -> Option<Item>, i: Item)
    requires forall e :: f(e).Some? ==> f(e).value.entry == e
    ensures i in Select(listed, f) <==> i.entry in listed && f(i.entry) == Some(i)
  {
    SelectMembers(listed, f, i);
    if i.entry in listed && f(i.entry) == Some(i) {
      var k :| 0 <= k < |listed| && listed[k] == i.entry;
      assert f(listed[k]) == Some(i);
    }
  }

  lemma SelectItems(items: seq<Item>, f: Item -> Option<Item>, i: Item)
    ensures i in Select(items, f) <==> exists x :: x in items && f(x) == Some(i)
  {
    SelectMembers(items, f, i);
    if x :| x in items && f(x) == Some(i) {
      var k :| 0 <= k < |items| && items[k] == x;
      assert f(items[k]) == Some(i);
    }
  }

  /** The three lists after judging each entry. */
  ghost predicate Judged3(listed: seq<Entry>, ours: Versions, candidates: seq<Item>, current: seq<Item>,
                          kept: seq<Item>) {
    && NoRepeats(candidates) && NoRepeats(current) && NoRepeats(kept)
    && (forall i :: i in candidates <==> i.entry in listed && Judge(i.entry, ours) == Candidate(i.reason))
    && (forall i :: i in kept <==> i.entry in listed && Judge(i.entry, ours) == Kept(i.reason))
    && (forall i :: i in current <==> i.entry in listed && Judge(i.entry, ours) == Usable && i.reason == StillCurrent)
  }

  lemma JudgedIsSelected(listed: seq<Entry>, ours: Versions)
    requires DistinctPaths(listed)
    ensures Judged3(listed, ours, Select(listed, CandidateOf(ours)), Select(listed, UsableOf(ours)),
                    Select(listed, KeptOf(ours)))
  {
    SelectDistinct(listed, CandidateOf(ours), EntryPath);
    SelectDistinct(listed, UsableOf(ours), EntryPath);
    SelectDistinct(listed, KeptOf(ours), EntryPath);
    forall i
      ensures i in Select(listed, CandidateOf(ours)) <==>
                i.entry in listed && Judge(i.entry, ours) == Candidate(i.reason)
      ensures i in Select(listed, UsableOf(ours)) <==>
                i.entry in listed && Judge(i.entry, ours) == Usable && i.reason == StillCurrent
      ensures i in Select(listed, KeptOf(ours)) <==> i.entry in listed && Judge(i.entry, ours) == Kept(i.reason)
    {
      SelectEntries(listed, CandidateOf(ours), i);
      SelectEntries(listed, UsableOf(ours), i);
      SelectEntries(listed, KeptOf(ours), i);
    }
  }

  lemma OnePath(listed: seq<Entry>, a: Entry, b: Entry)
    requires DistinctPaths(listed) && a in listed && b in listed && a != b
    ensures a.path != b.path
  {
    var i :| 0 <= i < |listed| && listed[i] == a;
    var j :| 0 <= j < |listed| && listed[j] == b;
    assert i < j || j < i;
  }

  /** Without a retention policy everything usable stays. */
  lemma UnlimitedSplit(listed: seq<Entry>, o: Options, ours: Versions, candidates: seq<Item>, current: seq<Item>,
                       kept: seq<Item>)
    requires DistinctPaths(listed) && Judged3(listed, ours, candidates, current, kept) && !Retaining(o)
    ensures Divided(listed, o, ours, candidates, kept + current)
  {
    forall x, y | x in kept && y in current
      ensures x.entry.path != y.entry.path
    {
      OnePath(listed, x.entry, y.entry);
    }
    JoinDistinct(kept, current);
  }

  /** The retained items, cut where eviction begins. */
  ghost predicate RetainedList(listed: seq<Entry>, o: Options, ours: Versions, items: seq<Item>, n: nat) {
    && NoRepeats(items) && n <= |items|
    && (forall i :: i in items <==> i.entry in listed && Retained(i.entry, o, ours) && i.reason == StillCurrent)
    && (forall k :: 0 <= k < |items| && Age(items[k].entry).Some? ==>
          (Evicted(listed, o, ours, items[k].entry) <==> k >= n))
  }

  lemma ExpiredItems(listed: seq<Entry>, o: Options, ours: Versions, current: seq<Item>, i: Item)
    requires forall i :: i in current <==>
               i.entry in listed && Judge(i.entry, ours) == Usable && i.reason == StillCurrent
    ensures i in Select(current, ExpiredOf(o)) <==>
              i.entry in listed && Judge(i.entry, ours) == Usable && IsExpired(i.entry, o) && i.reason == Expired
  {
    SelectItems(current, ExpiredOf(o), i);
    if i.entry in listed && Judge(i.entry, ours) == Usable && IsExpired(i.entry, o) && i.reason == Expired {
      assert Item(i.entry, StillCurrent) in current && ExpiredOf(o)(Item(i.entry, StillCurrent)) == Some(i);
    }
  }

  lemma UndatedItems(listed: seq<Entry>, ours: Versions, current: seq<Item>, i: Item)
    requires forall i :: i in current <==>
               i.entry in listed && Judge(i.entry, ours) == Usable && i.reason == StillCurrent
    ensures i in Select(current, UndatedOf) <==>
              i.entry in listed && Judge(i.entry, ours) == Usable && Age(i.entry).None? && i.reason == UnknownAge
  {
    SelectItems(current, UndatedOf, i);
    if i.entry in listed && Judge(i.entry, ours) == Usable && Age(i.entry).None? && i.reason == UnknownAge {
      assert Item(i.entry, StillCurrent) in current && UndatedOf(Item(i.entry, StillCurrent)) == Some(i);
    }
  }

  lemma RetainedItems(listed: seq<Entry>, o: Options, ours: Versions, current: seq<Item>, i: Item)
    requires forall i :: i in current <==>
               i.entry in listed && Judge(i.entry, ours) == Usable && i.reason == StillCurrent
    ensures i in Select(current, RetainedOf(o)) <==>
              i.entry in listed && Retained(i.entry, o, ours) && i.reason == StillCurrent
  {
    SelectItems(current, RetainedOf(o), i);
    if i.entry in listed && Retained(i.entry, o, ours) && i.reason == StillCurrent {
      assert i in current && RetainedOf(o)(i) == Some(i);
    }
  }

  lemma CutItems(listed: seq<Entry>, o: Options, ours: Versions, items: seq<Item>, n: nat, i: Item)
    requires RetainedList(listed, o, ours, items, n)
    ensures i in items[..n] <==>
              i.entry in listed && Retained(i.entry, o, ours) && !Evicted(listed, o, ours, i.entry)
              && i.reason == StillCurrent
    ensures i in Select(items[n..], EvictedOf) <==>
              i.entry in listed && Retained(i.entry, o, ours) && Evicted(listed, o, ours, i.entry)
              && i.reason == EvictedLru
  {
    SelectItems(items[n..], EvictedOf, i);
    var own := Item(i.entry, StillCurrent);
    if i in items[..n] {
      var k :| 0 <= k < n && items[k] == i;
      assert items[k] in items;
    }
    if x :| x in items[n..] && EvictedOf(x) == Some(i) {
      var k :| n <= k < |items| && items[k] == x;
      assert items[k] in items;
    }
    if own in items {
      var k :| 0 <= k < |items| && items[k] == own;
      if k < n {
        assert items[..n][k] == own;
      } else {
        assert items[n..][k - n] == own && EvictedOf(own) == Some(Item(i.entry, EvictedLru));
      }
    }
  }

  lemma QueueMember(listed: seq<Entry>, o: Options, ours: Versions, candidates: seq<Item>, current: seq<Item>,
                    kept: seq<Item>,
                    items: seq<Item>, n: nat, i: Item)
    requires Judged3(listed, ours, candidates, current, kept) && Retaining(o) && RetainedList(listed, o, ours, items, n)
    ensures i in candidates + Select(current, ExpiredOf(o)) + Select(items[n..], EvictedOf) <==>
            i.entry in listed && Queue(listed, o, ours, i.entry) == Some(i.reason)
  {
    ExpiredItems(listed, o, ours, current, i);
    CutItems(listed, o, ours, items, n, i);
  }

  /** With a retention policy: what is put up for deletion. */
  lemma RetentionQueue(listed: seq<Entry>, o: Options, ours: Versions, candidates: seq<Item>, current: seq<Item>,
                       kept: seq<Item>,
                       items: seq<Item>, n: nat)
    requires DistinctPaths(listed) && Judged3(listed, ours, candidates, current, kept) && Retaining(o)
    requires RetainedList(listed, o, ours, items, n)
    ensures IsQueue(listed, o, ours, candidates + Select(current, ExpiredOf(o)) + Select(items[n..], EvictedOf))
  {
    QueueDistinct(listed, o, ours, candidates, current, kept, items, n);
    forall i
      ensures i in candidates + Select(current, ExpiredOf(o)) + Select(items[n..], EvictedOf) <==>
              i.entry in listed && Queue(listed, o, ours, i.entry) == Some(i.reason)
    {
      QueueMember(listed, o, ours, candidates, current, kept, items, n, i);
    }
  }

  lemma QueueDistinct(listed: seq<Entry>, o: Options, ours: Versions, candidates: seq<Item>, current: seq<Item>,
                      kept: seq<Item>,
                      items: seq<Item>, n: nat)
    requires DistinctPaths(listed) && Judged3(listed, ours, candidates, current, kept)
             && RetainedList(listed, o, ours, items, n)
    ensures NoRepeats(candidates + Select(current, ExpiredOf(o)) + Select(items[n..], EvictedOf))
  {
    var expired, evicted := Select(current, ExpiredOf(o)), Select(items[n..], EvictedOf);
    forall i
      ensures i in expired ==> i.entry in listed && Judge(i.entry, ours) == Usable && IsExpired(i.entry, o)
      ensures i in evicted ==> i.entry in listed && Retained(i.entry, o, ours)
    {
      ExpiredItems(listed, o, ours, current, i);
      CutItems(listed, o, ours, items, n, i);
    }
    SelectDistinct(current, ExpiredOf(o), ItemPath);
    SelectDistinct(items[n..], EvictedOf, ItemPath);
    JoinApart(listed, candidates, expired);
    JoinApart(listed, candidates + expired, evicted);
  }

  /** With a retention policy: what stays. */
  lemma RetentionStays(listed: seq<Entry>, o: Options, ours: Versions, candidates: seq<Item>, current: seq<Item>,
                       kept: seq<Item>,
                       items: seq<Item>, n: nat)
    requires DistinctPaths(listed) && Judged3(listed, ours, candidates, current, kept) && Retaining(o)
    requires RetainedList(listed, o, ours, items, n)
    ensures IsStay(listed, o, ours, kept + Select(current, UndatedOf) + items[..n])
  {
    var undated, first := Select(current, UndatedOf), items[..n];
    forall i
      ensures i in undated <==>
                i.entry in listed && Judge(i.entry, ours) == Usable && Age(i.entry).None? && i.reason == UnknownAge
      ensures i in first <==>
                i.entry in listed && Retained(i.entry, o, ours) && !Evicted(listed, o, ours, i.entry)
                && i.reason == StillCurrent
    {
      UndatedItems(listed, ours, current, i);
      CutItems(listed, o, ours, items, n, i);
    }
    SelectDistinct(current, UndatedOf, ItemPath);
    JoinApart(listed, kept, undated);
    JoinApart(listed, kept + undated, first);
  }

  lemma JoinApart(listed: seq<Entry>, a: seq<Item>, b: seq<Item>)
    requires DistinctPaths(listed) && NoRepeats(a) && NoRepeats(b)
    requires forall x :: x in a ==> x.entry in listed
    requires forall y :: y in b ==> y.entry in listed
    requires forall x, y :: x in a && y in b ==> x.entry != y.entry
    ensures NoRepeats(a + b)
  {
    forall x, y | x in a && y in b
      ensures x.entry.path != y.entry.path
    {
      OnePath(listed, x.entry, y.entry);
    }
    JoinDistinct(a, b);
  }

  /** Looking at the locks yields the report. */
  lemma LocksSettle(listed: seq<Entry>, o: Options, ours: Versions, candidates: seq<Item>, kept: seq<Item>)
    requires DistinctPaths(listed) && Divided(listed, o, ours, candidates, kept)
    ensures NoRepeats(Select(candidates, DeletedOf(o))) && NoRepeats(kept + Select(candidates, BusyOf(o)))
    ensures forall i :: i in Select(candidates, DeletedOf(o)) <==>
                        i.entry in listed && Decide(listed, o, ours, i.entry) == Delete(i.reason)
    ensures forall i :: i in kept + Select(candidates, BusyOf(o)) <==>
                        i.entry in listed && Decide(listed, o, ours, i.entry) == Keep(i.reason)
  {
    SelectDistinct(candidates, DeletedOf(o), ItemPath);
    SelectDistinct(candidates, BusyOf(o), ItemPath);
    forall i
      ensures i in Select(candidates, DeletedOf(o)) <==>
                i.entry in listed && Decide(listed, o, ours, i.entry) == Delete(i.reason)
      ensures i in Select(candidates, BusyOf(o)) <==>
                i.entry in listed && Queue(listed, o, ours, i.entry).Some?
                && Decide(listed, o, ours, i.entry) == Keep(i.reason)
    {
      LockedItem(listed, o, ours, candidates, kept, i);
    }
    forall x, y | x in kept && y in Select(candidates, BusyOf(o))
      ensures x.entry != y.entry
    {
      DecisionSplits(listed, o, ours, x.entry);
    }
    JoinApart(listed, kept, Select(candidates, BusyOf(o)));
    forall i
      ensures i in kept + Select(candidates, BusyOf(o)) <==>
                i.entry in listed && Decide(listed, o, ours, i.entry) == Keep(i.reason)
    {
      DecisionSplits(listed, o, ours, i.entry);
    }
  }

  lemma LockedItem(listed: seq<Entry>, o: Options, ours: Versions, candidates: seq<Item>, kept: seq<Item>, i: Item)
    requires Divided(listed, o, ours, candidates, kept)
    ensures i in Select(candidates, DeletedOf(o)) <==>
              i.entry in listed && Decide(listed, o, ours, i.entry) == Delete(i.reason)
    ensures i in Select(candidates, BusyOf(o)) <==>
              i.entry in listed && Queue(listed, o, ours, i.entry).Some?
              && Decide(listed, o, ours, i.entry) == Keep(i.reason)
  {
    SelectItems(candidates, DeletedOf(o), i);
    SelectItems(candidates, BusyOf(o), i);
    DecisionSplits(listed, o, ours, i.entry);
    var queue := Queue(listed, o, ours, i.entry);
    if i.entry in listed && queue.Some? {
      assert Item(i.entry, queue.value) in candidates;
    }
  }

  // ---- The operation ------------------------------------------------------------

  function Newest(items: seq<Item>): nat {
    if items == [] then 0 else
    var rest, age := Newest(items[..|items| - 1]), Age(items[|items| - 1].entry);
    if age.Some? && age.value > rest then age.value else rest
  }

  lemma {:induction false} NewestBounds(items: seq<Item>)
    ensures forall k :: 0 <= k < |items| && Age(items[k].entry).Some? ==> Age(items[k].entry).value <= Newest(items)
  {
    if items != [] {
      NewestBounds(items[..|items| - 1]);
    }
  }

  /** The sort by recency puts the survivors of a `keep` bound first. */
  lemma SortedByRecency(listed: seq<Entry>, o: Options, ours: Versions, items: seq<Item>, s: seq<Item>)
    requires RetainedOnly(listed, o, ours, items) && o.keep.Some?
    requires s == SortBy(items, RecencyKey(Newest(items)))
    ensures RetainedList(listed, o, ours, s, if o.keep.value < |s| then o.keep.value else |s|)
  {
    var newest := Newest(items);
    SortIsCorrect(items, RecencyKey(newest));
    SameMembers(items, s);
    SortKeepsDistinct(items, s);
    NewestBounds(items);
    forall k | 0 <= k < |s|
      ensures Dated(s[k], newest)
    {
      assert s[k] in items;
    }
    RecencyOrders(s, newest);
    assert AreRetained(s, listed, o, ours) by {
      EntriesAreRetained(listed, o, ours, s);
    }
    forall k | 0 <= k < |s| && Age(s[k].entry).Some?
      ensures Evicted(listed, o, ours, s[k].entry) <==> k >= o.keep.value
    {
      KeepsMostRecent(s, newest, listed, o, ours, k);
    }
  }

  ghost predicate RetainedOnly(listed: seq<Entry>, o: Options, ours: Versions, items: seq<Item>) {
    && NoRepeats(items)
    && forall i :: i in items <==> i.entry in listed && Retained(i.entry, o, ours) && i.reason == StillCurrent
  }

  lemma EntriesAreRetained(listed: seq<Entry>, o: Options, ours: Versions, s: seq<Item>)
    requires RetainedOnly(listed, o, ours, s)
    ensures AreRetained(s, listed, o, ours)
  {
    forall e
      ensures e in EntriesOf(s) <==> e in listed && Retained(e, o, ours)
    {
      if e in EntriesOf(s) {
        var k :| 0 <= k < |s| && EntriesOf(s)[k] == e;
        assert s[k] in s;
      }
      if e in listed && Retained(e, o, ours) {
        assert Item(e, StillCurrent) in s;
        var k :| 0 <= k < |s| && s[k] == Item(e, StillCurrent);
        assert EntriesOf(s)[k] == e;
      }
    }
  }

  /** Sorting repeats no path. */
  lemma SortKeepsDistinct(items: seq<Item>, s: seq<Item>)
    requires multiset(items) == multiset(s) && NoRepeats(items)
    ensures NoRepeats(s)
  {
    SameMembers(items, s);
    DistinctKept(items, s);
    forall i, j | 0 <= i < j < |s|
      ensures s[i].entry.path != s[j].entry.path
    {
      assert s[i] in items && s[j] in items && s[i] != s[j];
    }
  }

  lemma RecencyOrders(s: seq<Item>, newest: nat)
    requires AllDated(s, newest) && Sorted(s, RecencyKey(newest)) && NoRepeats(s)
    ensures InOrder(s, newest)
  {
    forall i, j | 0 <= i < j < |s|
      ensures Precedes(s[i].entry, s[j].entry)
    {
      KeyIsRecency(s[j], s[i], newest);
      LessIsTotal(Codes(s[i].entry.path), Codes(s[j].entry.path));
      if Codes(s[i].entry.path) == Codes(s[j].entry.path) {
        CodesInjective(s[i].entry.path, s[j].entry.path);
      }
    }
  }

  method JudgeAll(listed: seq<Entry>, ours: Versions)
    returns (candidates: seq<Item>, current: seq<Item>, kept: seq<Item>)
    requires DistinctPaths(listed)
    ensures Judged3(listed, ours, candidates, current, kept)
  {
    candidates, current, kept := [], [], [];
    for k := 0 to |listed|
      invariant candidates == Select(listed[..k], CandidateOf(ours))
      invariant current == Select(listed[..k], UsableOf(ours))
      invariant kept == Select(listed[..k], KeptOf(ours))
    {
      var e := listed[k];
      assert listed[..k + 1] == listed[..k] + [e];
      SelectSnoc(listed[..k], e, CandidateOf(ours));
      SelectSnoc(listed[..k], e, UsableOf(ours));
      SelectSnoc(listed[..k], e, KeptOf(ours));
      match Judge(e, ours)
      case Ignored =>
      case Candidate(reason) => candidates := candidates + [Item(e, reason)];
      case Kept(reason) => kept := kept + [Item(e, reason)];
      case Usable => current := current + [Item(e, StillCurrent)];
    }
    assert listed[..|listed|] == listed;
    JudgedIsSelected(listed, ours);
  }

  /** The loop over the usable entries under a retention policy. */
  method SplitByAge(o: Options, current: seq<Item>)
    returns (undated: seq<Item>, expired: seq<Item>, retained: seq<Item>)
    ensures undated == Select(current, UndatedOf) && expired == Select(current, ExpiredOf(o))
            && retained == Select(current, RetainedOf(o))
  {
    undated, expired, retained := [], [], [];
    for k := 0 to |current|
      invariant undated == Select(current[..k], UndatedOf)
      invariant expired == Select(current[..k], ExpiredOf(o))
      invariant retained == Select(current[..k], RetainedOf(o))
    {
      var i := current[k];
      assert current[..k + 1] == current[..k] + [i];
      SelectSnoc(current[..k], i, UndatedOf);
      SelectSnoc(current[..k], i, ExpiredOf(o));
      SelectSnoc(current[..k], i, RetainedOf(o));
      if Age(i.entry).None? {
        undated := undated + [Item(i.entry, UnknownAge)];
      } else if IsExpired(i.entry, o) {
        expired := expired + [Item(i.entry, Expired)];
      } else {
        retained := retained + [i];
      }
    }
    assert current[..|current|] == current;
  }

  method Retain(ghost listed: seq<Entry>, o: Options, ghost ours: Versions, candidates: seq<Item>, current: seq<Item>,
                kept: seq<Item>)
    returns (queue: seq<Item>, stay: seq<Item>)
    requires DistinctPaths(listed) && Judged3(listed, ours, candidates, current, kept) && Retaining(o)
    ensures Divided(listed, o, ours, queue, stay)
  {
    var undated, expired, retained := SplitByAge(o, current);
    RetainedIsSelected(listed, o, ours, candidates, current, kept);
    var n := |retained|;
    if o.keep.Some? {
      var s := SortBy(retained, RecencyKey(Newest(retained)));
      SortedByRecency(listed, o, ours, retained, s);
      retained := s;
      n := if o.keep.value < |s| then o.keep.value else |s|;
    }
    var evicted := Evict(retained[n..]);
    RetentionQueue(listed, o, ours, candidates, current, kept, retained, n);
    RetentionStays(listed, o, ours, candidates, current, kept, retained, n);
    queue := candidates + expired + evicted;
    stay := kept + undated + retained[..n];
  }

  method Evict(items: seq<Item>) returns (evicted: seq<Item>)
    ensures evicted == Select(items, EvictedOf)
  {
    evicted := [];
    for k := 0 to |items|
      invariant evicted == Select(items[..k], EvictedOf)
    {
      assert items[..k + 1] == items[..k] + [items[k]];
      SelectSnoc(items[..k], items[k], EvictedOf);
      evicted := evicted + [Item(items[k].entry, EvictedLru)];
    }
    assert items[..|items|] == items;
  }

  lemma RetainedIsSelected(listed: seq<Entry>, o: Options, ours: Versions, candidates: seq<Item>, current: seq<Item>,
                           kept: seq<Item>)
    requires Judged3(listed, ours, candidates, current, kept)
    ensures RetainedOnly(listed, o, ours, Select(current, RetainedOf(o)))
    ensures o.keep.None? ==>
              RetainedList(listed, o, ours, Select(current, RetainedOf(o)), |Select(current, RetainedOf(o))|)
  {
    SelectDistinct(current, RetainedOf(o), ItemPath);
    forall i
      ensures i in Select(current, RetainedOf(o)) <==>
                i.entry in listed && Retained(i.entry, o, ours) && i.reason == StillCurrent
    {
      RetainedItems(listed, o, ours, current, i);
    }
  }

  predicate Names(items: seq<Item>, e: Entry) {
    exists k :: 0 <= k < |items| && items[k].entry == e
  }

  /** What is left of a listing once the entries of some items are removed. */
  ghost predicate Left(now: seq<Entry>, listed: seq<Entry>, items: seq<Item>) {
    forall e :: e in now <==> e in listed && !Names(items, e)
  }

  lemma NamesSnoc(items: seq<Item>, i: Item, e: Entry)
    ensures Names(items + [i], e) <==> Names(items, e) || i.entry == e
  {
    var more := items + [i];
    assert more[|items|] == i;
    if k :| 0 <= k < |items| && items[k].entry == e {
      assert more[k].entry == e;
    }
  }

  lemma LeftSnoc(now: seq<Entry>, after: seq<Entry>, listed: seq<Entry>, items: seq<Item>, i: Item)
    requires Left(now, listed, items) && forall e :: e in after <==> e in now && e != i.entry
    ensures Left(after, listed, items + [i])
  {
    forall e
      ensures e in after <==> e in listed && !Names(items + [i], e)
    {
      NamesSnoc(items, i, e);
    }
  }

  function Without(listed: seq<Entry>, e: Entry): (r: seq<Entry>)
    ensures forall x :: x in r <==> x in listed && x != e
  {
    if listed == [] then [] else
    var rest, last := listed[..|listed| - 1], listed[|listed| - 1];
    assert listed == rest + [last];
    Without(rest, e) + if last == e then [] else [last]
  }

  class SnapshotCache {
    const ours: Versions
    const present: bool
    const marked: bool
    var entries: seq<Entry>

    constructor (ours: Versions, present: bool, marked: bool, entries: seq<Entry>)
      ensures this.ours == ours && this.present == present && this.marked == marked && this.entries == entries
    {
      this.ours, this.present, this.marked, this.entries := ours, present, marked, entries;
    }

    /** `remove_if_unlocked`: the directory goes exactly when its lock could be taken and
        removing it works. */
    method RemoveUnlocked(i: Item) returns (answer: Answer)
      modifies this
      ensures answer == RemoveIfUnlocked(LockOf(i.entry, i.reason), i.entry.removable)
      ensures entries == if answer == Idle then Without(old(entries), i.entry) else old(entries)
    {
      match OpenLock(LockOf(i.entry, i.reason), Write)
      case Nothing =>
        // The directory itself is gone.
        entries := Without(entries, i.entry);
        return Idle;
      case Refused => return Unsafe;
      case Failed => return Error;
      case Opened(state) =>
        if state != Free {
          return if state == Held then Busy else Error;
        }
        if !i.entry.removable {
          return Error;
        }
        entries := Without(entries, i.entry);
        return Idle;
    }

    /** A plan only looks at the lock, an apply removes under it. */
    method Ask(o: Options, i: Item) returns (answer: Answer)
      modifies this
      ensures answer == AnswerFor(o, i.entry, i.reason)
      ensures entries == if o.apply && answer == Idle then Without(old(entries), i.entry) else old(entries)
    {
      if o.apply {
        answer := RemoveUnlocked(i);
      } else {
        answer := LockIsHeld(LockOf(i.entry, i.reason));
      }
    }

    /** The loop over the candidates. */
    method Settle(o: Options, candidates: seq<Item>, kept: seq<Item>)
      returns (ok: bool, deleted: seq<Item>, stay: seq<Item>)
      modifies this
      ensures ok <==>
                forall k :: 0 <= k < |candidates| ==> AnswerFor(o, candidates[k].entry, candidates[k].reason) != Error
      ensures ok ==> deleted == Select(candidates, DeletedOf(o)) && stay == kept + Select(candidates, BusyOf(o))
      ensures forall i :: i in deleted ==> i in Select(candidates, DeletedOf(o))
      ensures Remains(o, entries, old(entries), deleted)
    {
      deleted, stay := [], kept;
      NothingSettled(o, candidates, kept);
      for k := 0 to |candidates|
        invariant SettledTo(o, candidates, kept, k, deleted, stay)
        invariant Remains(o, entries, old(entries), deleted)
      {
        var i := candidates[k];
        ghost var before := entries;
        var answer := Ask(o, i);
        if answer == Error {
          SelectPrefix(candidates, k, DeletedOf(o));
          return false, deleted, stay;
        }
        SettledNext(o, candidates, kept, k, deleted, stay);
        if answer == Idle {
          RemainsSnoc(o, before, entries, old(entries), deleted, i);
          deleted := deleted + [i];
        } else {
          stay := stay + [Item(i.entry, if answer == Unsafe then Untrusted else BusyReason(i.reason))];
        }
      }
      AllSettled(o, candidates, kept, deleted, stay);
      return true, deleted, stay;
    }

    /** `clean_with_options`. */
    method CleanWithOptions(o: Options) returns (r: Result)
      requires DistinctPaths(entries)
      modifies this
      ensures !present || !marked ==> r == Ok(Report([], [], present)) && entries == old(entries)
      ensures present && marked ==>
                && ResultOf(old(entries), o, ours, r)
                && (r.Ok? && o.apply ==> Left(entries, old(entries), r.report.wouldDelete))
      ensures !o.apply ==> entries == old(entries)
      ensures forall e :: e in old(entries) && e !in entries ==> Decide(old(entries), o, ours, e).Delete?
    {
      if !present {
        return Ok(Report([], [], false));
      }
      if !marked {
        return Ok(Report([], [], true));
      }
      var listed := entries;
      var candidates, kept := Divide(listed, o, ours);
      var ok, deleted, stay := Settle(o, candidates, kept);
      LocksSettle(listed, o, ours, candidates, kept);
      FailuresFound(listed, o, ours, candidates, kept);
      OnlyDeletionsLeave(listed, entries, o, ours, candidates, deleted);
      if !ok {
        return Err;
      }
      var d, s := SortBy(deleted, PathKey), SortBy(stay, PathKey);
      Finished(listed, entries, o, ours, candidates, kept, d, s);
      r := Ok(Report(d, s, false));
    }
  }

  /** The entries once some items are removed, or all of them in a plan. */
  ghost predicate Remains(o: Options, now: seq<Entry>, listed: seq<Entry>, items: seq<Item>) {
    if o.apply then Left(now, listed, items) else now == listed
  }

  lemma RemainsSnoc(o: Options, before: seq<Entry>, after: seq<Entry>, listed: seq<Entry>, items: seq<Item>, i: Item)
    requires Remains(o, before, listed, items)
    requires after == if o.apply then Without(before, i.entry) else before
    ensures Remains(o, after, listed, items + [i])
  {
    if o.apply {
      LeftSnoc(before, after, listed, items, i);
    }
  }

  /** No answer for the first `k` candidates failed, and they are in their lists. */
  ghost predicate SettledTo(o: Options, candidates: seq<Item>, kept: seq<Item>, k: nat, deleted: seq<Item>,
                            stay: seq<Item>)
  {
    && k <= |candidates|
    && (forall j :: 0 <= j < k ==> AnswerFor(o, candidates[j].entry, candidates[j].reason) != Error)
    && deleted == Select(candidates[..k], DeletedOf(o)) && stay == kept + Select(candidates[..k], BusyOf(o))
  }

  lemma NothingSettled(o: Options, candidates: seq<Item>, kept: seq<Item>)
    ensures SettledTo(o, candidates, kept, 0, [], kept)
  {
  }

  lemma SettledNext(o: Options, candidates: seq<Item>, kept: seq<Item>, k: nat, deleted: seq<Item>, stay: seq<Item>)
    requires k < |candidates| && SettledTo(o, candidates, kept, k, deleted, stay)
    requires AnswerFor(o, candidates[k].entry, candidates[k].reason) != Error
    ensures var i := candidates[k];
            var answer := AnswerFor(o, i.entry, i.reason);
            SettledTo(o, candidates, kept, k + 1, if answer == Idle then deleted + [i] else deleted,
                      if answer == Idle then stay
                      else stay + [Item(i.entry, if answer == Unsafe then Untrusted else BusyReason(i.reason))])
  {
    SelectNext(o, candidates, k);
  }

  lemma AllSettled(o: Options, candidates: seq<Item>, kept: seq<Item>, deleted: seq<Item>, stay: seq<Item>)
    requires SettledTo(o, candidates, kept, |candidates|, deleted, stay)
    ensures deleted == Select(candidates, DeletedOf(o)) && stay == kept + Select(candidates, BusyOf(o))
  {
    assert candidates[..|candidates|] == candidates;
  }

  lemma SelectNext(o: Options, candidates: seq<Item>, k: nat)
    requires k < |candidates|
    ensures var i := candidates[k];
            && Select(candidates[..k + 1], DeletedOf(o)) ==
                 Select(candidates[..k], DeletedOf(o)) + (if AnswerFor(o, i.entry, i.reason) == Idle then [i] else [])
            && Select(candidates[..k + 1], BusyOf(o)) ==
                 Select(candidates[..k], BusyOf(o)) + (if BusyOf(o)(i).Some? then [BusyOf(o)(i).value] else [])
  {
    assert candidates[..k + 1] == candidates[..k] + [candidates[k]];
    SelectSnoc(candidates[..k], candidates[k], DeletedOf(o));
    SelectSnoc(candidates[..k], candidates[k], BusyOf(o));
  }

  /** Everything up to the locks. */
  method Divide(listed: seq<Entry>, o: Options, ours: Versions) returns (candidates: seq<Item>, kept: seq<Item>)
    requires DistinctPaths(listed)
    ensures Divided(listed, o, ours, candidates, kept)
  {
    var queue, current, stay := JudgeAll(listed, ours);
    if Retaining(o) {
      candidates, kept := Retain(listed, o, ours, queue, current, stay);
    } else {
      UnlimitedSplit(listed, o, ours, queue, current, stay);
      candidates, kept := queue, stay + current;
    }
  }

  lemma OnlyDeletionsLeave(listed: seq<Entry>, now: seq<Entry>, o: Options, ours: Versions, candidates: seq<Item>,
                           deleted: seq<Item>)
    requires if o.apply then Left(now, listed, deleted) else now == listed
    requires forall i :: i in deleted ==> i in Select(candidates, DeletedOf(o))
    requires forall i :: i in Select(candidates, DeletedOf(o)) <==>
                         i.entry in listed && Decide(listed, o, ours, i.entry) == Delete(i.reason)
    ensures forall e :: e in listed && e !in now ==> Decide(listed, o, ours, e).Delete?
  {
    forall e | e in listed && e !in now
      ensures Decide(listed, o, ours, e).Delete?
    {
      var k :| 0 <= k < |deleted| && deleted[k].entry == e;
      assert deleted[k] in deleted;
    }
  }

  lemma LeftSame(now: seq<Entry>, listed: seq<Entry>, a: seq<Item>, b: seq<Item>)
    requires Left(now, listed, a) && forall i :: i in a <==> i in b
    ensures Left(now, listed, b)
  {
    forall e
      ensures Names(a, e) <==> Names(b, e)
    {
      if k :| 0 <= k < |a| && a[k].entry == e {
        assert a[k] in b;
        var j :| 0 <= j < |b| && b[j] == a[k];
      }
      if k :| 0 <= k < |b| && b[k].entry == e {
        assert b[k] in a;
        var j :| 0 <= j < |a| && a[j] == b[k];
      }
    }
  }

  /** The sorted lists are the report. */
  lemma Finished(listed: seq<Entry>, now: seq<Entry>, o: Options, ours: Versions, candidates: seq<Item>,
                 kept: seq<Item>,
                 d: seq<Item>, s: seq<Item>)
    requires DistinctPaths(listed) && Divided(listed, o, ours, candidates, kept)
    requires d == SortBy(Select(candidates, DeletedOf(o)), PathKey)
             && s == SortBy(kept + Select(candidates, BusyOf(o)), PathKey)
    requires o.apply ==> Left(now, listed, Select(candidates, DeletedOf(o)))
    ensures ReportOf(listed, o, ours, Report(d, s, false)) && (o.apply ==> Left(now, listed, d))
  {
    LocksSettle(listed, o, ours, candidates, kept);
    SortedReport(Select(candidates, DeletedOf(o)), d);
    SortedReport(kept + Select(candidates, BusyOf(o)), s);
    if o.apply {
      LeftSame(now, listed, Select(candidates, DeletedOf(o)), d);
    }
  }

  lemma SelectPrefix<T>(s: seq<T>, k: nat, f: T -> Option<Item>)
    requires k <= |s|
    ensures forall i :: i in Select(s[..k], f) ==> i in Select(s, f)
  {
    forall i | i in Select(s[..k], f)
      ensures i in Select(s, f)
    {
      SelectMembers(s[..k], f, i);
      SelectMembers(s, f, i);
      var j :| 0 <= j < k && f(s[..k][j]) == Some(i);
      assert f(s[j]) == Some(i);
    }
  }

  /** The candidates hold every entry whose lock fails. */
  lemma FailuresFound(listed: seq<Entry>, o: Options, ours: Versions, candidates: seq<Item>, kept: seq<Item>)
    requires Divided(listed, o, ours, candidates, kept)
    ensures SomeFails(listed, o, ours) <==>
            exists k :: 0 <= k < |candidates| && AnswerFor(o, candidates[k].entry, candidates[k].reason) == Error
  {
    if e :| e in listed && Decide(listed, o, ours, e) == Fail {
      DecisionSplits(listed, o, ours, e);
      var i := Item(e, Queue(listed, o, ours, e).value);
      var k :| 0 <= k < |candidates| && candidates[k] == i;
    }
    if k :| 0 <= k < |candidates| && AnswerFor(o, candidates[k].entry, candidates[k].reason) == Error {
      var i := candidates[k];
      assert i in candidates;
      DecisionSplits(listed, o, ours, i.entry);
      assert i.entry in listed && Decide(listed, o, ours, i.entry) == Fail;
    }
  }

  lemma SortedReport(items: seq<Item>, s: seq<Item>)
    requires NoRepeats(items) && s == SortBy(items, PathKey)
    ensures StrictlySorted(s, PathKey) && forall i :: i in s <==> i in items
  {
    SortIsCorrect(items, PathKey);
    SameMembers(items, s);
    SortKeepsDistinct(items, s);
    forall i, j | 0 <= i < j < |s|
      ensures PathKey(s[i]) != PathKey(s[j])
    {
      if PathKey(s[i]) == PathKey(s[j]) {
        CodesInjective(s[i].entry.path, s[j].entry.path);
      }
    }
    SortedStrictly(s, PathKey);
  }

  // ---- Whole reports --------------------------------------------------------------

  ghost predicate Mentions(items: seq<Item>, e: Entry) {
    exists i :: i in items && i.entry == e
  }

  /** Every listed path that still exists and is not the marker is in exactly one of
      the two lists. */
  lemma EveryEntryOnce(listed: seq<Entry>, o: Options, ours: Versions, r: Report, e: Entry)
    requires ReportOf(listed, o, ours, r) && !SomeFails(listed, o, ours) && e in listed
    ensures Judge(e, ours) == Ignored ==> !Mentions(r.wouldDelete, e) && !Mentions(r.kept, e)
    ensures Judge(e, ours) != Ignored ==> (Mentions(r.wouldDelete, e) <==> !Mentions(r.kept, e))
  {
    DecisionSplits(listed, o, ours, e);
    var d := Decide(listed, o, ours, e);
    assert d != Fail;
    if d.Delete? {
      assert Item(e, d.reason) in r.wouldDelete;
    } else if d.Keep? {
      assert Item(e, d.reason) in r.kept;
    }
  }

  /** Of the retained entries the most recently used survive, as many as the bound
      allows. */
  lemma SurvivorsAreMostRecent(listed: seq<Entry>, o: Options, ours: Versions)
    requires DistinctPaths(listed) && o.keep.Some?
    ensures var retained := set e | e in listed && Retained(e, o, ours);
            var survivors := set e | e in listed && Retained(e, o, ours) && !Evicted(listed, o, ours, e);
            && |survivors| == (if o.keep.value < |retained| then o.keep.value else |retained|)
            && forall a, b :: a in survivors && b in retained && b !in survivors ==> Precedes(a, b)
  {
    JudgedIsSelected(listed, ours);
    var current := Select(listed, UsableOf(ours));
    RetainedIsSelected(listed, o, ours, Select(listed, CandidateOf(ours)), current, Select(listed, KeptOf(ours)));
    var items := Select(current, RetainedOf(o));
    var s := SortBy(items, RecencyKey(Newest(items)));
    SortedByRecency(listed, o, ours, items, s);
    RecencyOfSorted(listed, o, ours, items, s);
    SurvivorsOf(listed, o, ours, s, if o.keep.value < |s| then o.keep.value else |s|, Newest(items));
  }

  lemma RecencyOfSorted(listed: seq<Entry>, o: Options, ours: Versions, items: seq<Item>, s: seq<Item>)
    requires RetainedOnly(listed, o, ours, items) && s == SortBy(items, RecencyKey(Newest(items))) && NoRepeats(s)
    ensures InOrder(s, Newest(items))
  {
    SortIsCorrect(items, RecencyKey(Newest(items)));
    SameMembers(items, s);
    NewestBounds(items);
    forall k | 0 <= k < |s|
      ensures Dated(s[k], Newest(items))
    {
      assert s[k] in items;
    }
    RecencyOrders(s, Newest(items));
  }

  lemma SurvivorsOf(listed: seq<Entry>, o: Options, ours: Versions, s: seq<Item>, n: nat, newest: nat)
    requires RetainedList(listed, o, ours, s, n) && InOrder(s, newest)
    ensures var retained := set e | e in listed && Retained(e, o, ours);
            var survivors := set e | e in listed && Retained(e, o, ours) && !Evicted(listed, o, ours, e);
            && |retained| == |s| && |survivors| == n
            && forall a, b :: a in survivors && b in retained && b !in survivors ==> Precedes(a, b)
  {
    var es := EntriesOf(s);
    EntriesAreRetained(listed, o, ours, s);
    CardinalityOf(es);
    CardinalityOf(es[..n]);
    var retained := set e | e in listed && Retained(e, o, ours);
    var survivors := set e | e in listed && Retained(e, o, ours) && !Evicted(listed, o, ours, e);
    assert retained == set e | e in es;
    forall e
      ensures e in survivors <==> e in es[..n]
    {
      SurvivorPlace(listed, o, ours, s, n, e);
    }
    assert survivors == set e | e in es[..n];
    forall a, b | a in survivors && b in retained && b !in survivors
      ensures Precedes(a, b)
    {
      SurvivorPrecedes(listed, o, ours, s, n, newest, a, b);
    }
  }

  lemma SurvivorPrecedes(listed: seq<Entry>, o: Options, ours: Versions, s: seq<Item>, n: nat, newest: nat, a: Entry,
                         b: Entry)
    requires RetainedList(listed, o, ours, s, n) && InOrder(s, newest)
    requires a in listed && Retained(a, o, ours) && !Evicted(listed, o, ours, a)
    requires b in listed && Retained(b, o, ours) && Evicted(listed, o, ours, b)
    ensures Precedes(a, b)
  {
    assert Item(a, StillCurrent) in s && Item(b, StillCurrent) in s;
    var i :| 0 <= i < |s| && s[i] == Item(a, StillCurrent);
    var j :| 0 <= j < |s| && s[j] == Item(b, StillCurrent);
    assert i < n <= j;
  }

  lemma SurvivorPlace(listed: seq<Entry>, o: Options, ours: Versions, s: seq<Item>, n: nat, e: Entry)
    requires RetainedList(listed, o, ours, s, n)
    ensures e in EntriesOf(s)[..n] <==> e in listed && Retained(e, o, ours) && !Evicted(listed, o, ours, e)
  {
    var es := EntriesOf(s);
    if e in es[..n] {
      var k :| 0 <= k < n && es[..n][k] == e;
      assert s[k].entry == e && s[k] in s;
    }
    if e in listed && Retained(e, o, ours) && !Evicted(listed, o, ours, e) {
      assert Item(e, StillCurrent) in s;
      var k :| 0 <= k < |s| && s[k] == Item(e, StillCurrent);
      assert es[..n][k] == e;
    }
  }

  // ---- Plan and apply -----------------------------------------------------------------

  /** What `clean_with_options` returns for a marked directory with this listing. */
  ghost predicate ResultOf(listed: seq<Entry>, o: Options, ours: Versions, r: Result) {
    (r.Err? <==> SomeFails(listed, o, ours)) && (r.Ok? ==> ReportOf(listed, o, ours, r.report))
  }

  /** No entry put up for deletion has a lock that misleads a plan. */
  ghost predicate PlainLocks(listed: seq<Entry>, o: Options, ours: Versions) {
    forall e :: e in listed && Queue(listed, o, ours, e).Some? ==>
      !Misleads(LockOf(e, Queue(listed, o, ours, e).value), e.removable)
  }

  lemma SameQueue(listed: seq<Entry>, o: Options, p: Options, ours: Versions, e: Entry)
    requires p == o.(apply := p.apply)
    ensures Queue(listed, o, ours, e) == Queue(listed, p, ours, e)
            && Stays(listed, o, ours, e) == Stays(listed, p, ours, e)
  {
    if Age(e).Some? {
      assert Ahead(listed, o, ours, e) == Ahead(listed, p, ours, e);
    }
  }

  /** One entry: plan and apply decide alike, unless its lock misleads and the apply fails. */
  lemma DecisionsCompare(listed: seq<Entry>, plan: Options, apply: Options, ours: Versions, e: Entry)
    requires !plan.apply && apply == plan.(apply := true)
    ensures var queue := Queue(listed, plan, ours, e);
            if queue.Some? && Misleads(LockOf(e, queue.value), e.removable) then Decide(listed, apply, ours, e) == Fail
            else Decide(listed, plan, ours, e) == Decide(listed, apply, ours, e)
  {
    SameQueue(listed, plan, apply, ours, e);
    DecisionSplits(listed, plan, ours, e);
    DecisionSplits(listed, apply, ours, e);
    var queue := Queue(listed, plan, ours, e);
    if queue.Some? {
      AgreeExactly(LockOf(e, queue.value), e.removable);
    }
  }

  lemma MisledApplyFails(listed: seq<Entry>, plan: Options, apply: Options, ours: Versions)
    requires !plan.apply && apply == plan.(apply := true) && !PlainLocks(listed, plan, ours)
    ensures SomeFails(listed, apply, ours)
  {
    var e :| e in listed && Queue(listed, plan, ours, e).Some?
      && Misleads(LockOf(e, Queue(listed, plan, ours, e).value), e.removable);
    DecisionsCompare(listed, plan, apply, ours, e);
  }

  lemma PlainLocksAgree(listed: seq<Entry>, plan: Options, apply: Options, ours: Versions)
    requires !plan.apply && apply == plan.(apply := true) && PlainLocks(listed, plan, ours)
    ensures forall e :: e in listed ==> Decide(listed, plan, ours, e) == Decide(listed, apply, ours, e)
    ensures SomeFails(listed, plan, ours) <==> SomeFails(listed, apply, ours)
  {
    forall e | e in listed
      ensures Decide(listed, plan, ours, e) == Decide(listed, apply, ours, e)
    {
      DecisionsCompare(listed, plan, apply, ours, e);
    }
    if e :| e in listed && Decide(listed, plan, ours, e) == Fail {
      assert Decide(listed, apply, ours, e) == Fail;
    }
    if e :| e in listed && Decide(listed, apply, ours, e) == Fail {
      assert Decide(listed, plan, ours, e) == Fail;
    }
  }

  /** A plan that fails fails as an apply, too. */
  lemma FailedPlanFails(listed: seq<Entry>, plan: Options, apply: Options, ours: Versions)
    requires !plan.apply && apply == plan.(apply := true) && SomeFails(listed, plan, ours)
    ensures SomeFails(listed, apply, ours)
  {
    var e :| e in listed && Decide(listed, plan, ours, e) == Fail;
    DecisionsCompare(listed, plan, apply, ours, e);
    assert Decide(listed, apply, ours, e) == Fail;
  }

  /** On the same directory and lock state an apply returns what the plan returned if and
      only if the plan failed already or no entry put up for deletion has a lock whose
      shape misleads the plan. */
  lemma PlanIsApply(listed: seq<Entry>, plan: Options, apply: Options, ours: Versions, planned: Result, applied: Result)
    requires !plan.apply && apply == plan.(apply := true)
    requires ResultOf(listed, plan, ours, planned) && ResultOf(listed, apply, ours, applied)
    ensures planned == applied <==> planned.Err? || PlainLocks(listed, plan, ours)
  {
    if SomeFails(listed, plan, ours) {
      FailedPlanFails(listed, plan, apply, ours);
    } else if PlainLocks(listed, plan, ours) {
      PlainLocksAgree(listed, plan, apply, ours);
      SortedIsUnique(planned.report.wouldDelete, applied.report.wouldDelete, PathKey);
      SortedIsUnique(planned.report.kept, applied.report.kept, PathKey);
    } else {
      MisledApplyFails(listed, plan, apply, ours);
    }
  }

  /** A directory where the builder lock should be: the plan keeps the entry as untrusted,
      and the apply fails. */
  lemma DirectoryAtLock(e: Entry, plan: Options, apply: Options, ours: Versions, planned: Result, applied: Result)
    requires !plan.apply && apply == plan.(apply := true)
    requires e.shape.Staging? && e.isDir && e.building == Directory(true)
    requires ResultOf([e], plan, ours, planned) && ResultOf([e], apply, ours, applied)
    ensures planned.Ok? && planned.report.wouldDelete == [] && planned.report.kept == [Item(e, Untrusted)]
    ensures applied.Err?
  {
    assert Decide([e], plan, ours, e) == Keep(Untrusted) && Decide([e], apply, ours, e) == Fail;
    assert e in [e];
    var r := planned.report;
    SortedIsUnique(r.wouldDelete, [], PathKey);
    SortedIsUnique(r.kept, [Item(e, Untrusted)], PathKey);
  }
}
