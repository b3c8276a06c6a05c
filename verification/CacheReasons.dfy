// Why a clean removes or keeps an entry, on the entry's own fields.

/** Each reason of a report and the facts that give it. */
module CacheReasons {
  import opened Wrappers
  import opened CacheKey
  import opened CacheLock
  import opened CacheClean
  import opened Ranking

  // ---- The facts ----------------------------------------------------------------

  /** This user's own directory of a commit, with a readable key. */
  predicate OwnEntry(e: Entry) {
    e.shape.Commit? && e.isDir && e.provenance == Private && e.metadata.Some?
  }

  /** An entry with exactly the key this binary would write. */
  predicate HasOurKey(e: Entry, ours: Versions) {
    OwnEntry(e) && e.metadata.value == Metadata(e.shape.sha, ours)
  }

  /** No component is above this binary's, and some component is below. */
  predicate Below(v: Versions, ours: Versions) {
    && v.schema <= ours.schema && v.extractor <= ours.extractor && v.store <= ours.store
    && (v.schema < ours.schema || v.extractor < ours.extractor || v.store < ours.store)
  }

  predicate Above(v: Versions, ours: Versions) {
    v.schema > ours.schema || v.extractor > ours.extractor || v.store > ours.store
  }

  /** The entry was last used at `at`: as recorded, or else when it was published. */
  predicate UsedAt(e: Entry, at: nat) {
    e.lastUsed == Some(at) || (e.lastUsed.None? && e.published == Some(at))
  }

  predicate NeverDated(e: Entry) {
    e.lastUsed.None? && e.published.None?
  }

  /** Unused for longer than the policy allows. */
  predicate Overdue(e: Entry, o: Options) {
    o.olderThan.Some? &&
    if e.lastUsed.Some? then e.lastUsed.value + o.olderThan.value < o.now
    else e.published.Some? && e.published.value + o.olderThan.value < o.now
  }

  predicate Live(e: Entry, ours: Versions) {
    HasOurKey(e, ours) && e.liveness == Liveness.Live
  }

  /** A live entry that is dated and not overdue. */
  predicate Recent(e: Entry, o: Options, ours: Versions) {
    Live(e, ours) && !NeverDated(e) && !Overdue(e, o)
  }

  /** `a` was used later than `b`, or at the same time and has the smaller path. */
  ghost predicate UsedLater(a: Entry, b: Entry) {
    exists s, t :: UsedAt(a, s) && UsedAt(b, t) && (s > t || (s == t && Less(Codes(a.path), Codes(b.path))))
  }

  /** The recent entries used later than `e`. */
  ghost function Later(listed: seq<Entry>, o: Options, ours: Versions, e: Entry): set<Entry> {
    set x | x in listed && Recent(x, o, ours) && UsedLater(x, e)
  }

  /** As many recent entries as are to be kept were used later. */
  ghost predicate Surplus(listed: seq<Entry>, o: Options, ours: Versions, e: Entry) {
    Recent(e, o, ours) && o.keep.Some? && |Later(listed, o, ours, e)| >= o.keep.value
  }

  /** What puts an entry up for deletion under a reason. */
  ghost predicate DeletionCause(listed: seq<Entry>, o: Options, ours: Versions, e: Entry, reason: Reason) {
    match reason
    case AbandonedStaging => e.shape.Staging? && e.isDir
    case Untrusted => e.shape.Commit? && e.isDir && e.provenance == Loose
    case StaleKey => OwnEntry(e) && e.metadata.value.commit == e.shape.sha && Below(e.metadata.value.versions, ours)
    case UnreferencedCommit => HasOurKey(e, ours) && e.liveness == Gone
    case Expired => Live(e, ours) && Overdue(e, o)
    case EvictedLru => Surplus(listed, o, ours, e)
    case _ => false
  }

  /** What keeps an entry, whoever has it open. */
  ghost predicate KeepingCause(listed: seq<Entry>, o: Options, ours: Versions, e: Entry, reason: Reason) {
    match reason
    case Unrecognized =>
      || (!e.shape.Marker? && !e.isDir) || e.shape.OtherName?
      || (OwnEntry(e) && e.metadata.value.commit != e.shape.sha)
    case Untrusted => e.shape.Commit? && e.isDir && e.provenance == Foreign
    case Unreadable => e.shape.Commit? && e.isDir && e.provenance == Private && e.metadata.None?
    case NewerIdentity =>
      OwnEntry(e) && e.metadata.value.commit == e.shape.sha && Above(e.metadata.value.versions, ours)
    case Unverifiable => HasOurKey(e, ours) && e.liveness == Unknown
    case UnknownAge => Live(e, ours) && (o.olderThan.Some? || o.keep.Some?) && NeverDated(e)
    case StillCurrent =>
      Live(e, ours) && ((o.olderThan.None? && o.keep.None?)
                        || (Recent(e, o, ours) && !Surplus(listed, o, ours, e)))
    case _ => false
  }

  /** What a held or untrusted lock makes of a candidate. */
  predicate LockCause(o: Options, e: Entry, cause: Reason, reason: Reason) {
    match AnswerFor(o, e, cause)
    case Busy => reason == if cause == AbandonedStaging then Building else InUse
    case Unsafe => reason == Untrusted
    case _ => false
  }

  // ---- Ages ---------------------------------------------------------------------

  lemma AgeIsUse(e: Entry)
    ensures Age(e).None? <==> NeverDated(e)
    ensures forall at: nat :: UsedAt(e, at) <==> Age(e) == Some(at)
  {
  }

  lemma ExpiryIsOverdue(e: Entry, o: Options)
    ensures IsExpired(e, o) <==> Overdue(e, o)
  {
  }

  lemma UsableIsLive(e: Entry, ours: Versions)
    ensures Judge(e, ours) == Usable <==> Live(e, ours)
  {
  }

  lemma RetainedIsRecent(e: Entry, o: Options, ours: Versions)
    ensures Retained(e, o, ours) <==> Recent(e, o, ours)
  {
    UsableIsLive(e, ours);
    ExpiryIsOverdue(e, o);
  }

  lemma PrecedesIsLater(a: Entry, b: Entry)
    requires Age(a).Some? && Age(b).Some?
    ensures Precedes(a, b) <==> UsedLater(a, b)
  {
    AgeIsUse(a);
    AgeIsUse(b);
    assert UsedAt(a, Age(a).value) && UsedAt(b, Age(b).value);
  }

  lemma AheadIsLater(listed: seq<Entry>, o: Options, ours: Versions, e: Entry)
    requires Age(e).Some?
    ensures Ahead(listed, o, ours, e) == Later(listed, o, ours, e)
  {
    forall x
      ensures x in Ahead(listed, o, ours, e) <==> x in Later(listed, o, ours, e)
    {
      RetainedIsRecent(x, o, ours);
      if Age(x).Some? {
        PrecedesIsLater(x, e);
      }
    }
  }

  lemma EvictedIsSurplus(listed: seq<Entry>, o: Options, ours: Versions, e: Entry)
    requires Retained(e, o, ours)
    ensures Evicted(listed, o, ours, e) <==> Surplus(listed, o, ours, e)
  {
    RetainedIsRecent(e, o, ours);
    AheadIsLater(listed, o, ours, e);
  }

  // ---- The reasons --------------------------------------------------------------

  lemma QueueHasCause(listed: seq<Entry>, o: Options, ours: Versions, e: Entry, reason: Reason)
    ensures Queue(listed, o, ours, e) == Some(reason) <==> DeletionCause(listed, o, ours, e, reason)
  {
    UsableIsLive(e, ours);
    ExpiryIsOverdue(e, o);
    RetainedIsRecent(e, o, ours);
    if Retained(e, o, ours) {
      EvictedIsSurplus(listed, o, ours, e);
    }
  }

  lemma StayHasCause(listed: seq<Entry>, o: Options, ours: Versions, e: Entry, reason: Reason)
    ensures Stays(listed, o, ours, e) == Some(reason) <==> KeepingCause(listed, o, ours, e, reason)
  {
    UsableIsLive(e, ours);
    ExpiryIsOverdue(e, o);
    RetainedIsRecent(e, o, ours);
    if Retained(e, o, ours) {
      EvictedIsSurplus(listed, o, ours, e);
    }
  }

  /** An entry is reported as removed for a reason exactly when the facts that give the
      reason hold and its lock answers that nobody has it. */
  lemma ReasonsToDelete(listed: seq<Entry>, o: Options, ours: Versions, r: Report, i: Item)
    requires ReportOf(listed, o, ours, r)
    ensures i in r.wouldDelete <==>
            && i.entry in listed && DeletionCause(listed, o, ours, i.entry, i.reason)
            && AnswerFor(o, i.entry, i.reason) == Idle
  {
    DecisionSplits(listed, o, ours, i.entry);
    QueueHasCause(listed, o, ours, i.entry, i.reason);
  }

  /** An entry is reported as kept for a reason exactly when the facts that give the
      reason hold, or those of a deletion hold and its lock gives the reason. */
  lemma ReasonsToKeep(listed: seq<Entry>, o: Options, ours: Versions, r: Report, i: Item)
    requires ReportOf(listed, o, ours, r)
    ensures i in r.kept <==>
            && i.entry in listed
            && (|| KeepingCause(listed, o, ours, i.entry, i.reason)
                || exists cause ::
                     DeletionCause(listed, o, ours, i.entry, cause) && LockCause(o, i.entry, cause, i.reason))
  {
    var e := i.entry;
    DecisionSplits(listed, o, ours, e);
    StayHasCause(listed, o, ours, e, i.reason);
    forall cause
      ensures DeletionCause(listed, o, ours, e, cause) <==> Queue(listed, o, ours, e) == Some(cause)
    {
      QueueHasCause(listed, o, ours, e, cause);
    }
  }

  /** Of the recent entries exactly the `keep` most recently used are left out of the
      candidates, or all if they are fewer, and each of them was used later than every
      one that is put up for deletion. */
  lemma MostRecentAreKept(listed: seq<Entry>, o: Options, ours: Versions)
    requires DistinctPaths(listed) && o.keep.Some?
    ensures var recent := set e | e in listed && Recent(e, o, ours);
            var left := set e | e in listed && Recent(e, o, ours) && Queue(listed, o, ours, e).None?;
            && |left| == (if o.keep.value < |recent| then o.keep.value else |recent|)
            && (forall a, b :: a in left && b in recent && b !in left ==> UsedLater(a, b))
            && (forall b :: b in recent && b !in left ==> Queue(listed, o, ours, b) == Some(EvictedLru))
  {
    SurvivorsAreMostRecent(listed, o, ours);
    var retained := set e | e in listed && Retained(e, o, ours);
    var survivors := set e | e in listed && Retained(e, o, ours) && !Evicted(listed, o, ours, e);
    var recent := set e | e in listed && Recent(e, o, ours);
    var left := set e | e in listed && Recent(e, o, ours) && Queue(listed, o, ours, e).None?;
    forall e
      ensures e in recent <==> e in retained
      ensures e in left <==> e in survivors
    {
      RetainedIsRecent(e, o, ours);
    }
    assert recent == retained && left == survivors;
    forall a, b | a in left && b in recent && b !in left
      ensures UsedLater(a, b)
    {
      PrecedesIsLater(a, b);
    }
  }
}
