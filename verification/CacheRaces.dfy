// Two runs of the snapshot cache in which a commit's directory is built again.

/** A remover that relies on an old lock, and a lookup that relies on an old key. */
module CacheRaces {
  import opened CacheKey
  import opened CacheProtocol
  import opened CacheLookup

  lemma Then(ours: Pid -> Versions, s: State, run: seq<Event>, p: Pid, choice: Choice, t: State)
    returns (more: seq<Event>)
    requires Next(ours, Exec(ours, s, run), p, choice) == t
    ensures Exec(ours, s, more) == t && more == run + [Event(p, choice)]
    ensures Undisturbed(ours, s, run) && (choice == Advance ==> !Renames(At(Exec(ours, s, run), p))) ==>
              Undisturbed(ours, s, more)
  {
    more := run + [Event(p, choice)];
    ExecSnoc(ours, s, run, Event(p, choice));
    if Undisturbed(ours, s, run) && (choice == Advance ==> !Renames(At(Exec(ours, s, run), p))) {
      StaysUndisturbed(ours, s, run, Event(p, choice));
    }
  }

  predicate Renames(pc: Pc) {
    pc.Making? && pc.make == Rename
  }

  lemma {:induction false} StaysUndisturbed(ours: Pid -> Versions, s: State, run: seq<Event>, e: Event)
    requires Undisturbed(ours, s, run)
    requires e.choice == Advance ==> forall q :: !Recreates(Exec(ours, s, run), e.p, q)
    ensures Undisturbed(ours, s, run + [e])
  {
    var more := run + [e];
    forall k, q | 0 <= k < |more| && more[k].choice == Advance
      ensures !Recreates(Exec(ours, s, more[..k]), more[k].p, q)
    {
      assert more[..k] == run[..k];
      if k < |run| {
        assert more[k] == run[k];
      } else {
        assert run[..k] == run;
      }
    }
  }

  /** A run goes on, and if process 1 only looks up, it goes on undisturbed. */
  ghost predicate GoesOn(ours: Pid -> Versions, s: State, first: Pc, start: seq<Event>, run: seq<Event>) {
    first.Looking? && Undisturbed(ours, s, start) ==> Undisturbed(ours, s, run)
  }

  const EMPTY := Dir(0, Private, NoKey, false, false, false, false)
  const LOCKED := EMPTY.(inUseLock := true, buildingLock := true)

  function Built(v: Versions): Dir {
    Dir(0, Private, Key(Metadata(0, v)), true, true, true, true)
  }

  /** A cache holding one complete entry, for commit 0. */
  function OneEntry(v: Versions): State {
    State(Disk(map[Entry(0) := 0], map[0 := Built(v)], 1), map[])
  }

  /** Where process 1 waits: it has the lock of the old directory open, or has just read
      its key. */
  predicate Waits(first: Pc) {
    first == Removing(TakeExclusive, Entry(0), 0) || first == Looking(OpenInUse, 0, 0)
  }

  /** Process 1 waits and process 2 is at `pc`. */
  function Waiting(v: Versions, first: Pc, pc: Pc): State {
    State(Disk(map[Entry(0) := 0], map[0 := Built(v)], 1), map[1 := first, 2 := pc])
  }

  /** Process 2 has removed the entry, and process 3 builds it again. */
  function Rebuilding(v: Versions, first: Pc, make: MakeAt, dir: Dir): State {
    State(Disk(map[Staging(1) := 1], map[0 := Built(v), 1 := dir], 2),
          map[1 := first, 2 := Idle, 3 := Making(make, 0, 1)])
  }

  /** Process 3 has published directory 1, while process 1 is at `pc`. */
  function Rebuilt(v: Versions, w: Versions, pc: Pc): State {
    State(Disk(map[Entry(0) := 1], map[0 := Built(v), 1 := Built(w)], 2),
          map[1 := pc, 2 := Idle, 3 := Looking(Returned, 0, 1)])
  }

  // ---- Removing and building again ------------------------------------------------

  lemma SecondRemover(ours: Pid -> Versions, v: Versions, first: Pc, s: State, start: seq<Event>)
    returns (run: seq<Event>)
    requires Waits(first) && Exec(ours, s, start) == State(OneEntry(v).disk, map[1 := first])
    ensures Exec(ours, s, run) == Waiting(v, first, Removing(RemoveDir, Entry(0), 0))
            && GoesOn(ours, s, first, start, run)
  {
    run := Then(ours, s, start, 2, BeginRemove(Entry(0)), Waiting(v, first, Removing(OpenLock, Entry(0), 0)));
    run := LockOld(ours, v, first, s, run);
  }

  lemma LockOld(ours: Pid -> Versions, v: Versions, first: Pc, s: State, start: seq<Event>) returns (run: seq<Event>)
    requires Waits(first) && Exec(ours, s, start) == Waiting(v, first, Removing(OpenLock, Entry(0), 0))
    ensures Exec(ours, s, run) == Waiting(v, first, Removing(RemoveDir, Entry(0), 0))
            && GoesOn(ours, s, first, start, run)
  {
    run := Then(ours, s, start, 2, Advance, Waiting(v, first, Removing(TakeExclusive, Entry(0), 0)));
    assert ExclusiveFree(Waiting(v, first, Removing(TakeExclusive, Entry(0), 0)), 2, Entry(0), 0);
    run := Then(ours, s, run, 2, Advance, Waiting(v, first, Removing(RemoveDir, Entry(0), 0)));
  }

  lemma RemoveThenStage(ours: Pid -> Versions, v: Versions, first: Pc, s: State, start: seq<Event>)
    returns (run: seq<Event>)
    requires Exec(ours, s, start) == Waiting(v, first, Removing(RemoveDir, Entry(0), 0))
    ensures Exec(ours, s, run) == Rebuilding(v, first, CreateBuilding, EMPTY) && GoesOn(ours, s, first, start, run)
  {
    var gone := Disk(map[], map[0 := Built(v)], 1);
    run := Then(ours, s, start, 2, Advance, State(gone, map[1 := first, 2 := Idle]));
    run := Then(ours, s, run, 3, BeginBuild(0), Rebuilding(v, first, CreateBuilding, EMPTY));
  }

  lemma RebuildStep(ours: Pid -> Versions, v: Versions, first: Pc, s: State, run: seq<Event>, make: MakeAt, dir: Dir,
                    next: MakeAt, after: Dir)
    returns (more: seq<Event>)
    requires Exec(ours, s, run) == Rebuilding(v, first, make, dir)
    requires Make(ours(3), Rebuilding(v, first, make, dir), 3).pc == Making(next, 0, 1)
    requires Make(ours(3), Rebuilding(v, first, make, dir), 3).disk.names == map[Staging(1) := 1]
    requires Make(ours(3), Rebuilding(v, first, make, dir), 3).disk.dirs == map[0 := Built(v), 1 := after]
    ensures Exec(ours, s, more) == Rebuilding(v, first, next, after) && GoesOn(ours, s, first, run, more)
  {
    var t := Next(ours, Rebuilding(v, first, make, dir), 3, Advance);
    assert t.pcs == Rebuilding(v, first, next, after).pcs;
    more := Then(ours, s, run, 3, Advance, Rebuilding(v, first, next, after));
  }

  lemma LockAgain(ours: Pid -> Versions, v: Versions, first: Pc, s: State, start: seq<Event>)
    returns (run: seq<Event>)
    requires Waits(first) && Exec(ours, s, start) == Rebuilding(v, first, CreateBuilding, EMPTY)
    ensures Exec(ours, s, run) == Rebuilding(v, first, BuildTree, LOCKED) && GoesOn(ours, s, first, start, run)
  {
    var half := EMPTY.(buildingLock := true);
    run := RebuildStep(ours, v, first, s, start, CreateBuilding, EMPTY, TakeBuilding, half);
    run := RebuildStep(ours, v, first, s, run, TakeBuilding, half, CreateInUse, half);
    run := LockInUse(ours, v, first, s, run, half);
  }

  lemma LockInUse(ours: Pid -> Versions, v: Versions, first: Pc, s: State, start: seq<Event>, half: Dir)
    returns (run: seq<Event>)
    requires Waits(first) && half == EMPTY.(buildingLock := true)
    requires Exec(ours, s, start) == Rebuilding(v, first, CreateInUse, half)
    ensures Exec(ours, s, run) == Rebuilding(v, first, BuildTree, LOCKED) && GoesOn(ours, s, first, start, run)
  {
    run := RebuildStep(ours, v, first, s, start, CreateInUse, half, TakeInUse, LOCKED);
    run := RebuildStep(ours, v, first, s, run, TakeInUse, LOCKED, BuildTree, LOCKED);
  }

  lemma BuildAgain(ours: Pid -> Versions, v: Versions, first: Pc, s: State, start: seq<Event>)
    returns (run: seq<Event>)
    requires Exec(ours, s, start) == Rebuilding(v, first, BuildTree, LOCKED)
    ensures Exec(ours, s, run) == Rebuilding(v, first, Rename, Built(ours(3))) && GoesOn(ours, s, first, start, run)
  {
    var tree := LOCKED.(tree := true, db := true);
    run := RebuildStep(ours, v, first, s, start, BuildTree, LOCKED, WriteKey, tree);
    run := RebuildStep(ours, v, first, s, run, WriteKey, tree, CheckDestination, Built(ours(3)));
    run := RebuildStep(ours, v, first, s, run, CheckDestination, Built(ours(3)), Rename, Built(ours(3)));
  }

  lemma PublishAgain(ours: Pid -> Versions, v: Versions, first: Pc, s: State, start: seq<Event>)
    returns (run: seq<Event>)
    requires Waits(first) && Exec(ours, s, start) == Rebuilding(v, first, Rename, Built(ours(3)))
    ensures Exec(ours, s, run) == Rebuilt(v, ours(3), first) && GoesOn(ours, s, first, start, run)
  {
    assert forall q :: !InWindow(At(Rebuilding(v, first, Rename, Built(ours(3))), q), 0) || q == 1;
    var t := Next(ours, Rebuilding(v, first, Rename, Built(ours(3))), 3, Advance);
    assert t.disk.names == map[Entry(0) := 1] && t.pcs == Rebuilt(v, ours(3), first).pcs;
    run := Then(ours, s, start, 3, Advance, Rebuilt(v, ours(3), first));
    if first.Looking? && Undisturbed(ours, s, start) {
      assert first.look == OpenInUse;
      StaysUndisturbed(ours, s, start, Event(3, Advance));
    }
  }

  /** While process 1 waits, the entry is removed and built again. */
  lemma BuiltAgain(ours: Pid -> Versions, v: Versions, first: Pc, s: State, start: seq<Event>)
    returns (run: seq<Event>)
    requires Waits(first) && Exec(ours, s, start) == State(OneEntry(v).disk, map[1 := first])
    ensures Exec(ours, s, run) == Rebuilt(v, ours(3), first) && GoesOn(ours, s, first, start, run)
  {
    run := SecondRemover(ours, v, first, s, start);
    run := RemoveThenStage(ours, v, first, s, run);
    run := LockAgain(ours, v, first, s, run);
    run := BuildAgain(ours, v, first, s, run);
    run := PublishAgain(ours, v, first, s, run);
  }

  // ---- An open entry is removed ---------------------------------------------------

  /** Without the premise the in-use rule is false: two removers and one builder
      of the same commit suffice. */
  lemma InUseEntryCanBeRemoved(ours: Pid -> Versions, v: Versions) returns (run: seq<Event>)
    ensures Init(OneEntry(v)) && EndsInRemoval(ours, OneEntry(v), run)
  {
    var s := OneEntry(v);
    run := Then(ours, s, [], 1, BeginRemove(Entry(0)), State(s.disk, map[1 := Removing(OpenLock, Entry(0), 0)]));
    run := Then(ours, s, run, 1, Advance, State(s.disk, map[1 := Removing(TakeExclusive, Entry(0), 0)]));
    run := BuiltAgain(ours, v, Removing(TakeExclusive, Entry(0), 0), s, run);
    run := RemovePublished(ours, v, s, run);
  }

  /** The first remover goes on with the lock of the directory that is gone. */
  lemma RemovePublished(ours: Pid -> Versions, v: Versions, s: State, start: seq<Event>) returns (run: seq<Event>)
    requires Exec(ours, s, start) == Rebuilt(v, ours(3), Removing(TakeExclusive, Entry(0), 0))
    ensures EndsInRemoval(ours, s, run)
  {
    var locked := Rebuilt(v, ours(3), Removing(RemoveDir, Entry(0), 0));
    assert ExclusiveFree(Exec(ours, s, start), 1, Entry(0), 0);
    run := Then(ours, s, start, 1, Advance, locked);
    RemovalHits(ours, locked, 1, 3, 0, 0);
    EndsHere(ours, s, run, Event(1, Advance));
    run := run + [Event(1, Advance)];
  }

  // ---- Another version's entry is returned ----------------------------------------

  /** A lookup returns an entry with another key than the one it read and checked, and
      in an undisturbed run: the directory was removed and built again, by another
      version, between the reading of the key and the opening of the lock. */
  lemma AnotherKeyIsReturned(ours: Pid -> Versions) returns (run: seq<Event>)
    requires ours(3) != ours(1)
    ensures var s := OneEntry(ours(1));
            && Init(s) && Undisturbed(ours, s, run)
            && LookupReturns(ours, Exec(ours, s, run), Event(1, Advance), 1, 0, 1)
            && InPlace(Exec(ours, s, run).disk, 0, Built(ours(3)))
  {
    var s, w := OneEntry(ours(1)), ours(3);
    run := KeyIsRead(ours, s);
    run := BuiltAgain(ours, ours(1), Looking(OpenInUse, 0, 0), s, run);
    run := OpenRebuilt(ours, s, run, w);
  }

  lemma OpenRebuilt(ours: Pid -> Versions, s: State, start: seq<Event>, w: Versions) returns (run: seq<Event>)
    requires Exec(ours, s, start) == Rebuilt(ours(1), w, Looking(OpenInUse, 0, 0)) && Undisturbed(ours, s, start)
    ensures Exec(ours, s, run) == Rebuilt(ours(1), w, Looking(CheckTree, 0, 1)) && Undisturbed(ours, s, run)
  {
    run := LookStep(ours, s, start, w, Looking(OpenInUse, 0, 0), Looking(TakeShared, 0, 1));
    run := LookStep(ours, s, run, w, Looking(TakeShared, 0, 1), Looking(Recheck, 0, 1));
    run := LookStep(ours, s, run, w, Looking(Recheck, 0, 1), Looking(CheckTree, 0, 1));
  }

  lemma KeyIsRead(ours: Pid -> Versions, s: State) returns (run: seq<Event>)
    requires s == OneEntry(ours(1))
    ensures Exec(ours, s, run) == State(s.disk, map[1 := Looking(OpenInUse, 0, 0)]) && Undisturbed(ours, s, run)
  {
    run := Then(ours, s, [], 1, BeginLookup(0), State(s.disk, map[1 := Looking(CheckProvenance, 0, 0)]));
    run := Then(ours, s, run, 1, Advance, State(s.disk, map[1 := Looking(ReadKey, 0, 0)]));
    run := Then(ours, s, run, 1, Advance, State(s.disk, map[1 := Looking(OpenInUse, 0, 0)]));
  }

  /** A call of the lookup on the directory that was built again. */
  lemma LookStep(ours: Pid -> Versions, s: State, run: seq<Event>, w: Versions, pc: Pc, next: Pc)
    returns (more: seq<Event>)
    requires pc.Looking? && Exec(ours, s, run) == Rebuilt(ours(1), w, pc) && Undisturbed(ours, s, run)
    requires Look(ours(1), Rebuilt(ours(1), w, pc), 1) == Move(Rebuilt(ours(1), w, pc).disk, next)
    ensures Exec(ours, s, more) == Rebuilt(ours(1), w, next) && Undisturbed(ours, s, more)
  {
    assert Next(ours, Rebuilt(ours(1), w, pc), 1, Advance).pcs == Rebuilt(ours(1), w, next).pcs;
    more := Then(ours, s, run, 1, Advance, Rebuilt(ours(1), w, next));
  }
}
