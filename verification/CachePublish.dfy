// Several workers publish builds of one commit at once.

/** `publish` under contention: workers of one version build and publish the same
    commit while others look up, build and publish what they like, and nobody removes. */
module CachePublish {
  import opened Wrappers
  import opened CacheKey
  import opened CacheProtocol
  import opened CacheStaging

  /** A published or publishable build that `lookup` accepts. */
  predicate Usable(dir: Dir, c: nat, v: Versions) {
    dir.home == c && dir.prov == Private && dir.key == Key(Metadata(c, v)) && dir.tree && dir.db
  }

  /** A build whose directory is in place, as far as it has come. */
  predicate StageOk(k: Disk, pc: Pc, c: nat, v: Versions)
    requires pc.Making?
  {
    && Staging(pc.dir) in k.names && pc.dir in k.dirs
    && var dir := k.dirs[pc.dir];
       && dir.home == c && dir.prov == Private
       && match pc.make
          case CreateBuilding => !dir.buildingLock && !dir.inUseLock
          case TakeBuilding => !dir.inUseLock
          case CreateInUse => !dir.inUseLock
          case TakeInUse => true
          case BuildTree => true
          case WriteKey => dir.tree && dir.db
          case CheckDestination => Usable(dir, c, v)
          case Rename => Usable(dir, c, v)
  }

  predicate MakesCommit(pc: Pc, c: nat) {
    pc.Making? && pc.commit == c
  }

  ghost predicate NobodyRemoves(s: State) {
    forall p :: !At(s, p).Removing?
  }

  /** Nobody removes, what is published under the commit is usable, and every build of
      it is of version `v` and intact. */
  ghost predicate Publishable(ours: Pid -> Versions, s: State, c: nat, v: Versions) {
    && BuildInv(s) && NobodyRemoves(s)
    && (Entry(c) in s.disk.names ==> Usable(DirNamed(s.disk, Entry(c)), c, v))
    && (forall p :: MakesCommit(At(s, p), c) ==> ours(p) == v && StageOk(s.disk, At(s, p), c, v))
  }

  /** Nothing runs yet, and the commit is absent or usable. */
  ghost predicate Fresh(s: State, c: nat, v: Versions) {
    Init(s) && (Entry(c) in s.disk.names ==> Usable(DirNamed(s.disk, Entry(c)), c, v))
  }

  /** A directory without builders of the commit is a fine place to begin. */
  lemma FreshIsPublishable(ours: Pid -> Versions, s: State, c: nat, v: Versions)
    requires Fresh(s, c, v)
    ensures Publishable(ours, s, c, v)
  {
  }

  /** No removal ever runs, and whoever begins to build the commit is of version `v`. */
  ghost predicate Peaceful(ours: Pid -> Versions, s: State, run: seq<Event>, c: nat, v: Versions)
    decreases |run|
  {
    run == [] ||
    var last := run[|run| - 1];
    && Peaceful(ours, s, run[..|run| - 1], c, v) && NobodyRemoves(Exec(ours, s, run))
    && (last.choice == BeginBuild(c) ==> ours(last.p) == v)
  }

  predicate Returned(pc: Pc) {
    pc.Looking? && pc.look == LookupAt.Returned
  }

  /** The entry `p` had returned first in the run, if any. */
  ghost function Got(ours: Pid -> Versions, s: State, run: seq<Event>, p: Pid): Option<Pc>
    decreases |run|
  {
    var before := if run == [] then None else Got(ours, s, run[..|run| - 1], p);
    if before.Some? then before
    else if Returned(At(Exec(ours, s, run), p)) then Some(At(Exec(ours, s, run), p)) else None
  }

  /** The staging directory `p` began with in the run, if it did. */
  ghost function Staged(ours: Pid -> Versions, s: State, run: seq<Event>, p: Pid): Option<DirId>
    decreases |run|
  {
    if run == [] then None else
    var before, pc := Staged(ours, s, run[..|run| - 1], p), At(Exec(ours, s, run), p);
    if before.Some? then before else if pc.Making? then Some(pc.dir) else None
  }

  /** A worker begins by staging the commit, and its calls succeed until it has its
      entry; then it may do anything. */
  ghost predicate Working(ours: Pid -> Versions, s: State, workers: set<Pid>, run: seq<Event>, c: nat)
    decreases |run|
  {
    run == [] ||
    var shorter, last := run[..|run| - 1], run[|run| - 1];
    && Working(ours, s, workers, shorter, c)
    && (last.p in workers && Got(ours, s, shorter, last.p).None? ==>
          last.choice == if Staged(ours, s, shorter, last.p).None? then BeginBuild(c) else Advance)
  }

  // ---- One step -----------------------------------------------------------------

  /** Nobody removing, a step of `p` leaves the directory of another build in place. */
  lemma OtherStageStays(ours: Pid -> Versions, s: State, p: Pid, choice: Choice, q: Pid, c: nat, v: Versions)
    requires Publishable(ours, s, c, v) && q != p && MakesCommit(At(s, q), c)
    ensures StageOk(Next(ours, s, p, choice).disk, At(s, q), c, v)
  {
    assert Apart(At(s, p), At(s, q)) && BuilderOk(s.disk, At(s, p)) && BuilderOk(s.disk, At(s, q));
    assert StageOk(s.disk, At(s, q), c, v) && !At(s, p).Removing?;
  }

  /** A build that goes on stays intact. */
  lemma OwnStageStays(ours: Pid -> Versions, s: State, p: Pid, choice: Choice, c: nat, v: Versions)
    requires Publishable(ours, s, c, v) && (choice == BeginBuild(c) ==> ours(p) == v)
    requires MakesCommit(At(Next(ours, s, p, choice), p), c)
    ensures ours(p) == v && StageOk(Next(ours, s, p, choice).disk, At(Next(ours, s, p, choice), p), c, v)
  {
    assert BuilderOk(s.disk, At(s, p));
    assert MakesCommit(At(s, p), c) ==> StageOk(s.disk, At(s, p), c, v);
  }

  /** What is published under a commit stays where it is. */
  lemma EntryStays(ours: Pid -> Versions, s: State, p: Pid, choice: Choice, c: nat)
    requires NamesOk(s.disk) && BuilderOk(s.disk, At(s, p)) && !At(s, p).Removing? && Entry(c) in s.disk.names
    ensures var t := Next(ours, s, p, choice);
            && Entry(c) in t.disk.names && t.disk.names[Entry(c)] == s.disk.names[Entry(c)]
            && DirNamed(t.disk, Entry(c)) ==
                 DirNamed(s.disk, Entry(c)).(inUseLock := DirNamed(t.disk, Entry(c)).inUseLock)
  {
    EntryNameStays(ours, s, p, choice, c);
    var d := s.disk.names[Entry(c)];
    if choice == Advance && At(s, p).Making? {
      assert At(s, p).dir != d;
    }
  }

  lemma EntryNameStays(ours: Pid -> Versions, s: State, p: Pid, choice: Choice, c: nat)
    requires !At(s, p).Removing? && Entry(c) in s.disk.names
    ensures var t := Next(ours, s, p, choice);
            Entry(c) in t.disk.names && t.disk.names[Entry(c)] == s.disk.names[Entry(c)]
  {
  }

  /** A name that appears is that of a usable build. */
  lemma EntryAppears(ours: Pid -> Versions, s: State, p: Pid, choice: Choice, c: nat, v: Versions)
    requires Publishable(ours, s, c, v)
    requires Entry(c) !in s.disk.names && Entry(c) in Next(ours, s, p, choice).disk.names
    ensures Usable(DirNamed(Next(ours, s, p, choice).disk, Entry(c)), c, v)
    ensures MakesCommit(At(s, p), c) && At(s, p).make == Rename
  {
    assert BuilderOk(s.disk, At(s, p));
    assert choice == Advance && MakesCommit(At(s, p), c) && At(s, p).make == Rename;
    assert StageOk(s.disk, At(s, p), c, v);
  }

  lemma StepIsPublishable(ours: Pid -> Versions, s: State, p: Pid, choice: Choice, c: nat, v: Versions)
    requires Publishable(ours, s, c, v) && (choice == BeginBuild(c) ==> ours(p) == v)
    requires NobodyRemoves(Next(ours, s, p, choice))
    ensures Publishable(ours, Next(ours, s, p, choice), c, v)
  {
    var t := Next(ours, s, p, choice);
    StepKeepsBuilds(ours, s, p, choice);
    assert BuilderOk(s.disk, At(s, p));
    if Entry(c) in s.disk.names {
      EntryStays(ours, s, p, choice, c);
    } else if Entry(c) in t.disk.names {
      EntryAppears(ours, s, p, choice, c, v);
    }
    forall q | MakesCommit(At(t, q), c)
      ensures ours(q) == v && StageOk(t.disk, At(t, q), c, v)
    {
      if q == p {
        OwnStageStays(ours, s, p, choice, c, v);
      } else {
        OthersUnmoved(ours, s, p, choice, q);
        OtherStageStays(ours, s, p, choice, q, c, v);
      }
    }
  }

  lemma OthersUnmoved(ours: Pid -> Versions, s: State, p: Pid, choice: Choice, q: Pid)
    requires q != p
    ensures At(Next(ours, s, p, choice), q) == At(s, q)
  {
  }

  // ---- A worker -------------------------------------------------------------------

  /** What is left of staging and publishing for a worker, in calls. */
  function Remaining(pc: Pc): nat {
    match pc
    case Making(at, _, _) =>
      (match at
       case CreateBuilding => 15
       case TakeBuilding => 14
       case CreateInUse => 13
       case TakeInUse => 12
       case BuildTree => 11
       case WriteKey => 10
       case CheckDestination => 9
       case Rename => 8)
    case Discarding(_, _, _, _) => 7
    case Looking(at, _, _) =>
      (match at
       case CheckProvenance => 6
       case ReadKey => 5
       case OpenInUse => 4
       case TakeShared => 3
       case Recheck => 2
       case CheckTree => 1
       case Returned => 0)
    case _ => 0
  }

  /** A worker that staged `d` either still has it, or an entry is in place, its
      staging directory is gone, and what it has locked is that entry. */
  predicate OnTheWay(k: Disk, pc: Pc, d: DirId, c: nat) {
    match pc
    case Making(_, e, f) => e == c && f == d
    case Discarding(e, f, _, adopt) => e == c && f == d && adopt && Entry(c) in k.names
    case Looking(at, e, f) =>
      && e == c && Entry(c) in k.names && Staging(d) !in k.names
      && (at == CheckProvenance || at == ReadKey || at == OpenInUse || f == k.names[Entry(c)])
    case _ => false
  }

  /** A worker's own call brings it closer. */
  lemma WorkerAdvances(ours: Pid -> Versions, s: State, p: Pid, d: DirId, c: nat, v: Versions)
    requires Publishable(ours, s, c, v) && ours(p) == v && OnTheWay(s.disk, At(s, p), d, c) && !Returned(At(s, p))
    ensures var t := Next(ours, s, p, Advance);
            OnTheWay(t.disk, At(t, p), d, c) && Remaining(At(t, p)) < Remaining(At(s, p))
  {
    assert BuilderOk(s.disk, At(s, p));
    match At(s, p)
    case Making(_, _, _) => BuilderAdvances(ours, s, p, c, v);
    case Discarding(_, _, _, _) =>
    case Looking(_, _, _) => LookerAdvances(ours, s, p, c, v);
  }

  lemma BuilderAdvances(ours: Pid -> Versions, s: State, p: Pid, c: nat, v: Versions)
    requires Publishable(ours, s, c, v) && MakesCommit(At(s, p), c)
    ensures var t := Next(ours, s, p, Advance);
            OnTheWay(t.disk, At(t, p), At(s, p).dir, c) && Remaining(At(t, p)) < Remaining(At(s, p))
  {
    assert StageOk(s.disk, At(s, p), c, v) && BuilderOk(s.disk, At(s, p));
    assert At(s, p).make == TakeBuilding ==> ExclusiveFree(s, p, Staging(At(s, p).dir), At(s, p).dir) by {
      forall q | q != p
        ensures !ExcludesBuilding(At(s, q), At(s, p).dir)
      {
        assert Apart(At(s, p), At(s, q)) && !At(s, q).Removing?;
      }
    }
    assert SharedFree(s, p, At(s, p).dir);
  }

  lemma LookerAdvances(ours: Pid -> Versions, s: State, p: Pid, c: nat, v: Versions)
    requires Publishable(ours, s, c, v) && ours(p) == v && At(s, p).Looking? && !Returned(At(s, p))
    requires At(s, p).commit == c && Entry(c) in s.disk.names
    ensures var t := Next(ours, s, p, Advance);
            && t.disk.names == s.disk.names && At(t, p).Looking? && At(t, p).commit == c
            && Remaining(At(t, p)) < Remaining(At(s, p))
            && (At(s, p).look == OpenInUse ==> At(t, p).dir == s.disk.names[Entry(c)])
            && (At(s, p).look in {TakeShared, Recheck, CheckTree} ==> At(t, p).dir == At(s, p).dir)
            && (At(t, p).look in {CheckProvenance, ReadKey, OpenInUse} <==> At(s, p).look in {CheckProvenance, ReadKey})
  {
    assert SharedFree(s, p, At(s, p).dir);
  }

  /** A step of another process leaves a worker on its way. */
  lemma WorkerStays(ours: Pid -> Versions, s: State, p: Pid, choice: Choice, q: Pid, d: DirId, c: nat)
    requires BuildInv(s) && NobodyRemoves(s) && q != p && OnTheWay(s.disk, At(s, q), d, c) && d < s.disk.nextDir
    ensures OnTheWay(Next(ours, s, p, choice).disk, At(s, q), d, c)
  {
    assert BuilderOk(s.disk, At(s, p)) && !At(s, p).Removing?;
    if Entry(c) in s.disk.names {
      EntryStays(ours, s, p, choice, c);
    }
    if Staging(d) !in s.disk.names {
      GoneStaysGone(ours, s, p, choice, d);
    }
  }

  /** The name of a staging directory is never taken again. */
  lemma GoneStaysGone(ours: Pid -> Versions, s: State, p: Pid, choice: Choice, d: DirId)
    requires d < s.disk.nextDir && Staging(d) !in s.disk.names
    ensures Staging(d) !in Next(ours, s, p, choice).disk.names && d < Next(ours, s, p, choice).disk.nextDir
  {
  }

  // ---- Every run --------------------------------------------------------------------

  function CallsOf(run: seq<Event>, p: Pid): nat {
    if run == [] then 0 else CallsOf(run[..|run| - 1], p) + if run[|run| - 1].p == p then 1 else 0
  }

  /** How many steps of the run put the commit's directory in place. */
  ghost function Renames(ours: Pid -> Versions, s: State, run: seq<Event>, c: nat): nat {
    if run == [] then 0 else
    var k := |run| - 1;
    Renames(ours, s, run[..k], c) +
    if Entry(c) !in Exec(ours, s, run[..k]).disk.names && Entry(c) in Exec(ours, s, run).disk.names then 1 else 0
  }

  /** The entry in place is the one `p` got, and its own staging directory is gone. */
  ghost predicate Served(ours: Pid -> Versions, s: State, run: seq<Event>, p: Pid, d: DirId, c: nat) {
    var k := Exec(ours, s, run).disk;
    && Entry(c) in k.names && Staging(d) !in k.names
    && Got(ours, s, run, p) == Some(Looking(LookupAt.Returned, c, k.names[Entry(c)]))
  }

  /** A worker that staged `d`: on its way, or served. */
  ghost predicate Underway(ours: Pid -> Versions, s: State, run: seq<Event>, p: Pid, d: DirId, c: nat) {
    var t := Exec(ours, s, run);
    && d < t.disk.nextDir
    && (if Got(ours, s, run, p).Some? then Served(ours, s, run, p, d, c)
        else OnTheWay(t.disk, At(t, p), d, c) && CallsOf(run, p) + Remaining(At(t, p)) <= WORKER_CALLS)
  }

  /** The calls of a worker that loses the race at the last moment. */
  const WORKER_CALLS := 16

  /** A worker: not begun yet, or underway with what it staged. */
  ghost predicate ForWorker(ours: Pid -> Versions, s: State, run: seq<Event>, p: Pid, c: nat, v: Versions) {
    match Staged(ours, s, run, p)
    case None => At(Exec(ours, s, run), p).Idle? && Got(ours, s, run, p).None? && CallsOf(run, p) == 0
    case Some(d) => ours(p) == v && Underway(ours, s, run, p, d, c)
  }

  /** Who was served before a step still is. */
  lemma ServedStays(ours: Pid -> Versions, s: State, run: seq<Event>, p: Pid, d: DirId, c: nat)
    requires run != []
    requires var shorter := run[..|run| - 1];
             && BuildInv(Exec(ours, s, shorter)) && NobodyRemoves(Exec(ours, s, shorter))
             && Got(ours, s, shorter, p).Some? && Underway(ours, s, shorter, p, d, c)
    ensures Underway(ours, s, run, p, d, c)
  {
    var before, e := Exec(ours, s, run[..|run| - 1]), run[|run| - 1];
    assert BuilderOk(before.disk, At(before, e.p)) && !At(before, e.p).Removing?;
    EntryStays(ours, before, e.p, e.choice, c);
    GoneStaysGone(ours, before, e.p, e.choice, d);
  }

  /** Who has no entry yet is not at its return. */
  lemma NotYet(ours: Pid -> Versions, s: State, run: seq<Event>, p: Pid)
    requires Got(ours, s, run, p).None?
    ensures !Returned(At(Exec(ours, s, run), p))
  {
  }

  /** The moving worker is on its way or served. */
  lemma OwnStep(ours: Pid -> Versions, s: State, run: seq<Event>, p: Pid, d: DirId, c: nat, v: Versions)
    requires run != [] && run[|run| - 1] == Event(p, Advance) && ours(p) == v
    requires var shorter := run[..|run| - 1];
             && Publishable(ours, Exec(ours, s, shorter), c, v)
             && Got(ours, s, shorter, p).None? && Underway(ours, s, shorter, p, d, c)
    ensures Underway(ours, s, run, p, d, c)
  {
    var before := Exec(ours, s, run[..|run| - 1]);
    NotYet(ours, s, run[..|run| - 1], p);
    WorkerAdvances(ours, before, p, d, c, v);
    NextDirGrows(ours, before, p, Advance);
  }

  lemma NextDirGrows(ours: Pid -> Versions, s: State, p: Pid, choice: Choice)
    ensures s.disk.nextDir <= Next(ours, s, p, choice).disk.nextDir
  {
  }

  /** A worker that does not move stays as it is. */
  lemma OtherStep(ours: Pid -> Versions, s: State, run: seq<Event>, p: Pid, d: DirId, c: nat)
    requires run != [] && run[|run| - 1].p != p
    requires var shorter := run[..|run| - 1];
             && BuildInv(Exec(ours, s, shorter)) && NobodyRemoves(Exec(ours, s, shorter))
             && Got(ours, s, shorter, p).None? && Underway(ours, s, shorter, p, d, c)
    ensures Underway(ours, s, run, p, d, c)
  {
    var before, e := Exec(ours, s, run[..|run| - 1]), run[|run| - 1];
    NotYet(ours, s, run[..|run| - 1], p);
    OthersUnmoved(ours, before, e.p, e.choice, p);
    WorkerStays(ours, before, e.p, e.choice, p, d, c);
    NextDirGrows(ours, before, e.p, e.choice);
  }

  /** A worker that has begun goes on or stays as it is. */
  lemma UnderwayStep(ours: Pid -> Versions, s: State, run: seq<Event>, p: Pid, d: DirId, c: nat, v: Versions)
    requires run != [] && ours(p) == v
    requires run[|run| - 1].p == p && Got(ours, s, run[..|run| - 1], p).None? ==> run[|run| - 1].choice == Advance
    requires Publishable(ours, Exec(ours, s, run[..|run| - 1]), c, v) && Underway(ours, s, run[..|run| - 1], p, d, c)
    ensures Underway(ours, s, run, p, d, c)
  {
    var k := |run| - 1;
    if Got(ours, s, run[..k], p).Some? {
      ServedStays(ours, s, run, p, d, c);
    } else if run[k].p == p {
      OwnStep(ours, s, run, p, d, c, v);
    } else {
      OtherStep(ours, s, run, p, d, c);
    }
  }

  /** A worker begins. */
  lemma FirstStep(ours: Pid -> Versions, s: State, run: seq<Event>, p: Pid, c: nat, v: Versions)
    requires run != [] && run[|run| - 1] == Event(p, BeginBuild(c)) && ours(p) == v
    requires Staged(ours, s, run[..|run| - 1], p).None? && ForWorker(ours, s, run[..|run| - 1], p, c, v)
    ensures ForWorker(ours, s, run, p, c, v)
  {
    var before := Exec(ours, s, run[..|run| - 1]);
    assert At(CreateStaging(before, p, c), p) == Making(CreateBuilding, c, before.disk.nextDir);
  }

  /** A worker that has not begun is left alone. */
  lemma NotBegun(ours: Pid -> Versions, s: State, run: seq<Event>, p: Pid, c: nat, v: Versions)
    requires run != [] && run[|run| - 1].p != p
    requires Staged(ours, s, run[..|run| - 1], p).None? && ForWorker(ours, s, run[..|run| - 1], p, c, v)
    ensures ForWorker(ours, s, run, p, c, v)
  {
    OthersUnmoved(ours, Exec(ours, s, run[..|run| - 1]), run[|run| - 1].p, run[|run| - 1].choice, p);
  }

  lemma WorkerStep(ours: Pid -> Versions, s: State, workers: set<Pid>, run: seq<Event>, p: Pid, c: nat, v: Versions)
    requires run != [] && p in workers
    requires Peaceful(ours, s, run, c, v) && Working(ours, s, workers, run, c)
    requires Publishable(ours, Exec(ours, s, run[..|run| - 1]), c, v)
    requires ForWorker(ours, s, run[..|run| - 1], p, c, v)
    ensures ForWorker(ours, s, run, p, c, v)
  {
    var shorter := run[..|run| - 1];
    match Staged(ours, s, shorter, p)
    case None =>
      if run[|run| - 1].p == p {
        FirstStep(ours, s, run, p, c, v);
      } else {
        NotBegun(ours, s, run, p, c, v);
      }
    case Some(d) => UnderwayStep(ours, s, run, p, d, c, v);
  }

  /** The workers in the middle of a run, and the commit's directory. */
  ghost predicate Midway(ours: Pid -> Versions, s: State, workers: set<Pid>, run: seq<Event>, c: nat, v: Versions) {
    && Publishable(ours, Exec(ours, s, run), c, v)
    && (forall p :: p in workers ==> ForWorker(ours, s, run, p, c, v))
    && (Entry(c) in s.disk.names ==> Entry(c) in Exec(ours, s, run).disk.names)
    && Renames(ours, s, run, c) ==
       if Entry(c) in Exec(ours, s, run).disk.names && Entry(c) !in s.disk.names then 1 else 0
  }

  lemma OnceMore(ours: Pid -> Versions, s: State, workers: set<Pid>, run: seq<Event>, c: nat, v: Versions)
    requires run != [] && Peaceful(ours, s, run, c, v) && Working(ours, s, workers, run, c)
    requires Midway(ours, s, workers, run[..|run| - 1], c, v)
    ensures Midway(ours, s, workers, run, c, v)
  {
    var before, e := Exec(ours, s, run[..|run| - 1]), run[|run| - 1];
    StepIsPublishable(ours, before, e.p, e.choice, c, v);
    assert BuilderOk(before.disk, At(before, e.p));
    if Entry(c) in before.disk.names {
      EntryStays(ours, before, e.p, e.choice, c);
    }
    forall p | p in workers
      ensures ForWorker(ours, s, run, p, c, v)
    {
      WorkerStep(ours, s, workers, run, p, c, v);
    }
  }

  lemma {:induction false} AnyInterleaving(ours: Pid -> Versions, s: State, workers: set<Pid>, run: seq<Event>, c: nat,
                                           v: Versions)
    requires Fresh(s, c, v) && Peaceful(ours, s, run, c, v) && Working(ours, s, workers, run, c)
    ensures Midway(ours, s, workers, run, c, v)
    decreases |run|
  {
    if run == [] {
      FreshIsPublishable(ours, s, c, v);
    } else {
      AnyInterleaving(ours, s, workers, run[..|run| - 1], c, v);
      OnceMore(ours, s, workers, run, c, v);
    }
  }

  /** From any directory in which nothing runs yet, any number of workers of one version
      begin, build and publish one commit, in any interleaving with lookups, builds and
      publications of anybody and with no removal: the commit's directory is put in place
      at most once, by exactly one rename if it was not there; every worker gets an entry
      rooted at that one directory with at most sixteen calls, and its staging directory
      is gone. */
  lemma OnePublishes(ours: Pid -> Versions, s: State, workers: set<Pid>, run: seq<Event>, c: nat, v: Versions)
    requires Fresh(s, c, v) && Peaceful(ours, s, run, c, v) && Working(ours, s, workers, run, c)
    ensures Publishable(ours, Exec(ours, s, run), c, v)
    ensures Renames(ours, s, run, c) <= 1 && (Entry(c) in s.disk.names ==> Renames(ours, s, run, c) == 0)
    ensures forall p :: p in workers && Got(ours, s, run, p).Some? ==>
              && Staged(ours, s, run, p).Some? && Served(ours, s, run, p, Staged(ours, s, run, p).value, c)
              && (Entry(c) !in s.disk.names ==> Renames(ours, s, run, c) == 1)
    ensures forall p :: p in workers && CallsOf(run, p) >= WORKER_CALLS ==> Got(ours, s, run, p).Some?
  {
    AnyInterleaving(ours, s, workers, run, c, v);
    forall p | p in workers && CallsOf(run, p) >= WORKER_CALLS
      ensures Got(ours, s, run, p).Some?
    {
      if Got(ours, s, run, p).None? {
        NotYet(ours, s, run, p);
        assert ForWorker(ours, s, run, p, c, v);
        ArrivedIsReturned(Exec(ours, s, run).disk, At(Exec(ours, s, run), p), Staged(ours, s, run, p).value, c);
      }
    }
  }

  lemma ArrivedIsReturned(k: Disk, pc: Pc, d: DirId, c: nat)
    requires OnTheWay(k, pc, d, c) && Remaining(pc) == 0
    ensures Returned(pc)
  {
  }
}
