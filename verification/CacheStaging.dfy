// Staging directories in every run of the snapshot cache.

/** What holds of builds in every run, also when commit directories are recreated
    while other processes rely on an old lock. */
module CacheStaging {
  import opened CacheKey
  import opened CacheProtocol

  ghost predicate BuildInv(s: State) {
    && NamesOk(s.disk)
    && (forall p :: BuilderOk(s.disk, At(s, p)))
    && (forall p, q :: p != q ==> Apart(At(s, p), At(s, q)))
  }

  /** The invariant as far as `p` and another process `q` are concerned. */
  ghost predicate BothOk(s: State, p: Pid, q: Pid) {
    && p != q && NamesOk(s.disk) && BuilderOk(s.disk, At(s, p)) && BuilderOk(s.disk, At(s, q))
    && Apart(At(s, p), At(s, q)) && Apart(At(s, q), At(s, p))
  }

  /** A move that leaves every name in place and its caller consistent. */
  ghost predicate Calm(k: Disk, m: Move, own: DirId) {
    && m.disk.names == k.names && m.disk.nextDir == k.nextDir
    && Evolved(k.dirs, m.disk.dirs, own) && BuilderOk(m.disk, m.pc)
  }

  lemma CalmKeeps(s: State, p: Pid, q: Pid, m: Move, own: DirId)
    requires BothOk(s, p, q) && Calm(s.disk, m, own)
    requires OwnsStaging(At(s, q)) ==> own != At(s, q).dir
    requires Apart(m.pc, At(s, q)) && Apart(At(s, q), m.pc)
    ensures BothOk(Apply(s, p, m), p, q) && At(Apply(s, p, m), q) == At(s, q)
  {
  }

  lemma StayIsCalm(k: Disk, pc: Pc, own: DirId)
    requires BuilderOk(k, pc)
    ensures Calm(k, Move(k, pc), own)
  {
  }

  lemma LookIsCalm(v: Versions, s: State, p: Pid, q: Pid)
    requires BothOk(s, p, q) && At(s, p).Looking?
    ensures Calm(s.disk, Look(v, s, p), s.disk.nextDir)
    ensures Apart(Look(v, s, p).pc, At(s, q)) && Apart(At(s, q), Look(v, s, p).pc)
  {
    if At(s, p).look != OpenInUse {
      StayIsCalm(s.disk, Look(v, s, p).pc, s.disk.nextDir);
    }
  }

  lemma RemoveKeepsBuilds(s: State, p: Pid, q: Pid)
    requires BothOk(s, p, q) && At(s, p).Removing?
    ensures BothOk(Apply(s, p, Remove(s, p)), p, q) && At(Apply(s, p, Remove(s, p)), q) == At(s, q)
  {
    if At(s, p).rem != RemoveDir {
      CalmKeeps(s, p, q, Remove(s, p), s.disk.nextDir);
    }
  }

  lemma MakeIsCalm(v: Versions, s: State, p: Pid)
    requires NamesOk(s.disk) && At(s, p).Making? && At(s, p).make != Rename && BuilderOk(s.disk, At(s, p))
    ensures Calm(s.disk, Make(v, s, p), At(s, p).dir)
  {
    var m, d := Make(v, s, p), At(s, p).dir;
    if m.disk == s.disk {
      StayIsCalm(s.disk, m.pc, d);
    } else {
      assert m.disk == WithDir(s.disk, d, m.disk.dirs[d]) && m.pc.Making?;
      WriteIsCalm(s.disk, d, m.disk.dirs[d], m.pc);
    }
  }

  lemma WriteIsCalm(k: Disk, d: DirId, dir: Dir, pc: Pc)
    requires d in k.dirs && dir.home == k.dirs[d].home && BuilderOk(WithDir(k, d, dir), pc)
    ensures Calm(k, Move(WithDir(k, d, dir), pc), d)
  {
  }

  lemma RenameKeepsBuilds(v: Versions, s: State, p: Pid, q: Pid)
    requires BothOk(s, p, q) && At(s, p).Making? && At(s, p).make == Rename
    ensures BothOk(Apply(s, p, Make(v, s, p)), p, q) && At(Apply(s, p, Make(v, s, p)), q) == At(s, q)
  {
  }

  lemma MakeKeepsBuilds(v: Versions, s: State, p: Pid, q: Pid)
    requires BothOk(s, p, q) && At(s, p).Making?
    ensures BothOk(Apply(s, p, Make(v, s, p)), p, q) && At(Apply(s, p, Make(v, s, p)), q) == At(s, q)
  {
    if At(s, p).make == Rename {
      RenameKeepsBuilds(v, s, p, q);
    } else {
      MakeIsCalm(v, s, p);
      CalmKeeps(s, p, q, Make(v, s, p), At(s, p).dir);
    }
  }

  lemma AdvanceKeepsBuilds(v: Versions, s: State, p: Pid, q: Pid)
    requires BothOk(s, p, q)
    ensures BothOk(Apply(s, p, Advanced(v, s, p)), p, q) && At(Apply(s, p, Advanced(v, s, p)), q) == At(s, q)
  {
    match At(s, p)
    case Looking(_, _, _) =>
      LookIsCalm(v, s, p, q);
      CalmKeeps(s, p, q, Look(v, s, p), s.disk.nextDir);
    case Removing(_, _, _) => RemoveKeepsBuilds(s, p, q);
    case Making(_, _, _) => MakeKeepsBuilds(v, s, p, q);
    case _ =>
  }

  lemma CreateKeepsBuilds(s: State, p: Pid, q: Pid, c: nat)
    requires BothOk(s, p, q) && At(s, p).Idle?
    ensures BothOk(CreateStaging(s, p, c), p, q) && At(CreateStaging(s, p, c), q) == At(s, q)
  {
  }

  lemma StepKeepsBoth(ours: Pid -> Versions, s: State, p: Pid, choice: Choice, q: Pid)
    requires BothOk(s, p, q)
    ensures BothOk(Next(ours, s, p, choice), p, q) && At(Next(ours, s, p, choice), q) == At(s, q)
  {
    match choice
    case Advance => AdvanceKeepsBuilds(ours(p), s, p, q);
    case Fail =>
      var pc := if At(s, p).Making? then Abandon(At(s, p), false) else Idle;
      CalmKeeps(s, p, q, Move(s.disk, pc), s.disk.nextDir);
    case Crash => CalmKeeps(s, p, q, Move(s.disk, Idle), s.disk.nextDir);
    case BeginLookup(c) => CalmKeeps(s, p, q, Move(s.disk, Looking(CheckProvenance, c, 0)), s.disk.nextDir);
    case BeginRemove(n) => CalmKeeps(s, p, q, Move(s.disk, Removing(OpenLock, n, 0)), s.disk.nextDir);
    case BeginBuild(c) => if At(s, p).Idle? { CreateKeepsBuilds(s, p, q, c); }
  }

  lemma StepKeepsBuilds(ours: Pid -> Versions, s: State, p: Pid, choice: Choice)
    requires BuildInv(s)
    ensures BuildInv(Next(ours, s, p, choice))
  {
    var t := Next(ours, s, p, choice);
    forall q | q != p
      ensures BothOk(t, p, q) && At(t, q) == At(s, q)
    {
      StepKeepsBoth(ours, s, p, choice, q);
    }
    assert BothOk(t, p, p + 1);
  }

  /** Every run, whatever is recreated when. */
  lemma {:induction false} EveryRunKeepsBuilds(ours: Pid -> Versions, s: State, run: seq<Event>)
    requires Init(s)
    ensures BuildInv(Exec(ours, s, run))
    decreases |run|
  {
    if run != [] {
      EveryRunKeepsBuilds(ours, s, run[..|run| - 1]);
      StepKeepsBuilds(ours, Exec(ours, s, run[..|run| - 1]), run[|run| - 1].p, run[|run| - 1].choice);
    }
  }

  /** The step of `p` from `s` to `t` removes the staging directory of another process
      that holds its builder lock. */
  ghost predicate RemovesBuild(s: State, p: Pid, t: State) {
    exists d, q ::
      q != p && Staging(d) in s.disk.names && Staging(d) !in t.disk.names && Builds(At(s, q), d)
  }

  /** A half-built tree is never visible: in every run, whatever newly appears under a
      commit's name is a complete build of that commit. */
  lemma OnlyCompleteBuildsAppear(ours: Pid -> Versions, s: State, run: seq<Event>, k: nat, commit: nat)
    requires Init(s) && k < |run|
    requires var after := Exec(ours, s, run[..k + 1]).disk;
             Entry(commit) in after.names && Entry(commit) !in Exec(ours, s, run[..k]).disk.names
    ensures var after := Exec(ours, s, run[..k + 1]).disk;
            && after.names[Entry(commit)] in after.dirs
            && Complete(after.dirs[after.names[Entry(commit)]], commit)
  {
    EveryRunKeepsBuilds(ours, s, run[..k]);
    assert run[..k + 1][..k] == run[..k];
    NamesGained(ours, Exec(ours, s, run[..k]), run[k].p, run[k].choice, commit);
  }

  /** In every run no step removes a staging directory under another process that
      holds its builder lock. */
  lemma NoBuildIsRemoved(ours: Pid -> Versions, s: State, run: seq<Event>, k: nat)
    requires Init(s) && k < |run|
    ensures !RemovesBuild(Exec(ours, s, run[..k]), run[k].p, Exec(ours, s, run[..k + 1]))
  {
    EveryRunKeepsBuilds(ours, s, run[..k]);
    assert run[..k + 1][..k] == run[..k];
    var before, after := Exec(ours, s, run[..k]), Exec(ours, s, run[..k + 1]);
    var p := run[k].p;
    forall d, q | q != p && Staging(d) in before.disk.names && Staging(d) !in after.disk.names
      ensures !Builds(At(before, q), d)
    {
      NamesLost(ours, before, p, run[k].choice, Staging(d));
      assert BuilderOk(before.disk, At(before, p)) && BuilderOk(before.disk, At(before, q));
      assert Apart(At(before, p), At(before, q));
    }
  }

  // ---- The locks of a build -----------------------------------------------------

  /** A build holds its builder lock from taking it on, and its in-use lock shared from
      taking that on: while it builds, writes its key and publishes. */
  lemma BuildHoldsLocks(pc: Pc)
    requires pc.Making?
    ensures Builds(pc, pc.dir) <==> pc.make in {CreateInUse, TakeInUse, BuildTree, WriteKey, CheckDestination, Rename}
    ensures Shares(pc, pc.dir) <==> pc.make in {BuildTree, WriteKey, CheckDestination, Rename}
  {
  }

  /** A build that fails or is dropped keeps the locks it has until its directory is gone. */
  lemma AbandonedKeepsLocks(pc: Pc, adopt: bool)
    requires pc.Making?
    ensures Builds(Abandon(pc, adopt), pc.dir) == Builds(pc, pc.dir)
    ensures Shares(Abandon(pc, adopt), pc.dir) == Shares(pc, pc.dir)
  {
  }

  /** A lock file that is there stays as long as its directory, and opening a lock to remove
      an entry or a staging directory leaves one there. */
  lemma LockFilesStay(ours: Pid -> Versions, s: State, p: Pid, choice: Choice, d: DirId)
    requires NamesOk(s.disk) && BuilderOk(s.disk, At(s, p)) && d in s.disk.dirs
    ensures var t := Next(ours, s, p, choice);
            && d in t.disk.dirs
            && (s.disk.dirs[d].inUseLock ==> t.disk.dirs[d].inUseLock)
            && (s.disk.dirs[d].buildingLock ==> t.disk.dirs[d].buildingLock)
    ensures var t := Next(ours, s, p, choice);
            At(t, p).Removing? && At(t, p).rem == TakeExclusive && choice == Advance ==>
              var dir := DirNamed(t.disk, At(t, p).name);
              if At(t, p).name.Entry? then dir.inUseLock else dir.buildingLock
  {
    if choice == Advance {
      match At(s, p)
      case Looking(_, _, _) => LookKeepsLockFiles(ours(p), s, p, d);
      case Making(_, _, _) => MakeKeepsLockFiles(ours(p), s, p, d);
      case _ =>
    }
  }

  lemma LookKeepsLockFiles(v: Versions, s: State, p: Pid, d: DirId)
    requires NamesOk(s.disk) && At(s, p).Looking? && d in s.disk.dirs
    ensures var k := Look(v, s, p).disk;
            && d in k.dirs && (s.disk.dirs[d].inUseLock ==> k.dirs[d].inUseLock)
            && (s.disk.dirs[d].buildingLock ==> k.dirs[d].buildingLock)
  {
  }

  lemma MakeKeepsLockFiles(v: Versions, s: State, p: Pid, d: DirId)
    requires NamesOk(s.disk) && At(s, p).Making? && BuilderOk(s.disk, At(s, p)) && d in s.disk.dirs
    ensures var k := Make(v, s, p).disk;
            && d in k.dirs && (s.disk.dirs[d].inUseLock ==> k.dirs[d].inUseLock)
            && (s.disk.dirs[d].buildingLock ==> k.dirs[d].buildingLock)
  {
  }

  /** Whatever newly appears under a commit's name was built by the process that publishes
      it, which holds both its locks before, and goes on sharing it, open, right after. */
  lemma AppearsLocked(ours: Pid -> Versions, s: State, run: seq<Event>, k: nat, commit: nat)
    requires Init(s) && k < |run|
    requires var after := Exec(ours, s, run[..k + 1]).disk;
             Entry(commit) in after.names && Entry(commit) !in Exec(ours, s, run[..k]).disk.names
    ensures var before, after := Exec(ours, s, run[..k]), Exec(ours, s, run[..k + 1]);
            var p, d := run[k].p, after.disk.names[Entry(commit)];
            && Builds(At(before, p), d) && Shares(At(before, p), d)
            && Shares(At(after, p), d) && HasOpen(At(after, p), commit)
            && d in before.disk.dirs && before.disk.dirs[d].key == Key(Metadata(commit, ours(p)))
  {
    EveryRunKeepsBuilds(ours, s, run[..k]);
    assert run[..k + 1][..k] == run[..k];
    var before := Exec(ours, s, run[..k]);
    KeyIsOwn(ours, s, run[..k], run[k].p);
    RenameIsLocked(ours, before, run[k].p, run[k].choice, commit);
  }

  lemma RenameIsLocked(ours: Pid -> Versions, s: State, p: Pid, choice: Choice, commit: nat)
    requires Entry(commit) !in s.disk.names && Entry(commit) in Next(ours, s, p, choice).disk.names
    ensures var t := Next(ours, s, p, choice);
            var d := t.disk.names[Entry(commit)];
            && At(s, p) == Making(Rename, commit, d) && At(t, p) == Looking(Returned, commit, d)
  {
    assert choice == Advance && At(s, p).Making? && At(s, p).make == Rename;
  }

  /** A build that is about to be published holds the key of its own binary. */
  lemma {:induction false} KeyIsOwn(ours: Pid -> Versions, s: State, run: seq<Event>, p: Pid)
    requires Init(s)
    ensures var t := Exec(ours, s, run);
            var pc := At(t, p);
            pc.Making? && (pc.make == CheckDestination || pc.make == Rename) ==>
              pc.dir in t.disk.dirs && t.disk.dirs[pc.dir].key == Key(Metadata(pc.commit, ours(p)))
    decreases |run|
  {
    if run != [] {
      var n := |run| - 1;
      KeyIsOwn(ours, s, run[..n], p);
      EveryRunKeepsBuilds(ours, s, run[..n]);
      KeyStaysOwn(ours, Exec(ours, s, run[..n]), run[n].p, run[n].choice, p);
    }
  }

  ghost predicate HasOwnKey(ours: Pid -> Versions, s: State, p: Pid) {
    var pc := At(s, p);
    pc.Making? && (pc.make == CheckDestination || pc.make == Rename) ==>
      pc.dir in s.disk.dirs && s.disk.dirs[pc.dir].key == Key(Metadata(pc.commit, ours(p)))
  }

  lemma KeyStaysOwn(ours: Pid -> Versions, s: State, q: Pid, choice: Choice, p: Pid)
    requires BuildInv(s) && HasOwnKey(ours, s, p)
    ensures HasOwnKey(ours, Next(ours, s, q, choice), p)
  {
    assert BuilderOk(s.disk, At(s, p)) && BuilderOk(s.disk, At(s, q));
    if q != p && OwnsStaging(At(s, p)) {
      assert Apart(At(s, q), At(s, p));
      OtherKeyStays(ours, s, q, choice, At(s, p));
    }
  }

  /** A process writes the key of no other's staging directory. */
  lemma OtherKeyStays(ours: Pid -> Versions, s: State, q: Pid, choice: Choice, pc: Pc)
    requires OwnsStaging(pc) && pc.dir in s.disk.dirs && pc.dir < s.disk.nextDir && Apart(At(s, q), pc)
    ensures var t := Next(ours, s, q, choice);
            pc.dir in t.disk.dirs && t.disk.dirs[pc.dir].key == s.disk.dirs[pc.dir].key
  {
  }

  /** What the last calls of a build decide: it takes over what is already published, and
      gives up without an entry on any other failure. */
  lemma MakeDecides(ours: Pid -> Versions, s: State, p: Pid)
    requires At(s, p).Making?
    ensures var pc, next := At(s, p), At(Next(ours, s, p, Advance), p);
            && (next.Discarding? && next.adopt <==>
                  pc.make in {CheckDestination, Rename} && Entry(pc.commit) in s.disk.names)
            && (next.Discarding? ==> next.commit == pc.commit && next.dir == pc.dir)
            && (next.Looking? <==>
                  && pc.make == Rename && Entry(pc.commit) !in s.disk.names && Staging(pc.dir) in s.disk.names)
            && (next.Making? || next.Discarding? || next == Looking(Returned, pc.commit, pc.dir))
    ensures var failed := At(Next(ours, s, p, Fail), p); failed.Discarding? && !failed.adopt
  {
  }
}
