// The snapshot cache as several processes share it: staging, publishing by
// rename, lookups under a shared lock, and removal under an exclusive lock.

/** One directory of entries, acted on one file-system call at a time.

    A lock file is created at most once in a directory and disappears with it, so
    the lock inode is named by its directory's identity: a handle on the lock of
    directory `d` stays a handle on that lock after `d` was removed and another
    directory took its name. */
module CacheProtocol {
  import opened CacheKey

  /** One lookup, build, removal or open entry; every file handle belongs to one. */
  type Pid = nat
  /** Identity of a directory, never reused. */
  type DirId = nat

  datatype Name = Entry(commit: nat) | Staging(of: DirId)

  /** What `entry.json` is: missing, present but unparsable, or a key. */
  datatype KeyFile = NoKey | BadKey | Key(meta: Metadata)

  /** `home` is the commit the directory was made for. */
  datatype Dir = Dir(home: nat, prov: Provenance, key: KeyFile, tree: bool, db: bool, inUseLock: bool,
                     buildingLock: bool)

  /** The next call of `lookup`. `dir` means nothing before the lock was opened. */
  datatype LookupAt = CheckProvenance | ReadKey | OpenInUse | TakeShared | Recheck | CheckTree | Returned

  /** The next call of `remove_if_unlocked`. */
  datatype RemoveAt = OpenLock | TakeExclusive | RemoveDir

  /** The next call of `stage`, the build, and `publish`. */
  datatype MakeAt =
    | CreateBuilding | TakeBuilding | CreateInUse | TakeInUse | BuildTree | WriteKey | CheckDestination | Rename

  datatype Held = Nothing | BuildingOnly | Both

  datatype Pc =
    | Idle
    | Looking(look: LookupAt, commit: nat, dir: DirId)
    | Removing(rem: RemoveAt, name: Name, dir: DirId)
    | Making(make: MakeAt, commit: nat, dir: DirId)
      // Drop of a staged entry: its directory is removed while its locks are held.
    | Discarding(commit: nat, dir: DirId, held: Held, adopt: bool)

  datatype Disk = Disk(names: map<Name, DirId>, dirs: map<DirId, Dir>, nextDir: DirId)

  datatype State = State(disk: Disk, pcs: map<Pid, Pc>)

  function At(s: State, p: Pid): Pc {
    if p in s.pcs then s.pcs[p] else Idle
  }

  // Locks follow the program counters: a handle that was granted a lock keeps it
  // until its operation ends.

  function HeldWhile(make: MakeAt): Held {
    match make
    case CreateBuilding => Nothing
    case TakeBuilding => Nothing
    case CreateInUse => BuildingOnly
    case TakeInUse => BuildingOnly
    case _ => Both
  }

  /** Holds the in-use lock of `d` shared. */
  predicate Shares(pc: Pc, d: DirId) {
    !pc.Idle? && pc.dir == d &&
    match pc
    case Looking(at, _, _) => at == Recheck || at == CheckTree || at == Returned
    case Making(at, _, _) => HeldWhile(at) == Both
    case Discarding(_, _, held, _) => held == Both
    case _ => false
  }

  /** Holds the in-use lock of `d` exclusively. */
  predicate ExcludesInUse(pc: Pc, d: DirId) {
    pc.Removing? && pc.rem == RemoveDir && pc.name.Entry? && pc.dir == d
  }

  /** Holds the builder lock of its own staging directory `d`. */
  predicate Builds(pc: Pc, d: DirId) {
    !pc.Idle? && pc.dir == d &&
    match pc
    case Making(at, _, _) => HeldWhile(at) != Nothing
    case Discarding(_, _, held, _) => held != Nothing
    case _ => false
  }

  /** Holds the builder lock of `d`, as its builder or to remove it. */
  predicate ExcludesBuilding(pc: Pc, d: DirId) {
    Builds(pc, d) || (pc.Removing? && pc.rem == RemoveDir && pc.name.Staging? && pc.dir == d)
  }

  ghost predicate SharedFree(s: State, p: Pid, d: DirId) {
    forall q :: q != p ==> !ExcludesInUse(At(s, q), d)
  }

  ghost predicate ExclusiveFree(s: State, p: Pid, name: Name, d: DirId) {
    forall q :: q != p ==>
      if name.Entry? then !ExcludesInUse(At(s, q), d) && !Shares(At(s, q), d) else !ExcludesBuilding(At(s, q), d)
  }

  /** What an operation does next: its next call, an I/O failure, or a crash; or
      what an idle process starts. `BeginRemove` is any removal `clean` decides on. */
  datatype Choice = Advance | Fail | Crash | BeginLookup(sha: nat) | BeginRemove(target: Name) | BeginBuild(sha: nat)

  function Abandon(pc: Pc, adopt: bool): Pc
    requires pc.Making?
  {
    Discarding(pc.commit, pc.dir, HeldWhile(pc.make), adopt)
  }

  /** What one call leaves behind: the disk, and the caller's next call. */
  datatype Move = Move(disk: Disk, pc: Pc)

  function Apply(s: State, p: Pid, m: Move): State {
    State(m.disk, s.pcs[p := m.pc])
  }

  function WithDir(k: Disk, d: DirId, dir: Dir): Disk {
    k.(dirs := k.dirs[d := dir])
  }

  /** The directory named `n`, or none when nothing has that name. */
  function DirNamed(k: Disk, n: Name): Dir {
    if n in k.names
       && k.names[n] in k.dirs then k.dirs[k.names[n]] else Dir(0, Missing, NoKey, false, false, false, false)
  }

  ghost function Look(ours: Versions, s: State, p: Pid): Move
    requires At(s, p).Looking?
  {
    var Looking(at, c, d) := At(s, p);
    var root := Entry(c);
    var dir := DirNamed(s.disk, root);
    match at
    case CheckProvenance =>
      Move(s.disk, match dir.prov
              case Missing => Idle
              case Foreign => Idle
              case Loose => Removing(OpenLock, root, 0)
              case Private => Looking(ReadKey, c, 0))
    case ReadKey =>
      Move(s.disk, if !dir.key.Key? then Idle else
              match Match(dir.key.meta, c, ours)
              case Current => Looking(OpenInUse, c, 0)
              case Older => Removing(OpenLock, root, 0)
              case _ => Idle)
    case OpenInUse =>
      if root !in s.disk.names then Move(s.disk, Idle)
      else Move(WithDir(s.disk, s.disk.names[root], dir.(inUseLock := true)),
                Looking(TakeShared, c, s.disk.names[root]))
    case TakeShared =>
      Move(s.disk, if SharedFree(s, p, d) then Looking(Recheck, c, d) else Idle)
    case Recheck =>
      Move(s.disk, if dir.key.NoKey? then Idle else Looking(CheckTree, c, d))
    case CheckTree =>
      Move(s.disk, if dir.tree && dir.db then Looking(Returned, c, d) else Removing(OpenLock, root, 0))
    case Returned =>
      Move(s.disk, Idle)
  }

  ghost function Remove(s: State, p: Pid): Move
    requires At(s, p).Removing?
  {
    var Removing(at, n, d) := At(s, p);
    match at
    case OpenLock =>
      if n !in s.disk.names then Move(s.disk, Idle) else
      var dir := DirNamed(s.disk, n);
      Move(WithDir(s.disk, s.disk.names[n], if n.Entry? then dir.(inUseLock := true) else dir.(buildingLock := true)),
           Removing(TakeExclusive, n, s.disk.names[n]))
    case TakeExclusive =>
      Move(s.disk, if ExclusiveFree(s, p, n, d) then Removing(RemoveDir, n, d) else Idle)
    case RemoveDir =>
      Move(s.disk.(names := s.disk.names - {n}), Idle)
  }

  ghost function Make(ours: Versions, s: State, p: Pid): Move
    requires At(s, p).Making?
  {
    var Making(at, c, d) := At(s, p);
    var here := Staging(d) in s.disk.names;
    var dir := DirNamed(s.disk, Staging(d));
    var abandoned := Move(s.disk, Abandon(At(s, p), false));
    match at
    case CreateBuilding =>
      if !here || dir.buildingLock then abandoned
      else Move(WithDir(s.disk, d, dir.(buildingLock := true)), Making(TakeBuilding, c, d))
    case TakeBuilding =>
      if ExclusiveFree(s, p, Staging(d), d) then Move(s.disk, Making(CreateInUse, c, d)) else abandoned
    case CreateInUse =>
      if !here || dir.inUseLock then abandoned
      else Move(WithDir(s.disk, d, dir.(inUseLock := true)), Making(TakeInUse, c, d))
    case TakeInUse =>
      if SharedFree(s, p, d) then Move(s.disk, Making(BuildTree, c, d)) else abandoned
    case BuildTree =>
      if here then Move(WithDir(s.disk, d, dir.(tree := true, db := true)), Making(WriteKey, c, d)) else abandoned
    case WriteKey =>
      if here then Move(WithDir(s.disk, d, dir.(key := Key(Metadata(c, ours)))), Making(CheckDestination, c, d))
      else abandoned
    case CheckDestination =>
      Move(s.disk, if Entry(c) in s.disk.names then Abandon(At(s, p), true) else Making(Rename, c, d))
    case Rename =>
      if Entry(c) in s.disk.names then Move(s.disk, Abandon(At(s, p), true))
      else if !here then abandoned
      else Move(s.disk.(names := (s.disk.names - {Staging(d)})[Entry(c) := d]), Looking(Returned, c, d))
  }

  ghost function Advanced(ours: Versions, s: State, p: Pid): Move {
    match At(s, p)
    case Idle => Move(s.disk, Idle)
    case Looking(_, _, _) => Look(ours, s, p)
    case Removing(_, _, _) => Remove(s, p)
    case Making(_, _, _) => Make(ours, s, p)
    case Discarding(c, d, _, adopt) =>
      Move(s.disk.(names := s.disk.names - {Staging(d)}), if adopt then Looking(CheckProvenance, c, 0) else Idle)
  }

  /** A new, empty staging directory. */
  function CreateStaging(s: State, p: Pid, c: nat): State {
    var d := s.disk.nextDir;
    State(Disk(s.disk.names[Staging(d) := d], s.disk.dirs[d := Dir(c, Private, NoKey, false, false, false, false)],
               d + 1),
          s.pcs[p := Making(CreateBuilding, c, d)])
  }

  /** The state after `p`, a process of a binary with versions `ours(p)`, takes one step. */
  ghost function Next(ours: Pid -> Versions, s: State, p: Pid, choice: Choice): State {
    var pc := At(s, p);
    match choice
    case Advance => Apply(s, p, Advanced(ours(p), s, p))
    case Fail => Apply(s, p, Move(s.disk, if pc.Making? then Abandon(pc, false) else Idle))
    case Crash => Apply(s, p, Move(s.disk, Idle))
    case BeginLookup(c) => if pc.Idle? then Apply(s, p, Move(s.disk, Looking(CheckProvenance, c, 0))) else s
    case BeginRemove(n) => if pc.Idle? then Apply(s, p, Move(s.disk, Removing(OpenLock, n, 0))) else s
    case BeginBuild(c) => if pc.Idle? then CreateStaging(s, p, c) else s
  }

  datatype Event = Event(p: Pid, choice: Choice)

  ghost function Exec(ours: Pid -> Versions, s: State, run: seq<Event>): State
    decreases |run|
  {
    if run == [] then s else
    var before := Exec(ours, s, run[..|run| - 1]);
    Next(ours, before, run[|run| - 1].p, run[|run| - 1].choice)
  }

  // ---- What must never happen -------------------------------------------------

  /** A `CachedEntry` rooted at `commit`'s directory exists. */
  predicate HasOpen(pc: Pc, commit: nat) {
    pc.Looking? && (pc.look == CheckTree || pc.look == Returned) && pc.commit == commit
  }

  /** The step from `s` to `t` removes an entry some process has open. */
  ghost predicate RemovesInUse(s: State, t: State) {
    exists c, q :: Entry(c) in s.disk.names && Entry(c) !in t.disk.names && HasOpen(At(s, q), c)
  }

  /** Between opening a lock of `commit`'s directory and the re-check or removal
      that relies on it. */
  predicate InWindow(pc: Pc, commit: nat) {
    || (pc.Looking? && (pc.look == TakeShared || pc.look == Recheck) && pc.commit == commit)
    || (pc.Removing? && pc.rem != OpenLock && pc.name == Entry(commit))
  }

  /** `p` would recreate a commit directory while `q` is in a window on it. */
  predicate Recreates(s: State, p: Pid, q: Pid) {
    var pc := At(s, p);
    && pc.Making? && pc.make == Rename
    && Entry(pc.commit) !in s.disk.names && Staging(pc.dir) in s.disk.names && pc.dir in s.disk.dirs
    && InWindow(At(s, q), pc.commit)
  }

  ghost predicate Undisturbed(ours: Pid -> Versions, s: State, run: seq<Event>) {
    forall k, q :: 0 <= k < |run| && run[k].choice == Advance ==>
      !Recreates(Exec(ours, s, run[..k]), run[k].p, q)
  }

  ghost predicate NamesOk(k: Disk) {
    && (forall d :: d in k.dirs ==> d < k.nextDir)
    && (forall n :: n in k.names ==> k.names[n] in k.dirs)
    && (forall n, m :: n in k.names && m in k.names && k.names[n] == k.names[m] ==> n == m)
    && (forall d :: Staging(d) in k.names ==> k.names[Staging(d)] == d)
    && (forall c :: Entry(c) in k.names ==> k.dirs[k.names[Entry(c)]].home == c)
  }

  /** Any directory contents, and nothing running yet. */
  ghost predicate Init(s: State) {
    NamesOk(s.disk) && forall p :: At(s, p).Idle?
  }

  // ---- The invariant ----------------------------------------------------------

  predicate OwnsStaging(pc: Pc) {
    pc.Making? || pc.Discarding?
  }

  /** Holds a handle on the in-use lock of an entry directory. */
  predicate Attached(pc: Pc) {
    || (pc.Looking? && (pc.look == TakeShared || pc.look == Recheck || pc.look == CheckTree || pc.look == Returned))
    || (pc.Removing? && pc.rem != OpenLock && pc.name.Entry?)
  }

  function CommitOf(pc: Pc): nat
    requires Attached(pc)
  {
    if pc.Looking? then pc.commit else pc.name.commit
  }

  predicate Complete(dir: Dir, commit: nat) {
    dir.tree && dir.db && dir.key.Key? && dir.key.meta.commit == commit
  }

  /** An attached handle is on the lock of whatever directory still has the name,
      and an open entry is in place. */
  predicate AttachedOk(k: Disk, pc: Pc)
    requires Attached(pc)
  {
    && pc.dir in k.dirs && k.dirs[pc.dir].home == CommitOf(pc)
    && (Entry(CommitOf(pc)) in k.names ==> k.names[Entry(CommitOf(pc))] == pc.dir)
    && (HasOpen(pc, CommitOf(pc)) ==> Entry(CommitOf(pc)) in k.names)
  }

  /** A staging directory is unpublished, and complete by the time it is published. */
  ghost predicate StagingOk(k: Disk, pc: Pc)
    requires OwnsStaging(pc)
  {
    && pc.dir in k.dirs && k.dirs[pc.dir].home == pc.commit
    && (forall c :: Entry(c) in k.names ==> k.names[Entry(c)] != pc.dir)
    && (pc.Making? && pc.make == WriteKey ==> k.dirs[pc.dir].tree && k.dirs[pc.dir].db)
    && (pc.Making? && (pc.make == CheckDestination || pc.make == Rename) ==> Complete(k.dirs[pc.dir], pc.commit))
  }

  /** What always holds of a process, about staging directories alone. */
  ghost predicate BuilderOk(k: Disk, pc: Pc) {
    && (OwnsStaging(pc) ==> StagingOk(k, pc))
    && (pc.Removing? && pc.rem != OpenLock && pc.name.Staging? ==> pc.name.of == pc.dir < k.nextDir)
  }

  ghost predicate PcOk(k: Disk, pc: Pc) {
    BuilderOk(k, pc) && (Attached(pc) ==> AttachedOk(k, pc))
  }

  /** Builders have directories of their own, and a builder lock has one holder. */
  predicate Apart(a: Pc, b: Pc) {
    && (OwnsStaging(a) && OwnsStaging(b) ==> a.dir != b.dir)
    && (a.Removing? && ExcludesBuilding(a, a.dir) ==> !ExcludesBuilding(b, a.dir))
  }

  predicate Compatible(a: Pc, b: Pc) {
    && Apart(a, b)
    && (OwnsStaging(a) && Attached(b) ==> a.dir != b.dir)
    && (a.Removing? && ExcludesInUse(a, a.dir) ==> !Shares(b, a.dir) && !ExcludesInUse(b, a.dir))
  }

  ghost predicate Inv(s: State) {
    && NamesOk(s.disk)
    && (forall p :: PcOk(s.disk, At(s, p)))
    && (forall p, q :: p != q ==> Compatible(At(s, p), At(s, q)))
  }

  /** The invariant as far as `p` and another process `q` are concerned. */
  ghost predicate PairOk(s: State, p: Pid, q: Pid) {
    && p != q && NamesOk(s.disk) && PcOk(s.disk, At(s, p)) && PcOk(s.disk, At(s, q))
    && Compatible(At(s, p), At(s, q)) && Compatible(At(s, q), At(s, p))
  }

  /** `dirs` differs from `was` in lock files, and in what directory `own` holds. */
  ghost predicate Evolved(was: map<DirId, Dir>, dirs: map<DirId, Dir>, own: DirId) {
    && was.Keys == dirs.Keys
    && (forall d :: d in was ==> dirs[d].home == was[d].home)
    && (forall d :: d in was && d != own ==>
          dirs[d] == was[d].(inUseLock := dirs[d].inUseLock, buildingLock := dirs[d].buildingLock))
  }

  /** A move that leaves every name in place and its caller consistent. */
  ghost predicate Quiet(k: Disk, m: Move, own: DirId) {
    && m.disk.names == k.names && m.disk.nextDir == k.nextDir
    && Evolved(k.dirs, m.disk.dirs, own) && PcOk(m.disk, m.pc)
  }

  lemma QuietKeeps(s: State, p: Pid, q: Pid, m: Move, own: DirId)
    requires PairOk(s, p, q) && Quiet(s.disk, m, own)
    requires OwnsStaging(At(s, q)) ==> own != At(s, q).dir
    requires Compatible(m.pc, At(s, q)) && Compatible(At(s, q), m.pc)
    ensures PairOk(Apply(s, p, m), p, q) && At(Apply(s, p, m), q) == At(s, q)
  {
  }

  lemma StayIsQuiet(k: Disk, pc: Pc, own: DirId)
    requires PcOk(k, pc)
    ensures Quiet(k, Move(k, pc), own)
  {
  }

  lemma LookIsQuiet(v: Versions, s: State, p: Pid)
    requires NamesOk(s.disk) && At(s, p).Looking? && PcOk(s.disk, At(s, p))
    ensures Quiet(s.disk, Look(v, s, p), s.disk.nextDir)
  {
    if At(s, p).look != OpenInUse {
      StayIsQuiet(s.disk, Look(v, s, p).pc, s.disk.nextDir);
    }
  }

  lemma LookIsCompatible(v: Versions, s: State, p: Pid, other: Pc, q: Pid)
    requires NamesOk(s.disk) && At(s, p).Looking? && PcOk(s.disk, other)
    requires p != q && other == At(s, q) && Compatible(At(s, p), other) && Compatible(other, At(s, p))
    ensures Compatible(Look(v, s, p).pc, other) && Compatible(other, Look(v, s, p).pc)
  {
  }

  lemma LookKeeps(v: Versions, s: State, p: Pid, q: Pid)
    requires PairOk(s, p, q) && At(s, p).Looking?
    ensures PairOk(Apply(s, p, Look(v, s, p)), p, q) && At(Apply(s, p, Look(v, s, p)), q) == At(s, q)
  {
    LookIsQuiet(v, s, p);
    LookIsCompatible(v, s, p, At(s, q), q);
    QuietKeeps(s, p, q, Look(v, s, p), s.disk.nextDir);
  }

  lemma LockForRemovalIsQuiet(s: State, p: Pid)
    requires NamesOk(s.disk) && At(s, p).Removing? && At(s, p).rem != RemoveDir && PcOk(s.disk, At(s, p))
    ensures Quiet(s.disk, Remove(s, p), s.disk.nextDir)
  {
  }

  lemma RemoveKeeps(s: State, p: Pid, q: Pid)
    requires PairOk(s, p, q) && At(s, p).Removing?
    ensures PairOk(Apply(s, p, Remove(s, p)), p, q) && At(Apply(s, p, Remove(s, p)), q) == At(s, q)
  {
    if At(s, p).rem != RemoveDir {
      LockForRemovalIsQuiet(s, p);
      QuietKeeps(s, p, q, Remove(s, p), s.disk.nextDir);
    }
  }

  lemma RenameKeeps(v: Versions, s: State, p: Pid, q: Pid)
    requires PairOk(s, p, q) && At(s, p).Making? && At(s, p).make == Rename && !Recreates(s, p, q)
    ensures PairOk(Apply(s, p, Make(v, s, p)), p, q) && At(Apply(s, p, Make(v, s, p)), q) == At(s, q)
  {
    if Make(v, s, p).disk == s.disk {
      QuietKeeps(s, p, q, Make(v, s, p), s.disk.nextDir);
    }
  }

  lemma MakeIsQuiet(v: Versions, s: State, p: Pid)
    requires NamesOk(s.disk) && At(s, p).Making? && At(s, p).make != Rename && PcOk(s.disk, At(s, p))
    ensures Quiet(s.disk, Make(v, s, p), At(s, p).dir)
  {
    var m, d := Make(v, s, p), At(s, p).dir;
    if m.disk == s.disk {
      StayIsQuiet(s.disk, m.pc, d);
    } else {
      assert m.disk == WithDir(s.disk, d, m.disk.dirs[d]) && m.pc.Making?;
      WriteIsQuiet(s.disk, d, m.disk.dirs[d], m.pc);
    }
  }

  lemma WriteIsQuiet(k: Disk, d: DirId, dir: Dir, pc: Pc)
    requires d in k.dirs && dir.home == k.dirs[d].home && PcOk(WithDir(k, d, dir), pc)
    ensures Quiet(k, Move(WithDir(k, d, dir), pc), d)
  {
  }

  lemma MakeKeeps(v: Versions, s: State, p: Pid, q: Pid)
    requires PairOk(s, p, q) && At(s, p).Making? && !Recreates(s, p, q)
    ensures PairOk(Apply(s, p, Make(v, s, p)), p, q) && At(Apply(s, p, Make(v, s, p)), q) == At(s, q)
  {
    if At(s, p).make == Rename {
      RenameKeeps(v, s, p, q);
    } else {
      MakeIsQuiet(v, s, p);
      QuietKeeps(s, p, q, Make(v, s, p), At(s, p).dir);
    }
  }

  lemma AdvanceKeeps(v: Versions, s: State, p: Pid, q: Pid)
    requires PairOk(s, p, q) && !Recreates(s, p, q)
    ensures PairOk(Apply(s, p, Advanced(v, s, p)), p, q) && At(Apply(s, p, Advanced(v, s, p)), q) == At(s, q)
  {
    match At(s, p)
    case Looking(_, _, _) => LookKeeps(v, s, p, q);
    case Removing(_, _, _) => RemoveKeeps(s, p, q);
    case Making(_, _, _) => MakeKeeps(v, s, p, q);
    case _ =>
  }

  lemma BeginBuildKeeps(s: State, p: Pid, q: Pid, c: nat)
    requires PairOk(s, p, q) && At(s, p).Idle?
    ensures PairOk(CreateStaging(s, p, c), p, q) && At(CreateStaging(s, p, c), q) == At(s, q)
  {
  }

  lemma FailureKeeps(s: State, p: Pid, q: Pid)
    requires PairOk(s, p, q)
    ensures var t := Apply(s, p, Move(s.disk, if At(s, p).Making? then Abandon(At(s, p), false) else Idle));
            PairOk(t, p, q) && At(t, q) == At(s, q)
  {
    var pc := if At(s, p).Making? then Abandon(At(s, p), false) else Idle;
    QuietKeeps(s, p, q, Move(s.disk, pc), s.disk.nextDir);
  }

  lemma StepKeepsPair(ours: Pid -> Versions, s: State, p: Pid, choice: Choice, q: Pid)
    requires PairOk(s, p, q)
    requires choice == Advance ==> !Recreates(s, p, q)
    ensures PairOk(Next(ours, s, p, choice), p, q) && At(Next(ours, s, p, choice), q) == At(s, q)
  {
    match choice
    case Advance => AdvanceKeeps(ours(p), s, p, q);
    case Fail => FailureKeeps(s, p, q);
    case Crash => QuietKeeps(s, p, q, Move(s.disk, Idle), s.disk.nextDir);
    case BeginLookup(c) => QuietKeeps(s, p, q, Move(s.disk, Looking(CheckProvenance, c, 0)), s.disk.nextDir);
    case BeginRemove(n) => QuietKeeps(s, p, q, Move(s.disk, Removing(OpenLock, n, 0)), s.disk.nextDir);
    case BeginBuild(c) => if At(s, p).Idle? { BeginBuildKeeps(s, p, q, c); }
  }

  /** The only names a step can take away. */
  lemma NamesLost(ours: Pid -> Versions, s: State, p: Pid, choice: Choice, n: Name)
    requires n in s.disk.names && n !in Next(ours, s, p, choice).disk.names
    ensures choice == Advance
    ensures var pc := At(s, p);
            || (pc.Removing? && pc.rem == RemoveDir && n == pc.name)
            || (OwnsStaging(pc) && n == Staging(pc.dir))
  {
  }

  /** A commit's name appears only by the rename of a complete build of it. */
  lemma NamesGained(ours: Pid -> Versions, s: State, p: Pid, choice: Choice, commit: nat)
    requires NamesOk(s.disk) && BuilderOk(s.disk, At(s, p))
    requires Entry(commit) !in s.disk.names && Entry(commit) in Next(ours, s, p, choice).disk.names
    ensures var k := Next(ours, s, p, choice).disk;
            k.names[Entry(commit)] in k.dirs && Complete(k.dirs[k.names[Entry(commit)]], commit)
  {
    assert choice == Advance && At(s, p).Making? && At(s, p).make == Rename && At(s, p).commit == commit;
  }

  lemma StepKeepsInv(ours: Pid -> Versions, s: State, p: Pid, choice: Choice)
    requires Inv(s)
    requires choice == Advance ==> forall q :: !Recreates(s, p, q)
    ensures Inv(Next(ours, s, p, choice))
  {
    var t := Next(ours, s, p, choice);
    forall q | q != p
      ensures PairOk(t, p, q) && At(t, q) == At(s, q)
    {
      StepKeepsPair(ours, s, p, choice, q);
    }
    assert PairOk(t, p, p + 1);
  }

  lemma StepIsSafe(ours: Pid -> Versions, s: State, p: Pid, choice: Choice)
    requires Inv(s)
    ensures !RemovesInUse(s, Next(ours, s, p, choice))
  {
    var t := Next(ours, s, p, choice);
    forall c, q | Entry(c) in s.disk.names && Entry(c) !in t.disk.names
      ensures !HasOpen(At(s, q), c)
    {
      NamesLost(ours, s, p, choice, Entry(c));
      assert PcOk(s.disk, At(s, p)) && PcOk(s.disk, At(s, q));
      assert q != p ==> Compatible(At(s, p), At(s, q));
    }
  }

  // ---- Every run --------------------------------------------------------------

  lemma {:induction false} ReachableInv(ours: Pid -> Versions, s: State, run: seq<Event>)
    requires Init(s) && Undisturbed(ours, s, run)
    ensures Inv(Exec(ours, s, run))
    decreases |run|
  {
    if run != [] {
      var k := |run| - 1;
      var shorter := run[..k];
      assert forall j :: 0 <= j < k ==> run[..j] == shorter[..j];
      ReachableInv(ours, s, shorter);
      StepKeepsInv(ours, Exec(ours, s, shorter), run[k].p, run[k].choice);
    }
  }

  /** Nothing in use is removed: in every run, over any initial directory, in which
      no commit directory is recreated inside a window, no step removes an entry
      somebody has open. */
  lemma NothingInUseIsRemoved(ours: Pid -> Versions, s: State, run: seq<Event>, k: nat)
    requires Init(s) && Undisturbed(ours, s, run) && k < |run|
    ensures !RemovesInUse(Exec(ours, s, run[..k]), Exec(ours, s, run[..k + 1]))
  {
    var shorter := run[..k];
    assert forall j :: 0 <= j < k ==> run[..j] == shorter[..j];
    ReachableInv(ours, s, shorter);
    assert run[..k + 1][..k] == shorter;
    StepIsSafe(ours, Exec(ours, s, shorter), run[k].p, run[k].choice);
  }

  // ---- The premise is exactly what safety needs -------------------------------

  ghost predicate EndsInRemoval(ours: Pid -> Versions, s: State, run: seq<Event>) {
    && |run| > 0
    && RemovesInUse(Exec(ours, s, run[..|run| - 1]), Exec(ours, s, run))
  }

  lemma ExecSnoc(ours: Pid -> Versions, s: State, run: seq<Event>, e: Event)
    ensures Exec(ours, s, run + [e]) == Next(ours, Exec(ours, s, run), e.p, e.choice)
  {
    assert (run + [e])[..|run|] == run;
  }

  lemma EndsHere(ours: Pid -> Versions, s: State, run: seq<Event>, e: Event)
    requires RemovesInUse(Exec(ours, s, run), Next(ours, Exec(ours, s, run), e.p, e.choice))
    ensures EndsInRemoval(ours, s, run + [e])
  {
    ExecSnoc(ours, s, run, e);
    assert (run + [e])[..|run|] == run;
  }

  /** After the recreation: the publisher `p` has `commit` open in `dir`, the only
      process attached to that directory, and `q` is still in its window. */
  ghost predicate Recreated(s: State, p: Pid, q: Pid, commit: nat, dir: DirId) {
    && At(s, p) == Looking(Returned, commit, dir)
    && Entry(commit) in s.disk.names && s.disk.names[Entry(commit)] == dir
    && dir in s.disk.dirs && Complete(s.disk.dirs[dir], commit)
    && p != q && InWindow(At(s, q), commit)
    && (forall r :: r != p ==> !Shares(At(s, r), dir) && !ExcludesInUse(At(s, r), dir))
    && (forall r :: r != p && Attached(At(s, r)) && At(s, r).dir == At(s, q).dir ==> InWindow(At(s, r), commit))
    && (forall r :: OwnsStaging(At(s, r)) ==> At(s, r).dir != At(s, q).dir)
    && At(s, q).dir != dir
  }

  lemma RecreationStep(ours: Pid -> Versions, s: State, p: Pid, q: Pid)
    requires Inv(s) && Recreates(s, p, q)
    ensures Recreated(Next(ours, s, p, Advance), p, q, At(s, p).commit, At(s, p).dir)
  {
    var t := Next(ours, s, p, Advance);
    var c, d := At(s, p).commit, At(s, p).dir;
    assert PcOk(s.disk, At(s, p)) && PcOk(s.disk, At(s, q)) && p != q;
    assert Compatible(At(s, p), At(s, q)) && Compatible(At(s, q), At(s, p));
    forall r | r != p
      ensures At(t, r) == At(s, r)
      ensures !Shares(At(s, r), d) && !ExcludesInUse(At(s, r), d)
      ensures OwnsStaging(At(s, r)) ==> At(s, r).dir != At(s, q).dir
      ensures Attached(At(s, r)) && At(s, r).dir == At(s, q).dir ==> InWindow(At(s, r), c)
    {
      assert PcOk(s.disk, At(s, r));
      assert Compatible(At(s, p), At(s, r)) && (r != q ==> Compatible(At(s, r), At(s, q)));
    }
  }

  /** A remover that already has the old lock removes the new directory. */
  lemma StaleRemover(ours: Pid -> Versions, s: State, run: seq<Event>, p: Pid, q: Pid, c: nat, d: DirId)
    returns (more: seq<Event>)
    requires Recreated(Exec(ours, s, run), p, q, c, d) && At(Exec(ours, s, run), q).Removing?
             && At(Exec(ours, s, run), q).rem == RemoveDir
    ensures run <= more && EndsInRemoval(ours, s, more)
  {
    more := run + [Event(q, Advance)];
    var t := Exec(ours, s, run);
    assert HasOpen(At(t, p), c);
    EndsHere(ours, s, run, Event(q, Advance));
  }

  /** A `clean` removes a directory whose lock nobody holds, open or not. */
  lemma CleanRemoves(ours: Pid -> Versions, s: State, run: seq<Event>, x: Pid, q: Pid, c: nat, d: DirId)
    returns (more: seq<Event>)
    requires Unprotected(Exec(ours, s, run), x, Idle, q, c, d)
    ensures run <= more && EndsInRemoval(ours, s, more)
  {
    var t := Exec(ours, s, run);
    var go := Event(x, Advance);
    var begun := run + [Event(x, BeginRemove(Entry(c)))];
    ExecSnoc(ours, s, run, Event(x, BeginRemove(Entry(c))));
    RemovalBegins(ours, t, x, q, c, d);
    var ready := begun + [go];
    ExecSnoc(ours, s, begun, go);
    RemovalOpens(ours, Exec(ours, s, begun), x, q, c, d);
    var locked := ready + [go];
    ExecSnoc(ours, s, ready, go);
    RemovalLocks(ours, Exec(ours, s, ready), x, q, c, d);
    RemovalHits(ours, Exec(ours, s, locked), x, q, c, d);
    EndsHere(ours, s, locked, go);
    more := locked + [go];
  }

  /** `q` has `c` open in `d`, whose lock nobody holds, and `x` is at `pc`. */
  ghost predicate Unprotected(t: State, x: Pid, pc: Pc, q: Pid, c: nat, d: DirId) {
    && x != q && At(t, x) == pc && HasOpen(At(t, q), c)
    && Entry(c) in t.disk.names && t.disk.names[Entry(c)] == d
    && forall r :: !Shares(At(t, r), d) && !ExcludesInUse(At(t, r), d)
  }

  lemma RemovalBegins(ours: Pid -> Versions, t: State, x: Pid, q: Pid, c: nat, d: DirId)
    requires Unprotected(t, x, Idle, q, c, d)
    ensures Unprotected(Next(ours, t, x, BeginRemove(Entry(c))), x, Removing(OpenLock, Entry(c), 0), q, c, d)
  {
    var u := Next(ours, t, x, BeginRemove(Entry(c)));
    assert forall r :: r != x ==> At(u, r) == At(t, r);
  }

  lemma RemovalOpens(ours: Pid -> Versions, t: State, x: Pid, q: Pid, c: nat, d: DirId)
    requires Unprotected(t, x, Removing(OpenLock, Entry(c), 0), q, c, d)
    ensures Unprotected(Next(ours, t, x, Advance), x, Removing(TakeExclusive, Entry(c), d), q, c, d)
  {
    var u := Next(ours, t, x, Advance);
    assert forall r :: r != x ==> At(u, r) == At(t, r);
  }

  lemma RemovalLocks(ours: Pid -> Versions, t: State, x: Pid, q: Pid, c: nat, d: DirId)
    requires Unprotected(t, x, Removing(TakeExclusive, Entry(c), d), q, c, d)
    ensures var u := Next(ours, t, x, Advance);
            u.disk == t.disk && At(u, x) == Removing(RemoveDir, Entry(c), d) && HasOpen(At(u, q), c)
  {
    assert ExclusiveFree(t, x, Entry(c), d);
  }

  lemma RemovalHits(ours: Pid -> Versions, t: State, x: Pid, q: Pid, c: nat, d: DirId)
    requires At(t, x) == Removing(RemoveDir, Entry(c), d) && Entry(c) in t.disk.names && HasOpen(At(t, q), c)
    ensures RemovesInUse(t, Next(ours, t, x, Advance))
  {
    assert Entry(c) !in Next(ours, t, x, Advance).disk.names;
  }

  /** A lookup that locked the old inode opens the new directory; once its
      publisher lets go, any `clean` can remove it. */
  lemma StaleLookup(ours: Pid -> Versions, s: State, run: seq<Event>, p: Pid, q: Pid, c: nat, d: DirId)
    returns (more: seq<Event>)
    requires Recreated(Exec(ours, s, run), p, q, c, d) && At(Exec(ours, s, run), q).Looking?
             && At(Exec(ours, s, run), q).look == Recheck
    ensures run <= more && EndsInRemoval(ours, s, more)
  {
    var t := Exec(ours, s, run);
    var x := FreshPid(t, p, q);
    var run1 := run + [Event(q, Advance)];
    ExecSnoc(ours, s, run, Event(q, Advance));
    var t1 := Exec(ours, s, run1);
    assert At(t1, q) == Looking(CheckTree, c, At(t, q).dir) && t1.disk == t.disk;
    var run2 := run1 + [Event(p, Advance)];
    ExecSnoc(ours, s, run1, Event(p, Advance));
    var t2 := Exec(ours, s, run2);
    assert At(t2, p).Idle? && At(t2, q) == At(t1, q) && t2.disk == t.disk;
    assert forall r :: r != p && r != q ==> At(t2, r) == At(t, r);
    more := CleanRemoves(ours, s, run2, x, q, c, d);
  }

  /** A process that has done nothing. */
  ghost function FreshPid(s: State, p: Pid, q: Pid): (x: Pid)
    ensures x != p && x != q && At(s, x).Idle?
  {
    var used := s.pcs.Keys + {p, q};
    NotAll(used);
    var x :| x !in used;
    x
  }

  lemma {:induction false} NotAll(used: set<Pid>)
    ensures exists x: Pid :: x !in used
  {
    var bound := UpperBound(used);
    assert bound !in used;
  }

  lemma {:induction false} UpperBound(used: set<Pid>) returns (b: Pid)
    ensures forall x :: x in used ==> x < b
  {
    if used == {} {
      b := 0;
    } else {
      var x :| x in used;
      b := UpperBound(used - {x});
      if b <= x { b := x + 1; }
      assert forall y :: y in used ==> y == x || y in used - {x};
    }
  }

  /** Nobody else is on the old lock, so the process in the window gets it. */
  lemma StaleTakesLock(ours: Pid -> Versions, s: State, run: seq<Event>, p: Pid, q: Pid, c: nat, d: DirId)
    returns (more: seq<Event>)
    requires var t := Exec(ours, s, run);
             && Recreated(t, p, q, c, d) && !(At(t, q).Removing? && At(t, q).rem == RemoveDir)
             && (forall r :: r != p && r != q ==> !ExcludesInUse(At(t, r), At(t, q).dir))
             && (forall r :: r != p ==> !Shares(At(t, r), At(t, q).dir))
    ensures run <= more && EndsInRemoval(ours, s, more)
  {
    var t := Exec(ours, s, run);
    var next := run + [Event(q, Advance)];
    ExecSnoc(ours, s, run, Event(q, Advance));
    var u := Exec(ours, s, next);
    assert !ExcludesInUse(At(t, p), At(t, q).dir) && !Shares(At(t, p), At(t, q).dir);
    assert forall r :: r != q ==> At(u, r) == At(t, r);
    assert Recreated(u, p, q, c, d);
    if At(t, q).Looking? {
      more := StaleLookup(ours, s, next, p, q, c, d);
    } else {
      more := StaleRemover(ours, s, next, p, q, c, d);
    }
  }

  /** The premise of `NothingInUseIsRemoved` cannot be weakened: from any state the
      protocol can be in, if a step does recreate a commit directory while some
      process is in a window on it, a run that starts with that step removes an
      entry somebody has open. */
  lemma RecreationEndsInRemoval(ours: Pid -> Versions, s: State, p: Pid, q: Pid) returns (run: seq<Event>)
    requires Inv(s) && Recreates(s, p, q)
    ensures [Event(p, Advance)] <= run && EndsInRemoval(ours, s, run)
  {
    var c, d := At(s, p).commit, At(s, p).dir;
    var start := [Event(p, Advance)];
    ExecSnoc(ours, s, [], Event(p, Advance));
    assert [] + start == start;
    RecreationStep(ours, s, p, q);
    var t := Exec(ours, s, start);
    var pc := At(t, q);
    if r :| r != p && r != q && ExcludesInUse(At(t, r), pc.dir) {
      assert Recreated(t, p, r, c, d);
      run := StaleRemover(ours, s, start, p, r, c, d);
    } else if r :| r != p && Shares(At(t, r), pc.dir) {
      assert Recreated(t, p, r, c, d);
      run := StaleLookup(ours, s, start, p, r, c, d);
    } else if pc.Removing? && pc.rem == RemoveDir {
      run := StaleRemover(ours, s, start, p, q, c, d);
    } else {
      run := StaleTakesLock(ours, s, start, p, q, c, d);
    }
  }
}
