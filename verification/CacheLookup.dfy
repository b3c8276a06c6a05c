// What a lookup has checked by the time it trusts or returns an entry.

/** `lookup` over whole runs: the checks behind every answer. */
module CacheLookup {
  import opened CacheKey
  import opened CacheProtocol
  import opened CacheStaging

  /** Past the key check of a lookup of `c`, and not done. */
  predicate Trusts(pc: Pc, c: nat) {
    pc.Looking? && pc.commit == c && pc.look in {OpenInUse, TakeShared, Recheck, CheckTree}
  }

  /** The directory in place for `c`. */
  predicate InPlace(k: Disk, c: nat, dir: Dir) {
    Entry(c) in k.names && k.names[Entry(c)] in k.dirs && k.dirs[k.names[Entry(c)]] == dir
  }

  /** `p` finds the directory of `c` private to this user. */
  ghost predicate FindsPrivate(s: State, e: Event, p: Pid, c: nat) {
    && e == Event(p, Advance) && At(s, p).Looking? && At(s, p).look == CheckProvenance && At(s, p).commit == c
    && exists dir :: InPlace(s.disk, c, dir) && dir.prov == Private
  }

  /** `p` reads the key of the directory of `c`, and it is exactly what `p` would write. */
  ghost predicate ReadsOwnKey(ours: Pid -> Versions, s: State, e: Event, p: Pid, c: nat) {
    && e == Event(p, Advance) && At(s, p).Looking? && At(s, p).look == ReadKey && At(s, p).commit == c
    && exists dir :: InPlace(s.disk, c, dir) && dir.key == Key(Metadata(c, ours(p)))
  }

  /** `p` takes the lock of `d` shared, which no remover holds. */
  ghost predicate TakesLock(s: State, e: Event, p: Pid, c: nat, d: DirId) {
    && e == Event(p, Advance) && At(s, p) == Looking(TakeShared, c, d)
    && forall q :: q != p ==> !(At(s, q).Removing? && At(s, q).rem == RemoveDir && At(s, q).name.Entry?
                                && At(s, q).dir == d)
  }

  /** `p`, holding the lock of `d`, still finds a key in the directory of `c`. */
  ghost predicate FindsKeyAgain(s: State, e: Event, p: Pid, c: nat, d: DirId) {
    && e == Event(p, Advance) && At(s, p) == Looking(Recheck, c, d)
    && exists dir :: InPlace(s.disk, c, dir) && !dir.key.NoKey?
  }

  predicate Reads(pc: Pc, c: nat) {
    pc.Looking? && pc.commit == c && pc.look == ReadKey
  }

  predicate HoldsLock(pc: Pc, c: nat, d: DirId) {
    pc.Looking? && pc.commit == c && pc.dir == d && pc.look in {Recheck, CheckTree}
  }

  // ---- Entering a stage ---------------------------------------------------------

  /** From step `k` on `p` has been in a stage without a break. */
  ghost predicate Since(ours: Pid -> Versions, s: State, run: seq<Event>, p: Pid, k: nat, stage: Pc -> bool)
    requires k < |run|
  {
    && !stage(At(Exec(ours, s, run[..k]), p))
    && forall j :: k < j <= |run| ==> stage(At(Exec(ours, s, run[..j]), p))
  }

  /** A process in a stage it was not in at first entered it at some step. */
  lemma {:induction false} Entered(ours: Pid -> Versions, s: State, run: seq<Event>, p: Pid, stage: Pc -> bool)
    returns (k: nat)
    requires !stage(At(s, p)) && stage(At(Exec(ours, s, run), p))
    ensures k < |run| && Since(ours, s, run, p, k, stage)
    decreases |run|
  {
    var n := |run| - 1;
    var shorter := run[..n];
    assert run[..|run|] == run;
    if stage(At(Exec(ours, s, shorter), p)) {
      k := Entered(ours, s, shorter, p, stage);
      assert forall j :: 0 <= j <= n ==> shorter[..j] == run[..j];
    } else {
      k := n;
    }
  }

  lemma ExecStep(ours: Pid -> Versions, s: State, run: seq<Event>, k: nat)
    requires k < |run|
    ensures Exec(ours, s, run[..k + 1]) == Next(ours, Exec(ours, s, run[..k]), run[k].p, run[k].choice)
  {
    assert run[..k + 1][..k] == run[..k];
  }

  // ---- The step into each stage ---------------------------------------------------

  lemma IntoReading(ours: Pid -> Versions, s: State, e: Event, p: Pid, c: nat)
    requires !Reads(At(s, p), c) && Reads(At(Next(ours, s, e.p, e.choice), p), c)
    ensures FindsPrivate(s, e, p, c)
  {
    assert e == Event(p, Advance) && At(s, p).Looking?;
    assert InPlace(s.disk, c, DirNamed(s.disk, Entry(c)));
  }

  lemma IntoTrust(ours: Pid -> Versions, s: State, e: Event, p: Pid, c: nat)
    requires !Trusts(At(s, p), c) && Trusts(At(Next(ours, s, e.p, e.choice), p), c)
    ensures ReadsOwnKey(ours, s, e, p, c)
  {
    assert e == Event(p, Advance) && At(s, p).Looking?;
    assert InPlace(s.disk, c, DirNamed(s.disk, Entry(c)));
  }

  lemma IntoLock(ours: Pid -> Versions, s: State, e: Event, p: Pid, c: nat, d: DirId)
    requires !HoldsLock(At(s, p), c, d) && HoldsLock(At(Next(ours, s, e.p, e.choice), p), c, d)
    ensures TakesLock(s, e, p, c, d)
  {
    assert e == Event(p, Advance) && At(s, p).Looking?;
  }

  lemma IntoTreeCheck(ours: Pid -> Versions, s: State, e: Event, p: Pid, c: nat, d: DirId)
    requires At(s, p) != Looking(CheckTree, c, d) && At(Next(ours, s, e.p, e.choice), p) == Looking(CheckTree, c, d)
    ensures FindsKeyAgain(s, e, p, c, d)
  {
    assert e == Event(p, Advance) && At(s, p).Looking?;
    assert InPlace(s.disk, c, DirNamed(s.disk, Entry(c)));
  }

  // ---- Every run ------------------------------------------------------------------

  /** Whoever is past the key check found, in this very lookup, first the directory in
      place private and then its key exactly what it would write itself. */
  lemma TrustIsEarned(ours: Pid -> Versions, s: State, run: seq<Event>, p: Pid, c: nat) returns (i: nat, k: nat)
    requires Init(s) && Trusts(At(Exec(ours, s, run), p), c)
    ensures i < k < |run|
    ensures FindsPrivate(Exec(ours, s, run[..i]), run[i], p, c)
    ensures ReadsOwnKey(ours, Exec(ours, s, run[..k]), run[k], p, c)
    ensures forall j :: i < j <= k ==> Reads(At(Exec(ours, s, run[..j]), p), c)
    ensures forall j :: k < j <= |run| ==> Trusts(At(Exec(ours, s, run[..j]), p), c)
  {
    k := Entered(ours, s, run, p, (pc: Pc) => Trusts(pc, c));
    ExecStep(ours, s, run, k);
    IntoTrust(ours, Exec(ours, s, run[..k]), run[k], p, c);
    i := ReadingIsEarned(ours, s, run[..k], p, c);
    assert forall j :: 0 <= j <= k ==> run[..k][..j] == run[..j];
  }

  lemma ReadingIsEarned(ours: Pid -> Versions, s: State, run: seq<Event>, p: Pid, c: nat) returns (i: nat)
    requires Init(s) && Reads(At(Exec(ours, s, run), p), c)
    ensures i < |run| && FindsPrivate(Exec(ours, s, run[..i]), run[i], p, c)
    ensures forall j :: i < j <= |run| ==> Reads(At(Exec(ours, s, run[..j]), p), c)
  {
    i := Entered(ours, s, run, p, (pc: Pc) => Reads(pc, c));
    ExecStep(ours, s, run, i);
    IntoReading(ours, Exec(ours, s, run[..i]), run[i], p, c);
  }

  /** A lookup of `p` returns the entry of `c` in `d`. */
  ghost predicate LookupReturns(ours: Pid -> Versions, s: State, e: Event, p: Pid, c: nat, d: DirId) {
    && At(s, p).Looking? && At(s, p).look != Returned
    && At(Next(ours, s, e.p, e.choice), p) == Looking(Returned, c, d)
  }

  /** A lookup that returns an entry has found, in this order, the directory in place
      private, its key its own, its lock free of removers, a key still there, and now its
      tree and its database; and it has held the lock since it took it. */
  lemma ReturnsAreChecked(ours: Pid -> Versions, s: State, run: seq<Event>, e: Event, p: Pid, c: nat, d: DirId)
    returns (i: nat, k: nat, l: nat, m: nat)
    requires Init(s) && LookupReturns(ours, Exec(ours, s, run), e, p, c, d)
    ensures i < k < l < m < |run|
    ensures FindsPrivate(Exec(ours, s, run[..i]), run[i], p, c)
    ensures ReadsOwnKey(ours, Exec(ours, s, run[..k]), run[k], p, c)
    ensures TakesLock(Exec(ours, s, run[..l]), run[l], p, c, d)
    ensures FindsKeyAgain(Exec(ours, s, run[..m]), run[m], p, c, d)
    ensures forall j :: l < j <= |run| ==> Shares(At(Exec(ours, s, run[..j]), p), d)
    ensures exists dir :: InPlace(Exec(ours, s, run).disk, c, dir) && dir.tree && dir.db
  {
    var t := Exec(ours, s, run);
    assert e == Event(p, Advance) && At(t, p) == Looking(CheckTree, c, d);
    assert InPlace(t.disk, c, DirNamed(t.disk, Entry(c)));
    i, k := TrustIsEarned(ours, s, run, p, c);
    m := Entered(ours, s, run, p, (pc: Pc) => pc == Looking(CheckTree, c, d));
    ExecStep(ours, s, run, m);
    IntoTreeCheck(ours, Exec(ours, s, run[..m]), run[m], p, c, d);
    l := Entered(ours, s, run, p, (pc: Pc) => HoldsLock(pc, c, d));
    ExecStep(ours, s, run, l);
    IntoLock(ours, Exec(ours, s, run[..l]), run[l], p, c, d);
    assert !Trusts(At(Exec(ours, s, run[..k]), p), c) && Trusts(At(Exec(ours, s, run[..l]), p), c);
    assert At(Exec(ours, s, run[..m]), p).look == Recheck;
    assert l < m;
  }

  // ---- The key of what is returned --------------------------------------------------

  /** Directory `d` exists and nobody builds in it any more. */
  ghost predicate Finished(s: State, d: DirId) {
    d in s.disk.dirs && forall q :: OwnsStaging(At(s, q)) ==> At(s, q).dir != d
  }

  lemma PublishedIsFinished(s: State, c: nat)
    requires BuildInv(s) && Entry(c) in s.disk.names
    ensures Finished(s, s.disk.names[Entry(c)])
  {
    forall q | OwnsStaging(At(s, q))
      ensures At(s, q).dir != s.disk.names[Entry(c)]
    {
      assert BuilderOk(s.disk, At(s, q));
    }
  }

  lemma FinishedStays(ours: Pid -> Versions, s: State, e: Event, d: DirId)
    requires BuildInv(s) && Finished(s, d)
    ensures var t := Next(ours, s, e.p, e.choice); Finished(t, d) && t.disk.dirs[d].key == s.disk.dirs[d].key
  {
    var t := Next(ours, s, e.p, e.choice);
    assert BuilderOk(s.disk, At(s, e.p));
    forall q | OwnsStaging(At(t, q))
      ensures At(t, q).dir != d
    {
      assert q != e.p ==> At(t, q) == At(s, q);
    }
  }

  lemma {:induction false} FinishedKeepsKey(ours: Pid -> Versions, s: State, run: seq<Event>, k: nat, d: DirId)
    requires Init(s) && k <= |run| && Finished(Exec(ours, s, run[..k]), d)
    ensures Finished(Exec(ours, s, run), d)
    ensures Exec(ours, s, run).disk.dirs[d].key == Exec(ours, s, run[..k]).disk.dirs[d].key
    decreases |run|
  {
    if k == |run| {
      assert run[..k] == run;
    } else {
      var n := |run| - 1;
      assert run[..n][..k] == run[..k];
      FinishedKeepsKey(ours, s, run[..n], k, d);
      EveryRunKeepsBuilds(ours, s, run[..n]);
      FinishedStays(ours, Exec(ours, s, run[..n]), run[n], d);
    }
  }

  /** What a lookup returns has the key it read, as long as the directory in place is
      still the one whose key it read. */
  lemma SameDirectoryHasOwnKey(ours: Pid -> Versions, s: State, run: seq<Event>, p: Pid, c: nat, k: nat)
    requires Init(s) && k < |run| && ReadsOwnKey(ours, Exec(ours, s, run[..k]), run[k], p, c)
    requires var was, now := Exec(ours, s, run[..k]).disk.names, Exec(ours, s, run).disk.names;
             Entry(c) in was && Entry(c) in now && was[Entry(c)] == now[Entry(c)]
    ensures exists dir :: InPlace(Exec(ours, s, run).disk, c, dir) && dir.key == Key(Metadata(c, ours(p)))
  {
    var was, now := Exec(ours, s, run[..k]), Exec(ours, s, run);
    var d := was.disk.names[Entry(c)];
    EveryRunKeepsBuilds(ours, s, run[..k]);
    PublishedIsFinished(was, c);
    FinishedKeepsKey(ours, s, run, k, d);
    assert InPlace(now.disk, c, now.disk.dirs[d]);
  }

  // ---- What each check decides ------------------------------------------------------

  /** What each check of a lookup makes of what it finds: it goes on only with a private
      directory whose key is exactly its own and whose tree and database are there, it
      removes an entry others may write to, a strictly older one or an incomplete one, and
      it leaves everything else alone. */
  lemma LookupDecides(ours: Pid -> Versions, s: State, p: Pid)
    requires At(s, p).Looking?
    ensures var pc, next, dir := At(s, p), At(Next(ours, s, p, Advance), p), DirNamed(s.disk, Entry(At(s, p).commit));
            var remove := Removing(OpenLock, Entry(pc.commit), 0);
            match pc.look
            case CheckProvenance =>
              && (next == Looking(ReadKey, pc.commit, 0) <==> dir.prov == Private)
              && (next == remove <==> dir.prov == Loose)
              && (next == Idle <==> dir.prov == Missing || dir.prov == Foreign)
            case ReadKey =>
              var own := dir.key.Key? && dir.key.meta.commit == pc.commit;
              && (next == Looking(OpenInUse, pc.commit, 0) <==> own && dir.key.meta.versions == ours(p))
              && (next == remove <==>
                    own && AtMost(dir.key.meta.versions, ours(p)) && dir.key.meta.versions != ours(p))
              && (next == Idle <==> !(own && AtMost(dir.key.meta.versions, ours(p))))
            case CheckTree =>
              && (next == Looking(Returned, pc.commit, pc.dir) <==> dir.tree && dir.db)
              && (next == remove <==> !(dir.tree && dir.db))
            case _ => !next.Removing?
  {
    if At(s, p).look == ReadKey {
      var dir := DirNamed(s.disk, Entry(At(s, p).commit));
      if dir.key.Key? {
        StaleIsOneSided(dir.key.meta.commit, dir.key.meta.versions, ours(p));
      }
    }
  }
}
