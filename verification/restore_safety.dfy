/** Crash safety of a restore: whole starts, starts cut short, and any number of them in a row. */
module RestoreSafety {
  import opened Wrappers
  import opened RestoreSpec
  import opened RestoreSteps

  // ---------- a start that is not interrupted ----------

  /** Replacing succeeds exactly for a complete stage, and then leaves exactly what was staged. */
  lemma ReplaceRun(d: Disk, env: Env)
    requires EnvOk(env) && d.pending.Some? && StagedManifest(d).Scope?
    ensures var r := Run(d, Replace(env, StagedManifest(d)));
      && (r.ok <==> Complete(d, env))
      && (r.ok ==> Agree(r.disk.live, Staged(d, env), Managed(env, Some(StagedManifest(d)))) && r.disk.pending.None?)
  {
    hide Step, Run, Replace;
    var m := StagedManifest(d);
    var cleared := Run(d, Clearing(env, m)).disk;
    ClearingRun(d, env, m);
    InstallRun(cleared);
    RunAppend(d, Clearing(env, m), [Install]);
    var placed := Run(cleared, [Install]).disk;
    TailRun(placed, env, m);
    RunAppend(d, Clearing(env, m) + [Install], TlsInstalls(env, m) + PendingRemoval(env.pendingItems));
    ReplaceParts(env, m);
    if Run(d, Replace(env, m)).ok {
      StagedTogether(d, env, cleared, placed, Run(d, Replace(env, m)).disk);
    }
  }

  function Clearing(env: Env, m: Manifest): seq<Op> {
    TlsUnlinks(env, m) + [Unlink(Database), Unlink(Wal), Unlink(Shm)]
  }

  lemma ReplaceParts(env: Env, m: Manifest)
    requires m.Scope?
    ensures Replace(env, m) == Clearing(env, m) + [Install] + (TlsInstalls(env, m) + PendingRemoval(env.pendingItems))
  {
  }

  lemma ClearingRun(d: Disk, env: Env, m: Manifest)
    requires EnvOk(env)
    ensures Run(d, Clearing(env, m)) == Outcome(d.(live := d.live - Managed(env, Some(m))), true)
  {
    var files := if ManifestIncludesTls(m) then Targeted(env.removing, env.targets) else [];
    if ManifestIncludesTls(m) {
      TargetedSet(env.removing, env.targets);
    } else {
      assert SetOf([]) == {};
    }
    UnlinksRun(d, files);
    var mid := d.(live := d.live - SetOf(files));
    var last := [Database, Wal, Shm];
    UnlinksRun(mid, last);
    UnlinkList();
    assert TlsUnlinks(env, m) == Unlinks(files);
    RunAppend(d, Unlinks(files), Unlinks(last));
    assert d.live - SetOf(files) - SetOf(last) == d.live - Managed(env, Some(m));
  }

  lemma UnlinkList()
    ensures Unlinks([Database, Wal, Shm]) == [Unlink(Database), Unlink(Wal), Unlink(Shm)]
    ensures SetOf([Database, Wal, Shm]) == {Database, Wal, Shm}
  {
    assert [Database, Wal, Shm][1..] == [Wal, Shm];
    assert [Wal, Shm][1..] == [Shm];
    assert [Shm][1..] == [];
  }

  lemma InstallRun(d: Disk)
    requires d.pending.Some?
    ensures Run(d, [Install]).ok <==> Database in d.pending.value.files
    ensures Database in d.pending.value.files ==>
      Run(d, [Install]).disk
      == d.(live := d.live[Database := d.pending.value.files[Database]], pending := Lost(d.pending, Entry(Database)))
    ensures Run(d, [Install]).disk.pending.Some?
  {
    RunOne(d, Install);
  }

  lemma TailRun(d: Disk, env: Env, m: Manifest)
    requires EnvOk(env) && d.pending.Some? && m.Scope?
    ensures var r := Run(d, TlsInstalls(env, m) + PendingRemoval(env.pendingItems));
      var tls := if ManifestIncludesTls(m) then SetOf(m.files) * env.targets else {};
      && (r.ok <==> tls <= d.pending.value.files.Keys)
      && (r.ok ==> r.disk.pending.None? && Agree(r.disk.live, d.pending.value.files, tls) && AgreeOutside(r.disk.live, d.live, tls))
  {
    var files := if ManifestIncludesTls(m) then Targeted(m.files, env.targets) else [];
    TargetedMembers(m.files, env.targets);
    assert SetOf(files) == if ManifestIncludesTls(m) then SetOf(m.files) * env.targets else {};
    assert TlsInstalls(env, m) == Installs(files);
    hide Step, Run, Installs;
    RunAppend(d, Installs(files), PendingRemoval(env.pendingItems));
    PendingRemovalRun(Run(d, Installs(files)).disk, env.pendingItems);
    InstallsOk(d, files);
    if Run(d, Installs(files)).ok {
      InstallsRun(d, files);
    }
  }

  lemma StagedTogether(d: Disk, env: Env, cleared: Disk, placed: Disk, e: Disk)
    requires EnvOk(env) && Complete(d, env)
    requires cleared == d.(live := d.live - Managed(env, Some(StagedManifest(d))))
    requires placed == cleared.(live := cleared.live[Database := d.pending.value.files[Database]],
                                pending := Lost(d.pending, Entry(Database)))
    requires var tls := if ManifestIncludesTls(StagedManifest(d)) then SetOf(StagedManifest(d).files) * env.targets else {};
      Agree(e.live, placed.pending.value.files, tls) && AgreeOutside(e.live, placed.live, tls)
    ensures Agree(e.live, Staged(d, env), Managed(env, Some(StagedManifest(d))))
  {
    hide Step, Run;
    var m := StagedManifest(d);
    var tls := if ManifestIncludesTls(m) then SetOf(m.files) * env.targets else {};
    forall f | f in Managed(env, Some(m)) ensures Same(e.live, Staged(d, env), f) {
      assert if f in tls then Same(e.live, placed.pending.value.files, f) else Same(e.live, placed.live, f);
    }
  }

  /** A marked disk returns to the installation that was saved. */
  lemma StartRollsBack(d: Disk, env: Env, was: map<File, string>, m: Manifest)
    requires EnvOk(env) && Recoverable(d, was, Managed(env, Some(m)), m) && Database in was
    ensures var s := Start(d, env);
      && s.ok && !s.restored && !s.disk.marked && s.disk.pending.None? && s.disk.rollback.None?
      && Agree(s.disk.live, was, Managed(env, Some(m))) && AgreeOutside(s.disk.live, d.live, Managed(env, Some(m)))
  {
    hide Run, Step;
    assert Same(d.rollback.value.files, was, Database);
    RollBackRun(d, env, Some(m));
    var back := Run(d, RollBack(env, IncludesTls(Some(m)))).disk;
    CleanUpRun(back, env);
    Chained(back.live, d.rollback.value.files, was, Managed(env, Some(m)));
  }

  lemma Chained(a: map<File, string>, b: map<File, string>, c: map<File, string>, on: set<File>)
    requires Agree(a, b, on) && Agree(b, c, on)
    ensures Agree(a, c, on)
  {
    forall f | f in on ensures Same(a, c, f) {
      assert Same(a, b, f) && Same(b, c, f);
    }
  }

  lemma Equal(a: map<File, string>, b: map<File, string>, on: set<File>)
    requires Agree(a, b, on) && AgreeOutside(a, b, on)
    ensures a == b
  {
    forall f ensures Same(a, b, f) {
    }
    forall f ensures f in a.Keys <==> f in b.Keys {
      assert Same(a, b, f);
    }
    forall f | f in a ensures a[f] == b[f] {
      assert Same(a, b, f);
    }
  }

  /** The same operations as a start on a marked disk, whatever their outcome is used for. */
  lemma UndoRollsBack(d: Disk, env: Env, was: map<File, string>, m: Manifest)
    requires EnvOk(env) && Recoverable(d, was, Managed(env, Some(m)), m) && Database in was
    ensures Undo(d, env) == Start(d, env).disk
  {
    hide Run, Step;
    assert Same(d.rollback.value.files, was, Database);
    RollBackRun(d, env, Some(m));
  }

  /**
   All or nothing: a start with a staged restore succeeds exactly when the stage is
   complete, and then every managed file is as staged and no other changed; if it is
   not, every live file is as it was.
   */
  lemma StartIsAtomic(d: Disk, env: Env)
    requires EnvOk(env) && !d.marked && d.pending.Some? && StagedManifest(d).Scope? && Database in d.live
    ensures var s := Start(d, env); var m := StagedManifest(d); var on := Managed(env, Some(m));
      && s.ok == s.restored == Complete(d, env) && s.disk.pending.None?
      && (s.ok ==> Agree(s.disk.live, Staged(d, env), on) && AgreeOutside(s.disk.live, d.live, on)
                   && Recoverable(s.disk, d.live, on, m))
      && (!s.ok ==> s.disk.live == d.live && !s.disk.marked)
  {
    hide Run, Step, Prepare, TlsSaves, Replace, Recoverable, Staged, Complete, Undo;
    var m := StagedManifest(d);
    var on := Managed(env, Some(m));
    BackupRun(d, env, m);
    var saved := Run(d, Backup(env, m)).disk;
    RunAppend(d, Backup(env, m), Replace(env, m));
    ReplaceRun(saved, env);
    ReplaceReplaces(env, m);
    BackupKept(saved, Replace(env, m), on);
    SameStage(d, saved, env);
    var done := Run(saved, Replace(env, m)).disk;
    StillRecoverable(saved, done, d.live, on, m);
    if !Complete(d, env) {
      UndoRollsBack(done, env, d.live, m);
      StartRollsBack(done, env, d.live, m);
      BackAsBefore(done, env, d.live, m);
    }
  }

  lemma SameStage(d: Disk, e: Disk, env: Env)
    requires e.pending == d.pending
    ensures StagedManifest(e) == StagedManifest(d)
    ensures Complete(e, env) <==> Complete(d, env)
    ensures d.pending.Some? && StagedManifest(d).Scope? ==> Staged(e, env) == Staged(d, env)
  {
  }

  lemma StillRecoverable(d: Disk, e: Disk, was: map<File, string>, on: set<File>, m: Manifest)
    requires Recoverable(d, was, on, m) && e.rollback == d.rollback && e.marked == d.marked
    ensures Recoverable(e, was, on, m)
  {
  }

  lemma BackAsBefore(d: Disk, env: Env, was: map<File, string>, m: Manifest)
    requires EnvOk(env) && Recoverable(d, was, Managed(env, Some(m)), m) && Database in was
    requires AgreeOutside(d.live, was, Managed(env, Some(m)))
    ensures var s := Start(d, env); s.disk.live == was && s.ok && !s.restored && !s.disk.marked
  {
    hide Run, Step, Start, Recoverable;
    StartRollsBack(d, env, was, m);
    var on := Managed(env, Some(m));
    var s := Start(d, env);
    forall f | f !in on ensures Same(s.disk.live, was, f) {
      assert Same(s.disk.live, d.live, f) && Same(d.live, was, f);
    }
    Equal(s.disk.live, was, on);
  }

  // ---------- starts cut short ----------

  datatype Crash = Crash(env: Env, at: nat)

  /** The operations that a start performs when none of them fails. */
  function StartOps(d: Disk, env: Env): seq<Op> {
    if d.marked then RollBack(env, IncludesTls(RollbackManifest(d))) + CleanUp(env)
    else if d.pending.None? || StagedManifest(d).Unreadable? then []
    else Apply(env, StagedManifest(d))
  }

  function CutShort(d: Disk, c: Crash): Disk {
    var ops := StartOps(d, c.env);
    Run(d, if c.at <= |ops| then ops[..c.at] else ops).disk
  }

  /** A crash inside a rollback, after the saved database has been moved away and before the marker is gone. */
  predicate Fatal(d: Disk, c: Crash) {
    d.marked && 2 <= c.at <= |RollBack(c.env, IncludesTls(RollbackManifest(d)))|
  }

  /** A staged directory with some of its files removed. */
  ghost predicate Shrunk(p: Option<Dir>, of: Option<Dir>) {
    p.Some? ==>
      && of.Some?
      && (forall f :: f in p.value.files ==> f in of.value.files && p.value.files[f] == of.value.files[f])
      && (p.value.manifest == of.value.manifest || p.value.manifest.None?)
  }

  lemma {:induction false} PendingShrinks(d: Disk, ops: seq<Op>)
    ensures Shrunk(Run(d, ops).disk.pending, d.pending)
    decreases |ops|
  {
    if ops != [] && Step(d, ops[0]).Some? {
      var next := Step(d, ops[0]).value;
      assert Shrunk(next.pending, d.pending);
      PendingShrinks(next, ops[1..]);
    }
  }

  lemma ShrunkTwice(a: Option<Dir>, b: Option<Dir>, c: Option<Dir>)
    requires Shrunk(a, b) && Shrunk(b, c)
    ensures Shrunk(a, c)
  {
  }

  /** Between starts: nothing has happened yet, or the marker stands and the old installation is saved. */
  ghost predicate Safe(d: Disk, first: Disk, targets: set<File>) {
    var m := StagedManifest(first);
    var on := {Database, Wal, Shm} + if ManifestIncludesTls(m) then targets else {};
    && Shrunk(d.pending, first.pending)
    && AgreeOutside(d.live, first.live, on)
    && (if d.marked then Recoverable(d, first.live, on, m) else d.live == first.live)
  }

  lemma Refl(a: map<File, string>, on: set<File>)
    ensures Agree(a, a, on) && AgreeOutside(a, a, on)
  {
  }

  lemma CutWhileApplying(d: Disk, first: Disk, c: Crash)
    requires EnvOk(c.env) && Safe(d, first, c.env.targets) && !d.marked
    requires StagedManifest(first).Scope?
    ensures Safe(CutShort(d, c), first, c.env.targets)
    ensures StartOps(d, c.env) != [] && c.at >= |Backup(c.env, StagedManifest(first))| ==> CutShort(d, c).marked
  {
    hide Run, Step, Prepare, TlsSaves, Replace, Recoverable, Backup;
    var ops := StartOps(d, c.env);
    if ops == [] || d.pending.None? || StagedManifest(d).Unreadable? {
      assert ops == [] && ops[..0] == [];
      NoOps(d);
      return;
    }
    var m := StagedManifest(d);
    assert m == StagedManifest(first);
    var on := Managed(c.env, Some(m));
    var at := if c.at <= |ops| then c.at else |ops|;
    assert ops[..|ops|] == ops;
    PendingShrinks(d, ops[..at]);
    ShrunkTwice(Run(d, ops[..at]).disk.pending, d.pending, first.pending);
    var back := Backup(c.env, m);
    if at < |back| {
      assert ops[..at] == back[..at];
      BackupCut(d, c.env, m, at);
    } else {
      var rest := Replace(c.env, m)[..at - |back|];
      assert ops[..at] == back + rest;
      BackupRun(d, c.env, m);
      RunAppend(d, back, rest);
      ReplaceReplaces(c.env, m);
      var saved := Run(d, back).disk;
      BackupKept(saved, rest, on);
      StillRecoverable(saved, Run(saved, rest).disk, first.live, on, m);
    }
  }

  lemma NoOps(d: Disk)
    ensures Run(d, []) == Outcome(d, true)
  {
  }

  lemma CutWhileRollingBack(d: Disk, first: Disk, c: Crash)
    requires EnvOk(c.env) && Safe(d, first, c.env.targets) && d.marked && !Fatal(d, c)
    requires Database in first.live
    ensures Safe(CutShort(d, c), first, c.env.targets)
  {
    hide Run, Step, RollBack, Recoverable;
    var m := StagedManifest(first);
    var on := Managed(c.env, Some(m));
    var ops := StartOps(d, c.env);
    assert RollbackManifest(d) == Some(m) by { UseRecoverable(d, first.live, on, m); }
    var back := RollBack(c.env, IncludesTls(Some(m)));
    var at := if c.at <= |ops| then c.at else |ops|;
    assert ops[..|ops|] == ops;
    PendingShrinks(d, ops[..at]);
    ShrunkTwice(Run(d, ops[..at]).disk.pending, d.pending, first.pending);
    if c.at <= 1 {
      FirstSteps(d, c.env, IncludesTls(Some(m)), at);
      assert ops[..at] == back[..at];
      var e := CutShort(d, c);
      StillRecoverable(d, e, first.live, on, m);
      forall f | f !in on ensures Same(e.live, first.live, f) {
        assert Same(e.live, d.live, f) && Same(d.live, first.live, f);
      }
    } else {
      var rest := CleanUp(c.env)[..at - |back|];
      assert ops[..at] == back + rest;
      UseRecoverable(d, first.live, on, m);
      RollBackRun(d, c.env, Some(m));
      RunAppend(d, back, rest);
      var e := Run(d, back).disk;
      Chained(e.live, d.rollback.value.files, first.live, on);
      forall f | f !in on ensures Same(e.live, first.live, f) {
        assert Same(e.live, d.live, f) && Same(d.live, first.live, f);
      }
      Equal(e.live, first.live, on);
      CleanUpCut(e, c.env, at - |back|);
      Refl(first.live, on);
    }
  }

  lemma UseRecoverable(d: Disk, was: map<File, string>, on: set<File>, m: Manifest)
    requires Recoverable(d, was, on, m) && Database in on
    ensures d.rollback.Some? && RollbackManifest(d) == Some(m) && Agree(d.rollback.value.files, was, on)
    ensures Database in was <==> Database in d.rollback.value.files
  {
    assert Same(d.rollback.value.files, was, Database);
  }

  lemma FirstSteps(d: Disk, env: Env, tls: bool, at: nat)
    requires at <= 1
    ensures |RollBack(env, tls)| >= 6
    ensures var e := Run(d, RollBack(env, tls)[..at]).disk;
      e.rollback == d.rollback && e.marked == d.marked && e.pending == d.pending && AgreeOutside(e.live, d.live, {Database})
  {
    if at == 1 {
      assert RollBack(env, tls)[..1] == [Unlink(Database)];
      RunOne(d, Unlink(Database));
    }
  }

  /** After the marker is gone, cleaning up touches no live file. */
  lemma CleanUpCut(d: Disk, env: Env, k: nat)
    requires 1 <= k <= |CleanUp(env)|
    ensures var e := Run(d, CleanUp(env)[..k]).disk; e.live == d.live && !e.marked
  {
    var rest := (RollbackRemoval(env.rollbackItems) + PendingRemoval(env.pendingItems))[..k - 1];
    assert CleanUp(env)[..k] == [Unmark] + rest;
    RunAppend(d, [Unmark], rest);
    RunOne(d, Unmark);
    RollbackRemovalRun(d, env.rollbackItems);
    PendingRemovalIs(env.pendingItems);
    RemovalsKeepLive(d.(marked := false), rest);
  }

  lemma {:induction false} RemovalsKeepLive(d: Disk, ops: seq<Op>)
    requires forall op :: op in ops ==> LeavesLive(op) || op.LosePendingItem? || op.DropPending?
    ensures var e := Run(d, ops).disk; e.live == d.live && e.marked == d.marked
    decreases |ops|
  {
    if ops != [] && Step(d, ops[0]).Some? {
      assert ops[0] in ops;
      RemovalsKeepLive(Step(d, ops[0]).value, ops[1..]);
    }
  }

  // ---------- any number of crashes ----------

  function Crashed(d: Disk, crashes: seq<Crash>): Disk
    decreases |crashes|
  {
    if crashes == [] then d else Crashed(CutShort(d, crashes[0]), crashes[1..])
  }

  ghost predicate Survivable(d: Disk, crashes: seq<Crash>, targets: set<File>)
    decreases |crashes|
  {
    crashes != [] ==>
      && EnvOk(crashes[0].env) && crashes[0].env.targets == targets && !Fatal(d, crashes[0])
      && Survivable(CutShort(d, crashes[0]), crashes[1..], targets)
  }

  lemma {:induction false} CrashesSafe(d: Disk, first: Disk, crashes: seq<Crash>, targets: set<File>)
    requires Safe(d, first, targets) && Survivable(d, crashes, targets)
    requires StagedManifest(first).Scope? && Database in first.live
    ensures Safe(Crashed(d, crashes), first, targets)
    decreases |crashes|
  {
    hide CutShort, Safe, Fatal;
    if crashes != [] {
      if d.marked {
        CutWhileRollingBack(d, first, crashes[0]);
      } else {
        CutWhileApplying(d, first, crashes[0]);
      }
      CrashesSafe(CutShort(d, crashes[0]), first, crashes[1..], targets);
    }
  }

  /**
   However many starts are cut short, none of them inside the fatal part of a
   rollback, the next whole start leaves every file as it was, or every managed
   file as staged and every other as it was.
   */
  lemma OldOrStaged(d: Disk, crashes: seq<Crash>, env: Env)
    requires EnvOk(env) && !d.marked && Complete(d, env) && Database in d.live
    requires Survivable(d, crashes, env.targets)
    ensures var s := Start(Crashed(d, crashes), env); var on := Managed(env, Some(StagedManifest(d)));
      if s.restored then Agree(s.disk.live, Staged(d, env), on) && AgreeOutside(s.disk.live, d.live, on)
      else s.disk.live == d.live
  {
    hide Run, Step, Survivable, Crashed, Recoverable;
    assert Safe(d, d, env.targets) by { Refl(d.live, Managed(env, Some(StagedManifest(d)))); }
    CrashesSafe(d, d, crashes, env.targets);
    WholeStart(Crashed(d, crashes), d, env);
  }

  lemma WholeStart(e: Disk, d: Disk, env: Env)
    requires EnvOk(env) && Safe(e, d, env.targets) && Complete(d, env) && Database in d.live
    ensures var s := Start(e, env); var on := Managed(env, Some(StagedManifest(d)));
      if s.restored then Agree(s.disk.live, Staged(d, env), on) && AgreeOutside(s.disk.live, d.live, on)
      else s.disk.live == d.live
  {
    hide Run, Step, Recoverable, Apply, RollBack, CleanUp, Undo;
    if e.marked {
      BackAsBefore(e, env, d.live, StagedManifest(d));
    } else if e.pending.Some? && StagedManifest(e).Scope? {
      hide Start;
      StartIsAtomic(e, env);
      if Complete(e, env) {
        StagedSame(e, d, env);
      }
    }
  }

  lemma StagedSame(e: Disk, d: Disk, env: Env)
    requires Complete(e, env) && Complete(d, env) && Shrunk(e.pending, d.pending)
    ensures StagedManifest(e) == StagedManifest(d) && Staged(e, env) == Staged(d, env)
  {
  }

  /**
   A start cut short once: before the marker is written the restore simply happens
   again, and from then on the next start returns every file to what it was.
   */
  lemma OneCrash(d: Disk, c: Crash, env: Env)
    requires EnvOk(env) && EnvOk(c.env) && c.env.targets == env.targets
    requires !d.marked && Complete(d, env) && Database in d.live && c.at <= |StartOps(d, c.env)|
    ensures var s := Start(CutShort(d, c), env);
      var on := Managed(env, Some(StagedManifest(d)));
      && s.ok && (s.restored <==> c.at < |Backup(c.env, StagedManifest(d))|)
      && (s.restored ==> Agree(s.disk.live, Staged(d, env), on) && AgreeOutside(s.disk.live, d.live, on))
      && (!s.restored ==> s.disk.live == d.live)
  {
    hide Run, Step, Recoverable, Prepare, TlsSaves, Replace, RollBack, CleanUp;
    var m := StagedManifest(d);
    var on := Managed(env, Some(m));
    Refl(d.live, on);
    assert Safe(d, d, env.targets);
    CutWhileApplying(d, d, c);
    var e := CutShort(d, c);
    if c.at < |Backup(c.env, m)| {
      assert StartOps(d, c.env)[..c.at] == Backup(c.env, m)[..c.at];
      BackupCut(d, c.env, m, c.at);
      SameStage(d, e, env);
      StartIsAtomic(e, env);
    } else {
      hide Start;
      BackAsBefore(e, env, d.live, m);
    }
  }

  /**
   After a complete restore the process may change any live file; until the marker is
   removed, a start still returns every managed file to the old installation.
   */
  lemma UseThenRestart(d: Disk, env: Env, next: Env, used: map<File, string>)
    requires EnvOk(env) && EnvOk(next) && next.targets == env.targets
    requires !d.marked && Complete(d, env) && Database in d.live
    ensures var s := Start(Start(d, env).disk.(live := used), next);
      var on := Managed(env, Some(StagedManifest(d)));
      && s.ok && !s.restored && !s.disk.marked
      && Agree(s.disk.live, d.live, on) && AgreeOutside(s.disk.live, used, on)
  {
    hide Run, Step, Start, Recoverable;
    var m := StagedManifest(d);
    StartIsAtomic(d, env);
    var after := Start(d, env).disk;
    StillRecoverable(after, after.(live := used), d.live, Managed(env, Some(m)), m);
    StartRollsBack(after.(live := used), next, d.live, m);
  }

  /** Finalizing never changes a live file; cut short after the marker is gone, the restore stands. */
  lemma FinalizeKeeps(d: Disk, env: Env, k: nat, next: Env)
    requires d.pending.None? && 1 <= k <= |Finalize(env)|
    ensures var s := Start(Run(d, Finalize(env)[..k]).disk, next); s.ok && !s.restored && s.disk.live == d.live
  {
    var rest := RollbackRemoval(env.rollbackItems)[..k - 1];
    assert Finalize(env)[..k] == [Unmark] + rest;
    RunAppend(d, [Unmark], rest);
    RunOne(d, Unmark);
    RollbackRemovalRun(d, env.rollbackItems);
    LiveKept(d.(marked := false), rest);
  }

  // ---------- the limits ----------

  lemma {:induction false} NoDatabaseKept(d: Disk, ops: seq<Op>)
    requires d.rollback.Some? && Database !in d.rollback.value.files && d.marked
    requires forall op :: op in ops ==> op.Unlink? || op.PutBack? || op.CopyBack?
    ensures var e := Run(d, ops).disk; e.rollback.Some? && Database !in e.rollback.value.files && e.marked
    decreases |ops|
  {
    if ops != [] && Step(d, ops[0]).Some? {
      assert ops[0] in ops;
      NoDatabaseKept(Step(d, ops[0]).value, ops[1..]);
    }
  }

  lemma {:induction false} CopiesBackAre(files: seq<File>)
    ensures forall op :: op in CopiesBack(files) ==> op.Unlink? || op.CopyBack?
    decreases |files|
  {
    if files != [] {
      CopiesBackAre(files[1..]);
    }
  }

  lemma MovedAway(d: Disk, env: Env, tls: bool, k: nat)
    requires d.marked && d.rollback.Some? && Database in d.rollback.value.files && 2 <= k <= |RollBack(env, tls)|
    ensures var e := Run(d, RollBack(env, tls)[..k]).disk;
      e.rollback.Some? && Database !in e.rollback.value.files && e.marked
  {
    CopiesBackAre(Targeted(env.recovering, env.targets));
    var rest := RollBack(env, tls)[2..k];
    assert RollBack(env, tls)[..k] == [Unlink(Database), PutBack(Database)] + rest;
    RunPair(d, Database, rest);
    assert forall op :: op in RollBack(env, tls) ==> op.Unlink? || op.PutBack? || op.CopyBack?;
    NoDatabaseKept(ReplaceOne(d, Database).value, rest);
  }

  /** A second crash, inside a rollback, loses the database exactly when it falls in the fatal part. */
  lemma CrashInRollback(d: Disk, first: Disk, c: Crash, env: Env)
    requires EnvOk(env) && EnvOk(c.env) && c.env.targets == env.targets && c.at <= |StartOps(d, c.env)|
    requires d.marked && Safe(d, first, env.targets) && Complete(first, env) && Database in first.live
    ensures Fatal(d, c) <==> Database !in Start(CutShort(d, c), env).disk.live
  {
    hide Run, Step, RollBack, CleanUp, Recoverable, Undo, Apply;
    var m := StagedManifest(first);
    var on := Managed(env, Some(m));
    UseRecoverable(d, first.live, on, m);
    if Fatal(d, c) {
      var back := RollBack(c.env, IncludesTls(Some(m)));
      assert StartOps(d, c.env)[..c.at] == back[..c.at];
      MovedAway(d, c.env, IncludesTls(Some(m)), c.at);
      var e := CutShort(d, c);
      NoDatabase(e, env, IncludesTls(RollbackManifest(e)));
    } else {
      hide Start, CutShort;
      CutWhileRollingBack(d, first, c);
      WholeStart(CutShort(d, c), first, env);
      var s := Start(CutShort(d, c), env);
      if s.restored {
        assert Same(s.disk.live, Staged(first, env), Database);
      }
    }
  }

  /** Every crash from the marker on can be rolled back exactly when there was a database to save. */
  lemma NeedsDatabase(d: Disk, env: Env)
    requires EnvOk(env) && !d.marked && Complete(d, env)
    ensures (forall k: nat :: |Backup(env, StagedManifest(d))| <= k <= |StartOps(d, env)|
                 ==> Start(CutShort(d, Crash(env, k)), env).ok)
            <==> Database in d.live
  {
    hide Run, Step, Recoverable, Prepare, TlsSaves, Replace, Backup, RollBack, CleanUp, Start, CutShort;
    var m := StagedManifest(d);
    if Database in d.live {
      forall k: nat | |Backup(env, m)| <= k <= |StartOps(d, env)| ensures Start(CutShort(d, Crash(env, k)), env).ok {
        OneCrash(d, Crash(env, k), env);
      }
    } else {
      var k := |Backup(env, m)|;
      MarkedWithoutDatabase(d, env);
      assert !Start(CutShort(d, Crash(env, k)), env).ok;
    }
  }

  lemma MarkedWithoutDatabase(d: Disk, env: Env)
    requires EnvOk(env) && !d.marked && Complete(d, env) && Database !in d.live
    ensures |Backup(env, StagedManifest(d))| <= |StartOps(d, env)|
    ensures !Start(CutShort(d, Crash(env, |Backup(env, StagedManifest(d))|)), env).ok
  {
    hide Run, Step, Prepare, TlsSaves, Replace, Backup, RollBack, CleanUp, Recoverable;
    var m := StagedManifest(d);
    var k := |Backup(env, m)|;
    assert StartOps(d, env)[..k] == Backup(env, m);
    BackupRun(d, env, m);
    var e := CutShort(d, Crash(env, k));
    UseRecoverable(e, d.live, Managed(env, Some(m)), m);
    NoDatabase(e, env, IncludesTls(RollbackManifest(e)));
    MarkedIs(e, d.live, Managed(env, Some(m)), m);
  }

  lemma MarkedIs(d: Disk, was: map<File, string>, on: set<File>, m: Manifest)
    requires Recoverable(d, was, on, m)
    ensures d.marked
  {
  }

  // ---------- errors reported while applying ----------

  /** Every live TLS file in scope was saved by the operations before the i-th. */
  ghost predicate TlsSaved(d: Disk, env: Env, i: nat) {
    var m := StagedManifest(d);
    ManifestIncludesTls(m) ==>
      forall f :: f in env.targets && f in d.live ==> f in SavedBefore(env, i - |Prepare(env, m)|)
  }

  function SavedBefore(env: Env, n: int): set<File> {
    var files := Targeted(env.saving, env.targets);
    if n <= 0 then {} else if n <= |files| then SetOf(files[..n]) else SetOf(files)
  }

  lemma ReachedWhileSaving(d: Disk, env: Env, m: Manifest, i: nat)
    requires EnvOk(env) && m.Scope? && |Prepare(env, m)| <= i <= |Prepare(env, m)| + |TlsSaves(env, m)|
    ensures i < |Apply(env, m)|
    ensures var e := Run(d, Apply(env, m)[..i]).disk;
      && e.live == d.live
      && Saving(e, {Database, Wal, Shm} + if ManifestIncludesTls(m) then SavedBefore(env, i - |Prepare(env, m)|) else {}, Some(m))
  {
    hide Run, Step, Prepare, Replace;
    PrepareRun(d, env, m);
    var n := i - |Prepare(env, m)|;
    var files := if ManifestIncludesTls(m) then Targeted(env.saving, env.targets) else [];
    var prepared := Run(d, Prepare(env, m)).disk;
    SavesPrefix(files, n);
    assert Apply(env, m)[..i] == Prepare(env, m) + Saves(files[..n]);
    RunAppend(d, Prepare(env, m), Saves(files[..n]));
    SavesRun(prepared, files[..n], {Database, Wal, Shm}, Some(m));
    assert n == |files| ==> files[..n] == files;
    assert files[..0] == [] && SetOf([]) == {};
  }

  lemma UndoFromSaved(d: Disk, env: Env, m: Manifest, was: map<File, string>, saved: set<File>)
    requires EnvOk(env) && d.live == was && Saving(d, saved, Some(m)) && Database in saved && Database in was
    ensures Undo(d, env).live == was <==> forall f :: f in Managed(env, Some(m)) && f in was ==> f in saved
  {
    hide Run, Step, RollBack, CleanUp;
    var on := Managed(env, Some(m));
    RollBackRun(d, env, Some(m));
    var back := Run(d, RollBack(env, IncludesTls(Some(m)))).disk;
    CleanUpRun(back, env);
    var files := d.rollback.value.files;
    if forall f :: f in on && f in was ==> f in saved {
      forall f | f in on ensures Same(back.live, was, f) {
        assert Same(back.live, files, f);
      }
      Equal(back.live, was, on);
    } else {
      var f :| f in on && f in was && f !in saved;
      assert Same(back.live, files, f);
    }
  }

  /**
   An error reported by an operation before the rollback directory is ready, or from
   the marker on, leaves every live file as it was. In between, while TLS files are
   being saved, it does so exactly when the live ones in scope had all been saved.
   */
  lemma ErrorReturn(d: Disk, env: Env, i: nat)
    requires EnvOk(env) && !d.marked && StagedManifest(d).Scope? && Database in d.live
    requires i < |Apply(env, StagedManifest(d))|
    ensures Faulted(d, env, i).live == d.live <==> i < |Prepare(env, StagedManifest(d))| || TlsSaved(d, env, i)
  {
    hide Run, Step, Prepare, Replace, Undo, RollBack, CleanUp, Apply;
    var m := StagedManifest(d);
    var p := |Prepare(env, m)|;
    TargetedSet(env.saving, env.targets);
    if i < p {
      ApplyStarts(env, m, i);
      BackupCut(d, env, m, i);
    } else if i <= p + |TlsSaves(env, m)| {
      ReachedWhileSaving(d, env, m, i);
      var e := Run(d, Apply(env, m)[..i]).disk;
      UndoFromSaved(e, env, m, d.live, {Database, Wal, Shm} + if ManifestIncludesTls(m) then SavedBefore(env, i - p) else {});
    } else {
      MarkedError(d, env, m, i);
    }
  }

  lemma ApplyStarts(env: Env, m: Manifest, i: nat)
    requires m.Scope? && i < |Prepare(env, m)|
    ensures i < |Backup(env, m)| && Apply(env, m)[..i] == Backup(env, m)[..i]
  {
  }

  lemma MarkedError(d: Disk, env: Env, m: Manifest, i: nat)
    requires EnvOk(env) && !d.marked && m.Scope? && StagedManifest(d) == m && Database in d.live
    requires |Backup(env, m)| <= i < |Apply(env, m)|
    ensures Undo(Run(d, Apply(env, m)[..i]).disk, env).live == d.live
  {
    hide Run, Step, Backup, Replace, Undo, RollBack, CleanUp, Recoverable, Start;
    var on := Managed(env, Some(m));
    var back := Backup(env, m);
    var rest := Replace(env, m)[..i - |back|];
    assert Apply(env, m)[..i] == back + rest;
    BackupRun(d, env, m);
    RunAppend(d, back, rest);
    ReplaceReplaces(env, m);
    var saved := Run(d, back).disk;
    BackupKept(saved, rest, on);
    var e := Run(saved, rest).disk;
    StillRecoverable(saved, e, d.live, on, m);
    UndoRollsBack(e, env, d.live, m);
    BackAsBefore(e, env, d.live, m);
  }
}
