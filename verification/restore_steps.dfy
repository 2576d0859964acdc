/** What each stretch of operations does, whole or cut short by a crash. */
module RestoreSteps {
  import opened Wrappers
  import opened RestoreSpec

  function SetOf(files: seq<File>): set<File> {
    set f | f in files
  }

  lemma {:induction false} RunAppend(d: Disk, a: seq<Op>, b: seq<Op>)
    ensures Run(d, a + b) == if Run(d, a).ok then Run(Run(d, a).disk, b) else Run(d, a)
    decreases |a|
  {
    if a == [] {
      assert a + b == b;
    } else {
      assert (a + b)[1..] == a[1..] + b;
      if Step(d, a[0]).Some? {
        RunAppend(Step(d, a[0]).value, a[1..], b);
      }
    }
  }

  lemma RunOne(d: Disk, op: Op)
    ensures Run(d, [op]) == if Step(d, op).Some? then Outcome(Step(d, op).value, true) else Outcome(d, false)
  {
    if Step(d, op).Some? {
      assert [op][1..] == [];
    }
  }

  // ---------- stretches that leave the live files alone ----------

  predicate LeavesLive(op: Op) {
    op.LoseRollbackItem? || op.DropRollback? || op.MakeRollback? || op.Save? || op.SaveManifest?
  }

  lemma {:induction false} LiveKept(d: Disk, ops: seq<Op>)
    requires forall op :: op in ops ==> LeavesLive(op)
    ensures var e := Run(d, ops).disk; e.live == d.live && e.pending == d.pending && e.marked == d.marked
    decreases |ops|
  {
    if ops != [] && Step(d, ops[0]).Some? {
      assert LeavesLive(ops[0]);
      LiveKept(Step(d, ops[0]).value, ops[1..]);
    }
  }

  lemma {:induction false} RollbackRemovalRun(d: Disk, items: seq<Item>)
    ensures Run(d, RollbackRemoval(items)) == Outcome(d.(rollback := None), true)
    ensures forall op :: op in RollbackRemoval(items) ==> LeavesLive(op)
    decreases |items|
  {
    if items != [] {
      RollbackRemovalRun(Step(d, LoseRollbackItem(items[0])).value, items[1..]);
    } else {
      RunOne(d, DropRollback);
    }
  }

  lemma {:induction false} PendingRemovalRun(d: Disk, items: seq<Item>)
    ensures Run(d, PendingRemoval(items)) == Outcome(d.(pending := None), true)
    decreases |items|
  {
    if items != [] {
      PendingRemovalRun(Step(d, LosePendingItem(items[0])).value, items[1..]);
    } else {
      RunOne(d, DropPending);
    }
  }

  // ---------- saving ----------

  /** The rollback directory holds exactly the live files of a set. */
  ghost predicate Holds(dir: Dir, live: map<File, string>, saved: set<File>) {
    && (forall f :: f in dir.files <==> f in saved && f in live)
    && (forall f :: f in dir.files ==> dir.files[f] == live[f])
  }

  ghost predicate Saving(d: Disk, saved: set<File>, manifest: Option<Manifest>) {
    d.rollback.Some? && Holds(d.rollback.value, d.live, saved) && d.rollback.value.manifest == manifest
  }

  lemma {:induction false} SavesRun(d: Disk, files: seq<File>, saved: set<File>, manifest: Option<Manifest>)
    requires Saving(d, saved, manifest)
    ensures Run(d, Saves(files)).ok
    ensures var e := Run(d, Saves(files)).disk;
      && Saving(e, saved + SetOf(files), manifest)
      && e.live == d.live && e.pending == d.pending && e.marked == d.marked
    decreases |files|
  {
    if files == [] {
      assert saved + SetOf(files) == saved;
    } else {
      var f := files[0];
      var next := Step(d, Save(f)).value;
      assert Saving(next, saved + {f}, manifest);
      SavesRun(next, files[1..], saved + {f}, manifest);
      assert saved + {f} + SetOf(files[1..]) == saved + SetOf(files);
    }
  }

  lemma {:induction false} SavesPrefix(files: seq<File>, k: nat)
    requires k <= |files|
    ensures Saves(files)[..k] == Saves(files[..k])
    decreases |files|
  {
    if k > 0 {
      SavesPrefix(files[1..], k - 1);
      assert files[..k][1..] == files[1..][..k - 1];
    }
  }

  lemma {:induction false} SavesLeave(files: seq<File>)
    ensures forall op :: op in Saves(files) ==> LeavesLive(op)
    decreases |files|
  {
    if files != [] {
      SavesLeave(files[1..]);
    }
  }

  lemma {:induction false} TargetedSet(order: seq<File>, targets: set<File>)
    requires forall f :: f in targets ==> f in order
    ensures SetOf(Targeted(order, targets)) == targets
    decreases |order|
  {
    TargetedMembers(order, targets);
  }

  lemma {:induction false} TargetedMembers(order: seq<File>, targets: set<File>)
    ensures forall f :: f in Targeted(order, targets) <==> f in order && f in targets
    decreases |order|
  {
    if order != [] {
      TargetedMembers(order[1..], targets);
    }
  }

  lemma PrepareRun(d: Disk, env: Env, m: Manifest)
    ensures Run(d, Prepare(env, m)).ok
    ensures var e := Run(d, Prepare(env, m)).disk;
      Saving(e, {Database, Wal, Shm}, Some(m)) && e.live == d.live && e.pending == d.pending && e.marked == d.marked
    ensures forall op :: op in Prepare(env, m) ==> LeavesLive(op)
  {
    var head, tail := RollbackRemoval(env.rollbackItems), [MakeRollback] + Saves([Database, Wal, Shm]) + [SaveManifest(m)];
    RollbackRemovalRun(d, env.rollbackItems);
    SavedList();
    assert Prepare(env, m) == head + tail;
    RunAppend(d, head, tail);
    FreshBackup(d.(rollback := None), m);
    SavesLeave([Database, Wal, Shm]);
  }

  lemma SavedList()
    ensures Saves([Database, Wal, Shm]) == [Save(Database), Save(Wal), Save(Shm)]
  {
    assert [Database, Wal, Shm][1..] == [Wal, Shm];
    assert [Wal, Shm][1..] == [Shm];
    assert [Shm][1..] == [];
  }

  lemma FreshBackup(d: Disk, m: Manifest)
    ensures var r := Run(d, [MakeRollback] + Saves([Database, Wal, Shm]) + [SaveManifest(m)]);
      && r.ok && Saving(r.disk, {Database, Wal, Shm}, Some(m))
      && r.disk.live == d.live && r.disk.pending == d.pending && r.disk.marked == d.marked
  {
    var made := Step(d, MakeRollback).value;
    var saves := Saves([Database, Wal, Shm]);
    RunOne(d, MakeRollback);
    RunAppend(d, [MakeRollback], saves);
    RunAppend(d, [MakeRollback] + saves, [SaveManifest(m)]);
    SavesRun(made, [Database, Wal, Shm], {}, None);
    var saved := Run(made, saves).disk;
    RunOne(saved, SaveManifest(m));
    assert {} + SetOf([Database, Wal, Shm]) == {Database, Wal, Shm};
  }

  /** With its backup made and marked, a disk can always return to the old installation. */
  ghost predicate Recoverable(d: Disk, was: map<File, string>, managed: set<File>, m: Manifest) {
    d.marked && d.rollback.Some? && d.rollback.value.manifest == Some(m) && Agree(d.rollback.value.files, was, managed)
  }

  lemma TlsSavesRun(d: Disk, env: Env, m: Manifest)
    requires EnvOk(env) && Saving(d, {Database, Wal, Shm}, Some(m))
    ensures Run(d, TlsSaves(env, m)).ok
    ensures var e := Run(d, TlsSaves(env, m)).disk;
      Saving(e, Managed(env, Some(m)), Some(m)) && e.live == d.live && e.pending == d.pending && e.marked == d.marked
    ensures forall op :: op in TlsSaves(env, m) ==> LeavesLive(op)
  {
    if ManifestIncludesTls(m) {
      var files := Targeted(env.saving, env.targets);
      TargetedSet(env.saving, env.targets);
      SavesRun(d, files, {Database, Wal, Shm}, Some(m));
      SavesLeave(files);
    }
  }

  lemma BackupRun(d: Disk, env: Env, m: Manifest)
    requires EnvOk(env)
    ensures Run(d, Backup(env, m)).ok
    ensures var e := Run(d, Backup(env, m)).disk;
      e.live == d.live && e.pending == d.pending && Recoverable(e, d.live, Managed(env, Some(m)), m)
  {
    hide Prepare, TlsSaves, Step;
    PrepareRun(d, env, m);
    var prepared := Run(d, Prepare(env, m)).disk;
    TlsSavesRun(prepared, env, m);
    RunAppend(d, Prepare(env, m), TlsSaves(env, m));
    RunAppend(d, Prepare(env, m) + TlsSaves(env, m), [Mark]);
    MarkRun(Run(prepared, TlsSaves(env, m)).disk);
  }

  lemma MarkRun(d: Disk)
    ensures Run(d, [Mark]) == Outcome(d.(marked := true), true)
  {
    RunOne(d, Mark);
  }

  /** Cut short before the marker is written, the backup has changed no live file. */
  lemma BackupCut(d: Disk, env: Env, m: Manifest, k: nat)
    requires EnvOk(env) && k < |Backup(env, m)|
    ensures var e := Run(d, Backup(env, m)[..k]).disk;
      e.live == d.live && e.pending == d.pending && e.marked == d.marked
  {
    hide Prepare, TlsSaves, Step, Run;
    PrepareRun(d, env, m);
    TlsSavesRun(Run(d, Prepare(env, m)).disk, env, m);
    assert Backup(env, m)[..k] == (Prepare(env, m) + TlsSaves(env, m))[..k];
    LiveKept(d, Backup(env, m)[..k]);
  }

  // ---------- replacing ----------

  /** The operations after the marker: they touch managed live files and the staged directory only. */
  predicate Replaces(op: Op, managed: set<File>) {
    match op
    case Unlink(f) => f in managed
    case InstallTls(f) => f in managed
    case Install => Database in managed
    case LosePendingItem(_) => true
    case DropPending => true
    case _ => false
  }

  lemma {:induction false} BackupKept(d: Disk, ops: seq<Op>, managed: set<File>)
    requires forall op :: op in ops ==> Replaces(op, managed)
    ensures var e := Run(d, ops).disk;
      e.rollback == d.rollback && e.marked == d.marked && AgreeOutside(e.live, d.live, managed)
    decreases |ops|
  {
    if ops != [] && Step(d, ops[0]).Some? {
      assert Replaces(ops[0], managed);
      BackupKept(Step(d, ops[0]).value, ops[1..], managed);
    }
  }

  lemma {:induction false} UnlinksRun(d: Disk, files: seq<File>)
    ensures Run(d, Unlinks(files)) == Outcome(d.(live := d.live - SetOf(files)), true)
    ensures forall op :: op in Unlinks(files) <==> op.Unlink? && op.file in files
    decreases |files|
  {
    if files == [] {
      assert d.live - SetOf(files) == d.live;
    } else {
      UnlinksRun(Step(d, Unlink(files[0])).value, files[1..]);
      assert d.live - {files[0]} - SetOf(files[1..]) == d.live - SetOf(files);
    }
  }

  lemma {:induction false} InstallsAre(files: seq<File>)
    ensures forall op :: op in Installs(files) <==> op.InstallTls? && op.file in files
    decreases |files|
  {
    if files != [] {
      InstallsAre(files[1..]);
    }
  }

  lemma {:induction false} PendingRemovalIs(items: seq<Item>)
    ensures forall op :: op in PendingRemoval(items) ==> op.LosePendingItem? || op.DropPending?
    decreases |items|
  {
    if items != [] {
      PendingRemovalIs(items[1..]);
    }
  }

  lemma ReplaceReplaces(env: Env, m: Manifest)
    requires EnvOk(env) && m.Scope?
    ensures forall op :: op in Replace(env, m) ==> Replaces(op, Managed(env, Some(m)))
  {
    hide Run, Step;
    UnlinksRun(Disk(map[], None, None, false), Targeted(env.removing, env.targets));
    InstallsAre(Targeted(m.files, env.targets));
    PendingRemovalIs(env.pendingItems);
    TargetedMembers(env.removing, env.targets);
    TargetedMembers(m.files, env.targets);
  }

  /** Installing TLS files succeeds exactly when each was staged. */
  lemma {:induction false} InstallsOk(d: Disk, files: seq<File>)
    requires d.pending.Some?
    ensures Run(d, Installs(files)).ok <==> SetOf(files) <= d.pending.value.files.Keys
    decreases |files|
  {
    if files != [] {
      assert SetOf(files) == {files[0]} + SetOf(files[1..]);
      if files[0] in d.pending.value.files {
        InstallsOk(Step(d, InstallTls(files[0])).value, files[1..]);
      }
    }
  }

  /** Each installed TLS file is the staged one. */
  lemma {:induction false} InstallsRun(d: Disk, files: seq<File>)
    requires d.pending.Some? && SetOf(files) <= d.pending.value.files.Keys
    ensures var e := Run(d, Installs(files)).disk;
      && e == d.(live := e.live)
      && Agree(e.live, d.pending.value.files, SetOf(files)) && AgreeOutside(e.live, d.live, SetOf(files))
    decreases |files|
  {
    if files != [] {
      assert SetOf(files) == {files[0]} + SetOf(files[1..]);
      assert files[0] in SetOf(files);
      InstallsRun(Step(d, InstallTls(files[0])).value, files[1..]);
    }
  }

  // ---------- rolling back ----------

  lemma {:induction false} CopiesBackRun(d: Disk, files: seq<File>)
    requires d.rollback.Some?
    ensures Run(d, CopiesBack(files)).ok
    ensures var e := Run(d, CopiesBack(files)).disk;
      && e == d.(live := e.live)
      && Agree(e.live, d.rollback.value.files, SetOf(files)) && AgreeOutside(e.live, d.live, SetOf(files))
    decreases |files|
  {
    if files != [] {
      var f := files[0];
      var next := Step(Step(d, Unlink(f)).value, CopyBack(f)).value;
      CopiesBackRun(next, files[1..]);
      assert SetOf(files) == {f} + SetOf(files[1..]);
      assert CopiesBack(files)[1..][1..] == CopiesBack(files[1..]);
      assert Run(d, CopiesBack(files)) == Run(next, CopiesBack(files[1..]));
    }
  }

  function ReplaceOne(d: Disk, f: File): Option<Disk> {
    Step(Step(d, Unlink(f)).value, PutBack(f))
  }

  lemma RunPair(d: Disk, f: File, rest: seq<Op>)
    ensures Run(d, [Unlink(f), PutBack(f)] + rest) ==
      if ReplaceOne(d, f).Some? then Run(ReplaceOne(d, f).value, rest) else Outcome(Step(d, Unlink(f)).value, false)
  {
    var next := Step(d, Unlink(f)).value;
    var ops := [Unlink(f), PutBack(f)] + rest;
    assert ops[1..] == [PutBack(f)] + rest;
    assert ([PutBack(f)] + rest)[1..] == rest;
  }

  function AfterDatabase(d: Disk): Option<Disk> {
    match ReplaceOne(d, Database)
    case None => None
    case Some(a) =>
      match ReplaceOne(a, Wal)
      case None => None
      case Some(b) => ReplaceOne(b, Shm)
  }

  lemma ReplacedOne(d: Disk, f: File)
    requires d.rollback.Some?
    ensures ReplaceOne(d, f).Some? <==> f in d.rollback.value.files || f != Database
    ensures ReplaceOne(d, f).Some? ==>
      var e := ReplaceOne(d, f).value;
      && e == d.(live := e.live, rollback := e.rollback)
      && e.rollback.Some? && e.rollback.value.manifest == d.rollback.value.manifest
      && Same(e.live, d.rollback.value.files, f) && AgreeOutside(e.live, d.live, {f})
      && AgreeOutside(e.rollback.value.files, d.rollback.value.files, {f})
  {
  }

  lemma DatabaseBack(d: Disk)
    requires d.rollback.Some?
    ensures AfterDatabase(d).Some? <==> Database in d.rollback.value.files
    ensures AfterDatabase(d).Some? ==>
      var e := AfterDatabase(d).value;
      && e == d.(live := e.live, rollback := e.rollback)
      && e.rollback.Some? && e.rollback.value.manifest == d.rollback.value.manifest
      && Agree(e.live, d.rollback.value.files, {Database, Wal, Shm}) && AgreeOutside(e.live, d.live, {Database, Wal, Shm})
      && AgreeOutside(e.rollback.value.files, d.rollback.value.files, {Database, Wal, Shm})
  {
    hide ReplaceOne;
    ReplacedOne(d, Database);
    if Database in d.rollback.value.files {
      var a := ReplaceOne(d, Database).value;
      ReplacedOne(a, Wal);
      var b := ReplaceOne(a, Wal).value;
      ReplacedOne(b, Shm);
      var e := ReplaceOne(b, Shm).value;
      ThreeApart(a.live, b.live, e.live, d.live);
      ThreeApart(a.rollback.value.files, b.rollback.value.files, e.rollback.value.files, d.rollback.value.files);
      assert Same(a.rollback.value.files, d.rollback.value.files, Wal);
      assert Same(a.rollback.value.files, d.rollback.value.files, Shm);
      assert Same(b.rollback.value.files, a.rollback.value.files, Shm);
    }
  }

  lemma ThreeApart(a: map<File, string>, b: map<File, string>, e: map<File, string>, d: map<File, string>)
    requires AgreeOutside(a, d, {Database}) && AgreeOutside(b, a, {Wal}) && AgreeOutside(e, b, {Shm})
    ensures AgreeOutside(e, d, {Database, Wal, Shm})
    ensures Same(e, a, Database) && Same(e, b, Wal)
  {
    assert Same(b, a, Database) && Same(e, b, Database) && Same(e, b, Wal);
    forall f | f !in {Database, Wal, Shm} ensures Same(e, d, f) {
      assert Same(a, d, f) && Same(b, a, f) && Same(e, b, f);
    }
  }

  lemma RollBackDatabase(d: Disk, env: Env, tls: bool)
    requires d.rollback.Some? && Database in d.rollback.value.files
    ensures AfterDatabase(d).Some?
    ensures Run(d, RollBack(env, tls))
         == Run(AfterDatabase(d).value, if tls then CopiesBack(Targeted(env.recovering, env.targets)) else [])
  {
    hide Step, Run, CopiesBack, Targeted, ReplaceOne;
    DatabaseBack(d);
    var last := if tls then CopiesBack(Targeted(env.recovering, env.targets)) else [];
    var a := ReplaceOne(d, Database).value;
    var b := ReplaceOne(a, Wal).value;
    RunPair(d, Database, [Unlink(Wal), PutBack(Wal), Unlink(Shm), PutBack(Shm)] + last);
    RunPair(a, Wal, [Unlink(Shm), PutBack(Shm)] + last);
    RunPair(b, Shm, last);
    assert RollBack(env, tls)
        == [Unlink(Database), PutBack(Database)] + ([Unlink(Wal), PutBack(Wal), Unlink(Shm), PutBack(Shm)] + last);
    assert [Unlink(Wal), PutBack(Wal), Unlink(Shm), PutBack(Shm)] + last
        == [Unlink(Wal), PutBack(Wal)] + ([Unlink(Shm), PutBack(Shm)] + last);
  }

  /**
   Rolling back puts every managed file back to what the directory holds, absent ones
   included, and succeeds exactly when the directory holds a database.
   */
  lemma RollBackRun(d: Disk, env: Env, m: Option<Manifest>)
    requires EnvOk(env) && d.rollback.Some?
    ensures Run(d, RollBack(env, IncludesTls(m))).ok <==> Database in d.rollback.value.files
    ensures var r := Run(d, RollBack(env, IncludesTls(m)));
      r.ok ==>
        && r.disk.pending == d.pending && r.disk.marked == d.marked
        && Agree(r.disk.live, d.rollback.value.files, Managed(env, m)) && AgreeOutside(r.disk.live, d.live, Managed(env, m))
  {
    hide Step, ReplaceOne, AfterDatabase;
    if Database !in d.rollback.value.files {
      NoDatabase(d, env, IncludesTls(m));
    } else if IncludesTls(m) {
      RollBackTls(d, env);
    } else {
      DatabaseBack(d);
      RollBackDatabase(d, env, false);
    }
  }

  lemma RollBackTls(d: Disk, env: Env)
    requires EnvOk(env) && d.rollback.Some? && Database in d.rollback.value.files
    ensures var r := Run(d, RollBack(env, true));
      && r.ok && r.disk.pending == d.pending && r.disk.marked == d.marked
      && Agree(r.disk.live, d.rollback.value.files, {Database, Wal, Shm} + env.targets)
      && AgreeOutside(r.disk.live, d.live, {Database, Wal, Shm} + env.targets)
  {
    hide Step, ReplaceOne, AfterDatabase, Run, RollBack;
    DatabaseBack(d);
    RollBackDatabase(d, env, true);
    TargetedSet(env.recovering, env.targets);
    CopiesBackRun(AfterDatabase(d).value, Targeted(env.recovering, env.targets));
    BackTogether(AfterDatabase(d).value, d, Run(d, RollBack(env, true)).disk, env.targets);
  }

  lemma BackTogether(mid: Disk, d: Disk, e: Disk, targets: set<File>)
    requires d.rollback.Some? && mid.rollback.Some?
    requires forall f :: f in targets ==> IsTls(f)
    requires Agree(mid.live, d.rollback.value.files, {Database, Wal, Shm})
    requires AgreeOutside(mid.live, d.live, {Database, Wal, Shm})
    requires AgreeOutside(mid.rollback.value.files, d.rollback.value.files, {Database, Wal, Shm})
    requires Agree(e.live, mid.rollback.value.files, targets) && AgreeOutside(e.live, mid.live, targets)
    ensures Agree(e.live, d.rollback.value.files, {Database, Wal, Shm} + targets)
    ensures AgreeOutside(e.live, d.live, {Database, Wal, Shm} + targets)
  {
  }

  lemma NoDatabase(d: Disk, env: Env, tls: bool)
    requires d.rollback.None? || Database !in d.rollback.value.files
    ensures Run(d, RollBack(env, tls)) == Outcome(d.(live := d.live - {Database}), false)
  {
    var last := if tls then CopiesBack(Targeted(env.recovering, env.targets)) else [];
    var rest := [Unlink(Wal), PutBack(Wal), Unlink(Shm), PutBack(Shm)] + last;
    assert RollBack(env, tls) == [Unlink(Database), PutBack(Database)] + rest;
    RunPair(d, Database, rest);
  }

  lemma CleanUpRun(d: Disk, env: Env)
    ensures Run(d, CleanUp(env)) == Outcome(d.(marked := false, rollback := None, pending := None), true)
  {
    var head, tail := RollbackRemoval(env.rollbackItems), PendingRemoval(env.pendingItems);
    RunOne(d, Unmark);
    RunAppend(d, [Unmark], head);
    RunAppend(d, [Unmark] + head, tail);
    RollbackRemovalRun(d.(marked := false), env.rollbackItems);
    PendingRemovalRun(d.(marked := false, rollback := None), env.pendingItems);
  }
}
