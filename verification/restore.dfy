/** Start-up restore as it runs: the files beside the database, changed one operation at a time. */
module BackupRestore {
  import opened Wrappers
  import opened RestoreSpec
  import opened RestoreSteps

  lemma {:induction false} TargetedTail(order: seq<File>, targets: set<File>, k: nat)
    requires k < |order|
    ensures Targeted(order[k..], targets)
         == if order[k] in targets then [order[k]] + Targeted(order[k + 1..], targets) else Targeted(order[k + 1..], targets)
  {
    assert order[k..][1..] == order[k + 1..];
  }

  class RestoreFiles {
    var live: map<File, string>
    var pending: Option<Dir>
    var rollback: Option<Dir>
    var marked: bool

    constructor (disk: Disk)
      ensures View() == disk
    {
      live, pending, rollback, marked := disk.live, disk.pending, disk.rollback, disk.marked;
    }

    ghost function View(): Disk
      reads this
    {
      Disk(live, pending, rollback, marked)
    }

    method Remove(f: File)
      modifies this`live
      ensures live == old(live) - {f}
    {
      live := live - {f};
    }

    /** Copies a live file, if it is there, into the rollback directory. */
    method SaveFile(f: File)
      requires rollback.Some?
      modifies this`rollback
      ensures Step(old(View()), Save(f)) == Some(View()) && rollback.Some?
    {
      if f in live {
        rollback := Some(rollback.value.(files := rollback.value.files[f := live[f]]));
      }
    }

    method RemoveRollback(items: seq<Item>)
      modifies this`rollback
      ensures View() == Run(old(View()), RollbackRemoval(items)).disk
    {
      ghost var start := View();
      RollbackRemovalRun(start, items);
      for i := 0 to |items|
        invariant View() == start.(rollback := rollback)
      {
        rollback := Lost(rollback, items[i]);
      }
      rollback := None;
    }

    method RemovePending(items: seq<Item>)
      modifies this`pending
      ensures View() == Run(old(View()), PendingRemoval(items)).disk
    {
      ghost var start := View();
      PendingRemovalRun(start, items);
      for i := 0 to |items|
        invariant View() == start.(pending := pending)
      {
        pending := Lost(pending, items[i]);
      }
      pending := None;
    }

    /** Puts the database and its sidecars back by moving them, and TLS files, if in scope, by copying. */
    method RollbackRestoreFiles(env: Env) returns (ok: bool)
      modifies this`live, this`rollback
      ensures Outcome(View(), ok) == Run(old(View()), RollBack(env, IncludesTls(RollbackManifest(old(View())))))
    {
      hide Step, Run, CopiesBack, Targeted;
      ghost var start := View();
      ghost var tls := IncludesTls(RollbackManifest(start));
      ghost var last := if tls then CopiesBack(Targeted(env.recovering, env.targets)) else [];
      var files := [Database, Wal, Shm];
      assert RollBack(env, tls) == PutsBack(files) + last by { PutsBackList(); }
      for i := 0 to 3
        invariant RollbackManifest(View()) == RollbackManifest(start)
        invariant Run(start, RollBack(env, tls)) == Run(View(), PutsBack(files[i..]) + last)
      {
        var f := files[i];
        PutsBackTail(files, i, last);
        RunPair(View(), f, PutsBack(files[i + 1..]) + last);
        PairIs(View(), f);
        Remove(f);
        if rollback.Some? && f in rollback.value.files {
          live := live[f := rollback.value.files[f]];
          rollback := Some(rollback.value.(files := rollback.value.files - {f}));
        } else if f == Database {
          return false;
        }
      }
      assert PutsBack(files[3..]) + last == last;
      if IncludesTls(if rollback.Some? then rollback.value.manifest else None) {
        CopyTlsBack(env, start);
      } else {
        EmptyRun(View());
      }
      return true;
    }

    method CopyTlsBack(env: Env, ghost start: Disk)
      modifies this`live
      ensures Outcome(View(), true) == Run(old(View()), CopiesBack(Targeted(env.recovering, env.targets)))
      ensures View() == old(View()).(live := live)
    {
      hide Step, Run, CopiesBack, Targeted;
      ghost var ops := CopiesBack(Targeted(env.recovering, env.targets));
      assert env.recovering[0..] == env.recovering;
      for i := 0 to |env.recovering|
        invariant View() == old(View()).(live := live)
        invariant Run(old(View()), ops) == Run(View(), CopiesBack(Targeted(env.recovering[i..], env.targets)))
      {
        TargetedTail(env.recovering, env.targets, i);
        var f := env.recovering[i];
        if f in env.targets {
          CopyPair(View(), f, Targeted(env.recovering[i + 1..], env.targets));
          Remove(f);
          if rollback.Some? && f in rollback.value.files {
            live := live[f := rollback.value.files[f]];
          }
        }
      }
      assert env.recovering[|env.recovering|..] == [];
      NothingTargeted(env.targets);
      EmptyRun(View());
    }

    method CleanUpFiles(env: Env)
      modifies this
      ensures View() == Run(old(View()), CleanUp(env)).disk
      ensures !marked && rollback.None? && pending.None? && live == old(live)
    {
      hide Run, Step;
      CleanUpRun(View(), env);
      RollbackRemovalRun(View().(marked := false), env.rollbackItems);
      PendingRemovalRun(View().(marked := false, rollback := None), env.pendingItems);
      marked := false;
      RemoveRollback(env.rollbackItems);
      RemovePending(env.pendingItems);
    }

    method SaveEverything(env: Env, m: Manifest)
      modifies this`rollback, this`marked
      ensures Outcome(View(), true) == Run(old(View()), Backup(env, m))
    {
      hide Step, Run, Targeted, Saves;
      ghost var start := View();
      ghost var saves := TlsSaves(env, m) + [Mark];
      BackupParts(start, env, m);
      RemoveRollback(env.rollbackItems);
      rollback := Some(Dir(map[], None));
      ghost var four := [SaveManifest(m)] + saves;
      ghost var three := [Save(Shm)] + four;
      ghost var two := [Save(Wal)] + three;
      RunNext(start.(rollback := None), MakeRollback, [Save(Database)] + two);
      MakeIs(start.(rollback := None));
      RunNext(View(), Save(Database), two);
      SaveFile(Database);
      RunNext(View(), Save(Wal), three);
      SaveFile(Wal);
      RunNext(View(), Save(Shm), four);
      SaveFile(Shm);
      RunNext(View(), SaveManifest(m), saves);
      ManifestIs(View(), m);
      rollback := Some(rollback.value.(manifest := Some(m)));
      if ManifestIncludesTls(m) {
        SaveTls(env, m);
      } else {
        assert saves == [Mark];
      }
      MarkRun(View());
      marked := true;
    }

    method SaveTls(env: Env, m: Manifest)
      requires rollback.Some? && ManifestIncludesTls(m)
      modifies this`rollback
      ensures rollback.Some? && Run(old(View()), TlsSaves(env, m) + [Mark]) == Run(View(), [Mark])
    {
      hide Step, Run, Targeted, Saves;
      assert env.saving[0..] == env.saving;
      for i := 0 to |env.saving|
        invariant rollback.Some?
        invariant Run(old(View()), TlsSaves(env, m) + [Mark]) == Run(View(), Saves(Targeted(env.saving[i..], env.targets)) + [Mark])
      {
        TargetedTail(env.saving, env.targets, i);
        if env.saving[i] in env.targets {
          SavesTail(env.saving[i], Targeted(env.saving[i + 1..], env.targets));
          RunNext(View(), Save(env.saving[i]), Saves(Targeted(env.saving[i + 1..], env.targets)) + [Mark]);
          SaveFile(env.saving[i]);
        }
      }
      assert env.saving[|env.saving|..] == [];
      NothingTargeted(env.targets);
      assert Saves([]) + [Mark] == [Mark];
    }

    /** Replaces the live files by the staged ones; the first missing one ends it. */
    method ReplaceFiles(env: Env, m: Manifest) returns (ok: bool)
      requires m.Scope?
      modifies this`live, this`pending
      ensures Outcome(View(), ok) == Run(old(View()), Replace(env, m))
    {
      hide Step, Run, Targeted, Unlinks, Installs, PendingRemoval;
      ghost var start := View();
      ghost var end := TlsInstalls(env, m) + PendingRemoval(env.pendingItems);
      ghost var mid := [Unlink(Database), Unlink(Wal), Unlink(Shm), Install] + end;
      assert Replace(env, m) == TlsUnlinks(env, m) + mid;
      if ManifestIncludesTls(m) {
        RemoveTls(env, m, mid);
      } else {
        assert TlsUnlinks(env, m) + mid == mid;
      }
      Nested(Unlink(Database), Unlink(Wal), Unlink(Shm), Install, end);
      UnlinkIs(View(), Database);
      RunNext(View(), Unlink(Database), [Unlink(Wal)] + ([Unlink(Shm)] + ([Install] + end)));
      Remove(Database);
      UnlinkIs(View(), Wal);
      RunNext(View(), Unlink(Wal), [Unlink(Shm)] + ([Install] + end));
      Remove(Wal);
      UnlinkIs(View(), Shm);
      RunNext(View(), Unlink(Shm), [Install] + end);
      Remove(Shm);
      RunNext(View(), Install, end);
      InstallIs(View());
      if pending.None? || Database !in pending.value.files {
        return false;
      }
      live := live[Database := pending.value.files[Database]];
      pending := Some(pending.value.(files := pending.value.files - {Database}));
      if ManifestIncludesTls(m) {
        ok := InstallTlsFiles(env, m);
        if !ok {
          return false;
        }
      } else {
        assert end == PendingRemoval(env.pendingItems);
      }
      PendingRemovalRun(View(), env.pendingItems);
      RemovePending(env.pendingItems);
      return true;
    }

    method RemoveTls(env: Env, m: Manifest, ghost rest: seq<Op>)
      requires ManifestIncludesTls(m)
      modifies this`live
      ensures Run(old(View()), TlsUnlinks(env, m) + rest) == Run(View(), rest)
    {
      hide Step, Run, Targeted, Unlinks;
      assert env.removing[0..] == env.removing;
      for i := 0 to |env.removing|
        invariant Run(old(View()), TlsUnlinks(env, m) + rest) == Run(View(), Unlinks(Targeted(env.removing[i..], env.targets)) + rest)
      {
        TargetedTail(env.removing, env.targets, i);
        if env.removing[i] in env.targets {
          UnlinksTail(env.removing[i], Targeted(env.removing[i + 1..], env.targets), rest);
          RunNext(View(), Unlink(env.removing[i]), Unlinks(Targeted(env.removing[i + 1..], env.targets)) + rest);
          UnlinkIs(View(), env.removing[i]);
          Remove(env.removing[i]);
        }
      }
      assert env.removing[|env.removing|..] == [];
      NothingTargeted(env.targets);
      assert Unlinks([]) + rest == rest;
    }

    method InstallTlsFiles(env: Env, m: Manifest) returns (ok: bool)
      requires m.Scope? && ManifestIncludesTls(m) && pending.Some?
      modifies this`live
      ensures Run(old(View()), TlsInstalls(env, m) + PendingRemoval(env.pendingItems))
           == if ok then Run(View(), PendingRemoval(env.pendingItems)) else Outcome(View(), false)
    {
      hide Step, Run, Targeted, Installs, PendingRemoval;
      ghost var end := PendingRemoval(env.pendingItems);
      assert m.files[0..] == m.files;
      for i := 0 to |m.files|
        invariant Run(old(View()), TlsInstalls(env, m) + end) == Run(View(), Installs(Targeted(m.files[i..], env.targets)) + end)
      {
        TargetedTail(m.files, env.targets, i);
        var f := m.files[i];
        if f in env.targets {
          InstallsTail(f, Targeted(m.files[i + 1..], env.targets), end);
          RunNext(View(), InstallTls(f), Installs(Targeted(m.files[i + 1..], env.targets)) + end);
          InstallTlsIs(View(), f);
          if f !in pending.value.files {
            return false;
          }
          live := live[f := pending.value.files[f]];
        }
      }
      assert m.files[|m.files|..] == [];
      NothingTargeted(env.targets);
      assert Installs([]) + end == end;
      return true;
    }

    /** What a start does about restores; restored says that a staged one was put in place. */
    method ApplyPendingRestore(env: Env) returns (ok: bool, restored: bool)
      modifies this
      ensures Started(View(), ok, restored) == Start(old(View()), env)
    {
      hide Step, Run, RollBack, CleanUp, Backup, Replace;
      if marked {
        ok := RollbackRestoreFiles(env);
        if ok {
          CleanUpFiles(env);
        }
        return ok, false;
      }
      if pending.None? {
        return true, false;
      }
      if pending.value.manifest.None? || pending.value.manifest.value.Unreadable? {
        return false, false;
      }
      var m := pending.value.manifest.value;
      RunAppend(View(), Backup(env, m), Replace(env, m));
      SaveEverything(env, m);
      ok := ReplaceFiles(env, m);
      if ok {
        return true, true;
      }
      var ignored := RollbackRestoreFiles(env);
      CleanUpFiles(env);
      return false, false;
    }

    /** The restored database could not be opened: everything goes back at once. */
    method RollbackAppliedRestore(env: Env) returns (ok: bool)
      modifies this
      ensures Outcome(View(), ok)
           == Run(old(View()), RollBack(env, IncludesTls(RollbackManifest(old(View())))) + Finalize(env))
    {
      hide Step, Run, RollBack, RollbackRemoval;
      ghost var start := View();
      ghost var tls := IncludesTls(RollbackManifest(start));
      RunAppend(start, RollBack(env, tls), Finalize(env));
      ok := RollbackRestoreFiles(env);
      if ok {
        FinalizeAppliedRestore(env);
      }
    }

    method FinalizeAppliedRestore(env: Env)
      modifies this
      ensures Outcome(View(), true) == Run(old(View()), Finalize(env))
      ensures live == old(live) && pending == old(pending) && !marked && rollback.None?
    {
      hide Step, Run, RollbackRemoval;
      RollbackRemovalRun(View().(marked := false), env.rollbackItems);
      RunNext(View(), Unmark, RollbackRemoval(env.rollbackItems));
      UnmarkIs(View());
      marked := false;
      RemoveRollback(env.rollbackItems);
    }
  }

  // ---------- single operations ----------

  lemma RunNext(d: Disk, op: Op, rest: seq<Op>)
    ensures Run(d, [op] + rest) == if Step(d, op).Some? then Run(Step(d, op).value, rest) else Outcome(d, false)
  {
    assert ([op] + rest)[1..] == rest;
  }

  lemma Nested(a: Op, b: Op, c: Op, e: Op, rest: seq<Op>)
    ensures [a, b, c, e] + rest == [a] + ([b] + ([c] + ([e] + rest)))
  {
  }

  lemma EmptyRun(d: Disk)
    ensures Run(d, []) == Outcome(d, true)
    ensures Run(d, CopiesBack([])) == Outcome(d, true)
  {
  }

  lemma NothingTargeted(targets: set<File>)
    ensures Targeted([], targets) == [] && Saves([]) == [] && Unlinks([]) == [] && Installs([]) == []
  {
  }

  lemma UnlinkIs(d: Disk, f: File)
    ensures Step(d, Unlink(f)) == Some(d.(live := d.live - {f}))
  {
  }

  lemma UnmarkIs(d: Disk)
    ensures Step(d, Unmark) == Some(d.(marked := false))
  {
  }

  lemma MakeIs(d: Disk)
    ensures Step(d, MakeRollback) == Some(d.(rollback := Some(Dir(map[], None))))
  {
  }

  lemma ManifestIs(d: Disk, m: Manifest)
    requires d.rollback.Some?
    ensures Step(d, SaveManifest(m)) == Some(d.(rollback := Some(d.rollback.value.(manifest := Some(m)))))
  {
  }

  lemma InstallIs(d: Disk)
    ensures Step(d, Install).Some? <==> d.pending.Some? && Database in d.pending.value.files
    ensures Step(d, Install).Some? ==>
      Step(d, Install).value
      == d.(live := d.live[Database := d.pending.value.files[Database]],
            pending := Some(d.pending.value.(files := d.pending.value.files - {Database})))
  {
  }

  lemma InstallTlsIs(d: Disk, f: File)
    requires d.pending.Some?
    ensures Step(d, InstallTls(f)).Some? <==> f in d.pending.value.files
    ensures f in d.pending.value.files ==>
      Step(d, InstallTls(f)).value == d.(live := d.live[f := d.pending.value.files[f]])
  {
  }

  function PutsBack(files: seq<File>): seq<Op> {
    if files == [] then [] else [Unlink(files[0]), PutBack(files[0])] + PutsBack(files[1..])
  }

  lemma PutsBackList()
    ensures PutsBack([Database, Wal, Shm])
         == [Unlink(Database), PutBack(Database), Unlink(Wal), PutBack(Wal), Unlink(Shm), PutBack(Shm)]
  {
    assert [Database, Wal, Shm][1..] == [Wal, Shm];
    assert [Wal, Shm][1..] == [Shm];
    assert [Shm][1..] == [];
  }

  lemma PutsBackTail(files: seq<File>, k: nat, last: seq<Op>)
    requires k < |files|
    ensures PutsBack(files[k..]) + last == [Unlink(files[k]), PutBack(files[k])] + (PutsBack(files[k + 1..]) + last)
  {
    assert files[k..][1..] == files[k + 1..];
  }

  lemma PairIs(d: Disk, f: File)
    ensures Step(d, Unlink(f)) == Some(d.(live := d.live - {f}))
    ensures ReplaceOne(d, f) ==
      if d.rollback.Some? && f in d.rollback.value.files then
        Some(d.(live := (d.live - {f})[f := d.rollback.value.files[f]],
                rollback := Some(d.rollback.value.(files := d.rollback.value.files - {f}))))
      else if f == Database then None
      else Some(d.(live := d.live - {f}))
  {
  }

  lemma CopyPair(d: Disk, f: File, files: seq<File>)
    ensures Run(d, CopiesBack([f] + files)) ==
      Run(d.(live := if d.rollback.Some? && f in d.rollback.value.files then (d.live - {f})[f := d.rollback.value.files[f]]
                     else d.live - {f}),
          CopiesBack(files))
  {
    assert ([f] + files)[1..] == files;
    var removed := d.(live := d.live - {f});
    assert CopiesBack([f] + files) == [Unlink(f)] + ([CopyBack(f)] + CopiesBack(files));
    RunNext(d, Unlink(f), [CopyBack(f)] + CopiesBack(files));
    RunNext(removed, CopyBack(f), CopiesBack(files));
  }

  lemma SavesTail(f: File, files: seq<File>)
    ensures Saves([f] + files) + [Mark] == [Save(f)] + (Saves(files) + [Mark])
  {
    assert ([f] + files)[1..] == files;
  }

  lemma UnlinksTail(f: File, files: seq<File>, rest: seq<Op>)
    ensures Unlinks([f] + files) + rest == [Unlink(f)] + (Unlinks(files) + rest)
  {
    assert ([f] + files)[1..] == files;
  }

  lemma InstallsTail(f: File, files: seq<File>, rest: seq<Op>)
    ensures Installs([f] + files) + rest == [InstallTls(f)] + (Installs(files) + rest)
  {
    assert ([f] + files)[1..] == files;
  }

  lemma BackupParts(d: Disk, env: Env, m: Manifest)
    ensures Run(d, Backup(env, m))
         == Run(d.(rollback := None),
                [MakeRollback] + ([Save(Database)] + ([Save(Wal)] + ([Save(Shm)] + ([SaveManifest(m)] + (TlsSaves(env, m) + [Mark]))))))
    ensures Run(d, RollbackRemoval(env.rollbackItems)).disk == d.(rollback := None)
  {
    hide Run, Step, TlsSaves, RollbackRemoval;
    Nested(Save(Database), Save(Wal), Save(Shm), SaveManifest(m), TlsSaves(env, m) + [Mark]);
    var rest := [MakeRollback] + ([Save(Database), Save(Wal), Save(Shm), SaveManifest(m)] + (TlsSaves(env, m) + [Mark]));
    assert Backup(env, m) == RollbackRemoval(env.rollbackItems) + rest;
    RunAppend(d, RollbackRemoval(env.rollbackItems), rest);
    RollbackRemovalRun(d, env.rollbackItems);
  }
}
