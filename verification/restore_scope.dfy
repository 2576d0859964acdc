/** The scope of a restore and of its rollback, file by file, from the fields of the manifest. */
module RestoreScope {
  import opened Wrappers
  import opened RestoreSpec
  import opened RestoreSteps
  import opened RestoreSafety

  /** The databases are always managed; a TLS file with a path is unless the manifest says that TLS was left out. */
  lemma ManagedExactly(env: Env, m: Option<Manifest>, f: File)
    ensures f in Managed(env, m) <==>
      f in {Database, Wal, Shm} || (f in env.targets && (m.None? || m.value.Unreadable? || m.value.includeTls != Some(false)))
  {
  }

  /** A file as the stage has it if the manifest lists it, and absent otherwise. */
  predicate AsListed(live: map<File, string>, stage: map<File, string>, files: seq<File>, f: File) {
    (f in live <==> f in files && f in stage) && (f in live && f in stage ==> live[f] == stage[f])
  }

  /**
   A start with a staged restore, from the manifest's own fields. It succeeds exactly if
   the database was staged and, unless TLS was left out, every listed TLS file with a
   path. Then the database is the staged one and the sidecars are gone; each TLS file
   with a path is the staged one if listed and gone otherwise, or, if TLS was left out,
   as it was. If it does not succeed, every file is as it was.
   */
  lemma StartByManifest(d: Disk, env: Env, stage: map<File, string>, files: seq<File>, includeTls: Option<bool>)
    requires EnvOk(env) && !d.marked && Database in d.live
    requires d.pending == Some(Dir(stage, Some(Scope(files, includeTls))))
    ensures var s := Start(d, env); var live := s.disk.live;
      && (s.ok <==> Database in stage
                    && (includeTls == Some(false) || forall f :: f in files && f in env.targets ==> f in stage))
      && (s.ok ==>
            && Database in live && live[Database] == stage[Database] && Wal !in live && Shm !in live
            && (includeTls != Some(false) ==> forall f :: f in env.targets ==> AsListed(live, stage, files, f))
            && (includeTls == Some(false) ==> forall f :: f in env.targets ==> Same(live, d.live, f))
            && (forall f :: IsTls(f) && f !in env.targets ==> Same(live, d.live, f)))
      && (!s.ok ==> live == d.live) && s.restored == s.ok
  {
    hide Start, Recoverable;
    StartIsAtomic(d, env);
    var s, on := Start(d, env), Managed(env, Some(Scope(files, includeTls)));
    if s.ok {
      forall f: File ensures f in on ==> Same(s.disk.live, Staged(d, env), f)
        ensures f !in on ==> Same(s.disk.live, d.live, f)
      {
      }
      assert Database in on && Wal in on && Shm in on;
      forall f | f in env.targets ensures f in on <==> includeTls != Some(false) {
        ManagedExactly(env, Some(Scope(files, includeTls)), f);
      }
    }
  }

  /**
   A start that rolls back, from the fields of the manifest that was saved: the
   databases come back as saved, or absent; so does each TLS file with a path, unless the
   manifest says that TLS was left out, and then it is as it was. A directory without a
   readable manifest counts as one with TLS.
   */
  lemma RollBackByManifest(d: Disk, env: Env, saved: map<File, string>, m: Option<Manifest>)
    requires EnvOk(env) && d.marked && d.rollback == Some(Dir(saved, m))
    ensures var s := Start(d, env); var live := s.disk.live;
      && (s.ok <==> Database in saved) && !s.restored
      && (s.ok ==>
            && (forall f :: f in {Database, Wal, Shm} ==> Same(live, saved, f))
            && (m.Some? && m.value.Scope? && m.value.includeTls == Some(false) ==>
                  forall f :: f in env.targets ==> Same(live, d.live, f))
            && (!(m.Some? && m.value.Scope? && m.value.includeTls == Some(false)) ==>
                  forall f :: f in env.targets ==> Same(live, saved, f))
            && (forall f :: IsTls(f) && f !in env.targets ==> Same(live, d.live, f)))
  {
    hide Run, RollBack, CleanUp;
    RollBackRun(d, env, m);
    var back := Run(d, RollBack(env, IncludesTls(m)));
    if back.ok {
      CleanUpRun(back.disk, env);
      forall f | f in env.targets ensures f !in {Database, Wal, Shm} {
        assert IsTls(f);
      }
    }
  }

  /** Without a stage there is nothing to do; one whose manifest is missing or unreadable is an error that changes nothing. */
  lemma StartWithout(d: Disk, env: Env)
    requires !d.marked && (d.pending.None? || d.pending.value.manifest.None? || d.pending.value.manifest.value.Unreadable?)
    ensures var s := Start(d, env); s.disk == d && !s.restored && (s.ok <==> d.pending.None?)
  {
  }
}
