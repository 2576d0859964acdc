/**
 Restoring a backup at start-up. Every file operation is one step, so that a crash
 can be placed between any two of them; a step that cannot be done ends the sequence.
 Orders in which maps and directories are walked are parameters.
 */
module RestoreSpec {
  import opened Wrappers

  datatype File = Database | Wal | Shm | Certificate | PrivateKey | Enabled | Account | StagingAccount

  /** restore.json: absent include_tls means that TLS is part of the restore. */
  datatype Manifest = Unreadable | Scope(files: seq<File>, includeTls: Option<bool>)

  datatype Dir = Dir(files: map<File, string>, manifest: Option<Manifest>)

  /** The live files, the two directories beside the database, and the applied marker. */
  datatype Disk = Disk(live: map<File, string>, pending: Option<Dir>, rollback: Option<Dir>, marked: bool)

  datatype Item = Entry(file: File) | ManifestFile

  /** targets: the TLS files that have a path. The rest are the orders in which loops happen to run. */
  datatype Env = Env(targets: set<File>, saving: seq<File>, removing: seq<File>, recovering: seq<File>,
                     rollbackItems: seq<Item>, pendingItems: seq<Item>)

  datatype Op =
    | LoseRollbackItem(item: Item)
    | DropRollback
    | MakeRollback
    | Save(file: File)
    | SaveManifest(manifest: Manifest)
    | Mark
    | Unlink(file: File)
    | Install
    | InstallTls(file: File)
    | LosePendingItem(item: Item)
    | DropPending
    | PutBack(file: File)
    | CopyBack(file: File)
    | Unmark

  datatype Outcome = Outcome(disk: Disk, ok: bool)

  predicate IsTls(f: File) {
    f !in {Database, Wal, Shm}
  }

  ghost predicate EnvOk(env: Env) {
    && (forall f :: f in env.targets ==> IsTls(f))
    && (forall f :: IsTls(f) ==> f in env.saving && f in env.removing && f in env.recovering)
  }

  function Lost(dir: Option<Dir>, item: Item): Option<Dir> {
    match dir
    case None => None
    case Some(x) =>
      match item
      case Entry(f) => Some(x.(files := x.files - {f}))
      case ManifestFile => Some(x.(manifest := None))
  }

  /** One file operation; None when it cannot be done. */
  function Step(d: Disk, op: Op): Option<Disk> {
    match op
    case LoseRollbackItem(item) => Some(d.(rollback := Lost(d.rollback, item)))
    case DropRollback => Some(d.(rollback := None))
    case MakeRollback => Some(d.(rollback := Some(Dir(map[], None))))
    case Save(f) =>
      if f !in d.live then Some(d)
      else if d.rollback.None? then None
      else Some(d.(rollback := Some(d.rollback.value.(files := d.rollback.value.files[f := d.live[f]]))))
    case SaveManifest(m) =>
      if d.rollback.None? then None else Some(d.(rollback := Some(d.rollback.value.(manifest := Some(m)))))
    case Mark => Some(d.(marked := true))
    case Unlink(f) => Some(d.(live := d.live - {f}))
    case Install =>
      if d.pending.None? || Database !in d.pending.value.files then None
      else
        Some(d.(live := d.live[Database := d.pending.value.files[Database]],
                pending := Lost(d.pending, Entry(Database))))
    case InstallTls(f) =>
      if d.pending.None? || f !in d.pending.value.files then None
      else Some(d.(live := d.live[f := d.pending.value.files[f]]))
    case LosePendingItem(item) => Some(d.(pending := Lost(d.pending, item)))
    case DropPending => Some(d.(pending := None))
    case PutBack(f) =>
      if d.rollback.None? || f !in d.rollback.value.files then if f == Database then None else Some(d)
      else
        Some(d.(live := d.live[f := d.rollback.value.files[f]], rollback := Lost(d.rollback, Entry(f))))
    case CopyBack(f) =>
      if d.rollback.None? || f !in d.rollback.value.files then Some(d)
      else Some(d.(live := d.live[f := d.rollback.value.files[f]]))
    case Unmark => Some(d.(marked := false))
  }

  function Run(d: Disk, ops: seq<Op>): Outcome
    decreases |ops|
  {
    if ops == [] then Outcome(d, true)
    else
      match Step(d, ops[0])
      case None => Outcome(d, false)
      case Some(next) => Run(next, ops[1..])
  }

  // ---------- the sequences of operations ----------

  function Targeted(order: seq<File>, targets: set<File>): seq<File> {
    if order == [] then []
    else if order[0] in targets then [order[0]] + Targeted(order[1..], targets)
    else Targeted(order[1..], targets)
  }

  function Saves(files: seq<File>): (ops: seq<Op>)
    ensures |ops| == |files|
  {
    if files == [] then [] else [Save(files[0])] + Saves(files[1..])
  }

  function Unlinks(files: seq<File>): seq<Op> {
    if files == [] then [] else [Unlink(files[0])] + Unlinks(files[1..])
  }

  function Installs(files: seq<File>): seq<Op> {
    if files == [] then [] else [InstallTls(files[0])] + Installs(files[1..])
  }

  function CopiesBack(files: seq<File>): seq<Op> {
    if files == [] then [] else [Unlink(files[0]), CopyBack(files[0])] + CopiesBack(files[1..])
  }

  function RollbackRemoval(items: seq<Item>): seq<Op> {
    if items == [] then [DropRollback] else [LoseRollbackItem(items[0])] + RollbackRemoval(items[1..])
  }

  function PendingRemoval(items: seq<Item>): seq<Op> {
    if items == [] then [DropPending] else [LosePendingItem(items[0])] + PendingRemoval(items[1..])
  }

  /** Whether TLS takes part; a directory without a readable manifest counts as taking part. */
  predicate IncludesTls(manifest: Option<Manifest>) {
    manifest.Some? && manifest.value.Scope? && manifest.value.includeTls.Some? ==> manifest.value.includeTls.value
  }

  predicate ManifestIncludesTls(m: Manifest) {
    IncludesTls(Some(m))
  }

  function RollbackManifest(d: Disk): Option<Manifest> {
    if d.rollback.None? then None else d.rollback.value.manifest
  }

  /** Until the manifest is saved, a failure leaves the rollback directory alone. */
  function Prepare(env: Env, m: Manifest): seq<Op> {
    RollbackRemoval(env.rollbackItems) + [MakeRollback, Save(Database), Save(Wal), Save(Shm), SaveManifest(m)]
  }

  function TlsSaves(env: Env, m: Manifest): seq<Op> {
    if ManifestIncludesTls(m) then Saves(Targeted(env.saving, env.targets)) else []
  }

  function TlsInstalls(env: Env, m: Manifest): seq<Op>
    requires m.Scope?
  {
    if ManifestIncludesTls(m) then Installs(Targeted(m.files, env.targets)) else []
  }

  function TlsUnlinks(env: Env, m: Manifest): seq<Op> {
    if ManifestIncludesTls(m) then Unlinks(Targeted(env.removing, env.targets)) else []
  }

  function Replace(env: Env, m: Manifest): seq<Op>
    requires m.Scope?
  {
    TlsUnlinks(env, m) + [Unlink(Database), Unlink(Wal), Unlink(Shm), Install] + TlsInstalls(env, m)
    + PendingRemoval(env.pendingItems)
  }

  /** Everything up to and including the marker. */
  function Backup(env: Env, m: Manifest): seq<Op> {
    Prepare(env, m) + TlsSaves(env, m) + [Mark]
  }

  function Apply(env: Env, m: Manifest): seq<Op>
    requires m.Scope?
  {
    Backup(env, m) + Replace(env, m)
  }

  function RollBack(env: Env, tls: bool): seq<Op> {
    [Unlink(Database), PutBack(Database), Unlink(Wal), PutBack(Wal), Unlink(Shm), PutBack(Shm)]
    + if tls then CopiesBack(Targeted(env.recovering, env.targets)) else []
  }

  function CleanUp(env: Env): seq<Op> {
    [Unmark] + RollbackRemoval(env.rollbackItems) + PendingRemoval(env.pendingItems)
  }

  function Finalize(env: Env): seq<Op> {
    [Unmark] + RollbackRemoval(env.rollbackItems)
  }

  // ---------- start-up ----------

  /** Rolling back after an error: what fails in it is ignored. */
  function Undo(d: Disk, env: Env): Disk {
    Run(Run(d, RollBack(env, IncludesTls(RollbackManifest(d)))).disk, CleanUp(env)).disk
  }

  function StagedManifest(d: Disk): Manifest {
    if d.pending.Some? && d.pending.value.manifest.Some? then d.pending.value.manifest.value else Unreadable
  }

  /** A whole start: restored when a staged restore was put in place. */
  datatype Started = Started(disk: Disk, ok: bool, restored: bool)

  function Start(d: Disk, env: Env): Started {
    if d.marked then
      var back := Run(d, RollBack(env, IncludesTls(RollbackManifest(d))));
      if !back.ok then Started(back.disk, false, false)
      else Started(Run(back.disk, CleanUp(env)).disk, true, false)
    else if d.pending.None? then Started(d, true, false)
    else if StagedManifest(d).Unreadable? then Started(d, false, false)
    else
      var done := Run(d, Apply(env, StagedManifest(d)));
      if done.ok then Started(done.disk, true, true) else Started(Undo(done.disk, env), false, false)
  }

  /** A start whose i-th operation (from 0) reports an error although it could be done. */
  function Faulted(d: Disk, env: Env, i: nat): Disk
    requires StagedManifest(d).Scope? && i < |Apply(env, StagedManifest(d))|
  {
    var m := StagedManifest(d);
    var reached := Run(d, Apply(env, m)[..i]);
    if i < |Prepare(env, m)| then reached.disk else Undo(reached.disk, env)
  }

  // ---------- what the files are ----------

  /** The files a restore replaces. */
  function Managed(env: Env, m: Option<Manifest>): set<File> {
    {Database, Wal, Shm} + if IncludesTls(m) then env.targets else {}
  }

  predicate Same(a: map<File, string>, b: map<File, string>, f: File) {
    (f in a <==> f in b) && (f in a && f in b ==> a[f] == b[f])
  }

  ghost predicate Agree(a: map<File, string>, b: map<File, string>, on: set<File>) {
    forall f :: f in on ==> Same(a, b, f)
  }

  ghost predicate AgreeOutside(a: map<File, string>, b: map<File, string>, on: set<File>) {
    forall f :: f !in on ==> Same(a, b, f)
  }

  /** The installation that the staged restore describes: no sidecars, and TLS files only if listed. */
  function Staged(d: Disk, env: Env): map<File, string>
    requires d.pending.Some? && StagedManifest(d).Scope?
  {
    var dir, m := d.pending.value, StagedManifest(d);
    map f: File | f in dir.files && (f == Database || (ManifestIncludesTls(m) && f in env.targets && f in m.files))
      :: dir.files[f]
  }

  /** Every file the manifest asks for was staged. */
  ghost predicate Complete(d: Disk, env: Env) {
    && d.pending.Some? && StagedManifest(d).Scope?
    && Database in d.pending.value.files
    && (ManifestIncludesTls(StagedManifest(d)) ==>
          forall f :: f in StagedManifest(d).files && f in env.targets ==> f in d.pending.value.files)
  }
}
