/**
 Crash-safe master-key rotation as a state machine.

 One durable change of the store (a rename, a link, a directory entry removed,
 one `store_mk`) is one step.  A crash may happen between any two steps and
 forgets everything but the disk.  An I/O error (`Fail`) may happen wherever the
 code can return one.  The readers of the manager and its single worker
 interleave freely, subject to the read/write gate.
 */
module Rotation {
  import opened Wrappers
  import opened ByteStrings
  import Keyfile

  // ---------------------------------------------------------------------------
  // The store
  // ---------------------------------------------------------------------------

  /** A live key file: `priv/ed25519.keyf`, `priv/dilithium-mldsa87.keyf` or `secrets/<hex>.keyf`. */
  datatype KeyPath = EdSeed | DiliSeed | Secret(name: Bytes)

  /** What a record is for; it decides the key type bound into the record. */
  datatype Kind = Live(path: KeyPath) | NextOld | NextNew

  type Draw = Keyfile.Draw

  /**
   The record format, key derivation and configuration the protocol runs with.
   `orderly` says that `.rotate` is removed in one step or `ready` first;
   otherwise its entries go in any order.
   */
  datatype Env = Env(
    open: (Bytes, Bytes, Kind) -> Option<Bytes>,
    rewrap: (Bytes, Bytes, Bytes, Kind, Draw) -> Option<Bytes>,
    seal: (Bytes, Bytes, Kind, Draw) -> Bytes,
    pubOf: (KeyPath, Bytes) -> Bytes,
    cachedMk: bool,
    orderly: bool,
    repairMissing: bool)

  /** What the protocol needs from the record format; Keyfile proves it of the real one. */
  ghost predicate Lawful(e: Env) {
    && (forall mk, payload, kind, r :: e.open(e.seal(mk, payload, kind, r), mk, kind) == Keyfile.Readable(payload))
    && (forall b, prev, next, kind, r ::
          e.rewrap(b, prev, next, kind, r).Some? ==>
            e.open(e.rewrap(b, prev, next, kind, r).value, next, kind) == e.open(b, prev, kind))
    && (forall b, prev, next, kind, r ::
          e.open(b, prev, kind).Some? ==> e.rewrap(b, prev, next, kind, r).Some?)
  }

  /** Neither copy of `newMk` opens under a master key it was not sealed with. */
  ghost predicate Exclusive(e: Env, newMk: Bytes32, oldDraw: Draw, newDraw: Draw) {
    forall mk: Bytes32 | mk != newMk ::
      && e.open(e.seal(mk, newMk, NextOld, oldDraw), newMk, NextOld) == None
      && e.open(e.seal(newMk, newMk, NextNew, newDraw), mk, NextNew) == None
  }

  /** The entries of the `.rotate` directory. */
  datatype RotDir = RotDir(nextOld: Option<Bytes>, nextNew: Option<Bytes>, staged: map<KeyPath, Bytes>, ready: bool)

  datatype Entry = ENextOld | ENextNew | EStaged(path: KeyPath) | EReady

  /** Everything that survives a crash. */
  datatype Disk = Disk(
    provider: Option<Bytes>, live: map<KeyPath, Bytes>, pubs: map<KeyPath, Bytes>, rot: Option<RotDir>)

  datatype Keys = Keys(ed: Bytes, dili: Bytes)

  // ---------------------------------------------------------------------------
  // The process
  // ---------------------------------------------------------------------------

  /** Who called `recover_pending_rotation_if_any`. */
  datatype Cont = AtStart | AtRotate | AtCommit(next: Bytes)

  /** Where the thread that holds the store exclusively stands. */
  datatype Work =
    | Idle
    | StartLoad
    | Recover(k: Cont)
    | RecApply(k: Cont, next: Bytes, switched: bool, todo: set<KeyPath>)
    | RecStore(k: Cont, next: Bytes)
    | Clean(k: Cont)
    | StartSeed(path: KeyPath)
    | StartPub(path: KeyPath, created: bool)
    | StartDone
    | RotMkDir
    | RotDraw
    | RotOld(prev: Bytes, next: Bytes)
    | RotNew(prev: Bytes, next: Bytes)
    | Staging(prev: Bytes, next: Bytes, todo: set<KeyPath>)
    | Commit(next: Bytes, todo: set<KeyPath>)
    | CommitStore(next: Bytes)
    | CommitClean(next: Bytes)
    | Refresh

  /** A get-or-create call: `fixed` for `get_or_create_secret32`, otherwise a sealed blob. */
  datatype Request = Request(name: Bytes, fixed: bool)

  datatype Reader =
    | Checked(req: Request)
    | Holding(req: Request)
    | HasMk(req: Request, mk: Bytes)
    | Fresh(req: Request, mk: Bytes, v: Bytes)
    | Exists(req: Request, mk: Bytes)
    | Done(req: Request, result: Option<Bytes>)

  datatype Proc =
    | Down
    | Up(work: Work, serving: bool, poisoned: bool, cached: Bytes, readers: map<nat, Reader>)

  /**
   The disk together with its history: the payload first saved at each path,
   the keys of the latest rotation, and the public keys last returned to a caller.
   */
  datatype World = World(disk: Disk, saved: map<KeyPath, Bytes>, prev: Bytes, next: Bytes, reported: Option<Keys>)

  /** The whole system: what survives a crash, and the process. */
  datatype Sys = Sys(world: World, proc: Proc)

  const INIT := Sys(World(Disk(None, map[], map[], None), map[], [], [], None), Down)

  // ---------------------------------------------------------------------------
  // Steps
  // ---------------------------------------------------------------------------

  datatype WorkAction =
    | BootMk(mk: Bytes)
    | BootSkip
    | Look
    | Apply(path: KeyPath)
    | Applied
    | StoreNext
    | Remove(entry: Entry)
    | RemoveDir
    | CleanDone
    | SeedLoad
    | SeedCreate(seed: Bytes, r: Draw)
    | PubWrite
    | PubCheck
    | Serve
    | RotateBegin
    | MkDir
    | DrawNext(mk: Bytes)
    | WriteNextOld(r: Draw)
    | WriteNextNew(r: Draw)
    | Stage(path: KeyPath, r: Draw)
    | MarkReady
    | MarkReadyErr
    | RefreshMk
    | Reload

  datatype ReadAction =
    | Begin(req: Request)
    | Acquire
    | FetchMk
    | CheckExists(v: Bytes)
    | Link(r: Draw)
    | LoadSecret
    | ReadFail
    | Forget

  datatype Action =
    | Crash
    | Boot
    | PolicyPoison
    | Fail
    | Worker(w: WorkAction)
    | Read(t: nat, r: ReadAction)

  function WithWork(s: Sys, w: Work): Sys
    requires s.proc.Up?
  {
    Sys(s.world, s.proc.(work := w))
  }

  function WithDisk(s: Sys, d: Disk, w: Work): Sys
    requires s.proc.Up?
  {
    Sys(s.world.(disk := d), s.proc.(work := w))
  }

  function WithRot(s: Sys, rot: RotDir, w: Work): Sys
    requires s.proc.Up?
  {
    WithDisk(s, s.world.disk.(rot := Some(rot)), w)
  }

  function WithReader(s: Sys, t: nat, r: Reader): Sys
    requires s.proc.Up?
  {
    Sys(s.world, s.proc.(readers := s.proc.readers[t := r]))
  }

  /** A new record at `p`, whose payload is now the one saved there. */
  function Created(x: World, p: KeyPath, b: Bytes, payload: Bytes): World {
    x.(disk := x.disk.(live := x.disk.live[p := b]), saved := x.saved[p := payload])
  }

  predicate Holds(r: Reader) {
    r.Holding? || r.HasMk? || r.Fresh? || r.Exists?
  }

  ghost predicate NoHolder(readers: map<nat, Reader>) {
    forall t | t in readers :: !Holds(readers[t])
  }

  predicate ReadyDir(d: Disk) {
    d.rot.Some? && d.rot.value.ready
  }

  /** `load_secret32_decrypted`: the payload must be 32 bytes long. */
  function Open32(e: Env, b: Option<Bytes>, mk: Bytes, kind: Kind): (key: Option<Bytes>)
    ensures key.Some? ==> |key.value| == 32
  {
    if b.None? then None
    else
      var p := e.open(b.value, mk, kind);
      if p.Some? && |p.value| == 32 then p else None
  }

  /** The next master key as recovery finds it, and whether the provider already holds it. */
  function FindNext(e: Env, rot: RotDir, current: Bytes): Option<(Bytes, bool)> {
    var viaNew := Open32(e, rot.nextNew, current, NextNew);
    if viaNew.Some? then Some((viaNew.value, true))
    else
      var viaOld := Open32(e, rot.nextOld, current, NextOld);
      if viaOld.Some? then Some((viaOld.value, false)) else None
  }

  /** `.rotate` without one entry. */
  function Without(rot: RotDir, x: Entry): RotDir {
    match x
    case ENextOld => rot.(nextOld := None)
    case ENextNew => rot.(nextNew := None)
    case EStaged(p) => rot.(staged := rot.staged - {p})
    case EReady => rot.(ready := false)
  }

  /** Where control goes when recovery returned Ok. */
  function AfterRecovery(k: Cont): Work {
    match k
    case AtStart => StartSeed(EdSeed)
    case AtRotate => RotMkDir
    case AtCommit(_) => Refresh
  }

  function AfterSeed(p: KeyPath): Work {
    if p == EdSeed then StartSeed(DiliSeed) else StartDone
  }

  /** The public keys the two live seed files give under `mk`, if both load and match their cache files. */
  function LoadIdentity(e: Env, d: Disk, mk: Bytes): Option<Keys> {
    if EdSeed in d.live && DiliSeed in d.live && EdSeed in d.pubs && DiliSeed in d.pubs then
      var ed := Open32(e, Some(d.live[EdSeed]), mk, Live(EdSeed));
      var dili := Open32(e, Some(d.live[DiliSeed]), mk, Live(DiliSeed));
      if ed.Some? && dili.Some?
         && e.pubOf(EdSeed, ed.value) == d.pubs[EdSeed] && e.pubOf(DiliSeed, dili.value) == d.pubs[DiliSeed]
      then Some(Keys(d.pubs[EdSeed], d.pubs[DiliSeed]))
      else None
    else None
  }

  /** Recovery and clean-up steps. */
  ghost function DoRecover(e: Env, s: Sys, a: WorkAction): Option<Sys>
    requires s.proc.Up?
  {
    var d, w := s.world.disk, s.proc.work;
    match a
    case Look =>
      if !w.Recover? || d.provider.None? then None
      else if d.rot.None? then Some(WithWork(s, AfterRecovery(w.k)))
      else if !d.rot.value.ready then Some(WithWork(s, Clean(w.k)))
      else
        var next := FindNext(e, d.rot.value, d.provider.value);
        if next.None? then None
        else Some(WithWork(s, RecApply(w.k, next.value.0, next.value.1, d.live.Keys)))
    case Apply(p) =>
      if d.rot.None? || p !in d.rot.value.staged then None
      else
        var applied := d.(live := d.live[p := d.rot.value.staged[p]]);
        if w.RecApply? && p in w.todo then Some(WithDisk(s, applied, RecApply(w.k, w.next, w.switched, w.todo - {p})))
        else if w.Commit? && p in w.todo then Some(WithDisk(s, applied, Commit(w.next, w.todo - {p})))
        else None
    case Applied =>
      if w.RecApply? && w.todo == {} then
        Some(WithWork(s, if w.switched then Clean(w.k) else RecStore(w.k, w.next)))
      else if w.Commit? && w.todo == {} then Some(WithWork(s, CommitStore(w.next)))
      else None
    case StoreNext =>
      if w.RecStore? then Some(WithDisk(s, d.(provider := Some(w.next)), Clean(w.k)))
      else if w.CommitStore? then Some(WithDisk(s, d.(provider := Some(w.next)), CommitClean(w.next)))
      else None
    case Remove(x) =>
      if (w.Clean? || w.CommitClean?) && d.rot.Some? && (e.orderly && x != EReady ==> !d.rot.value.ready)
      then Some(WithRot(s, Without(d.rot.value, x), w))
      else None
    case RemoveDir =>
      if w.Clean? || w.CommitClean? then Some(WithDisk(s, d.(rot := None), w)) else None
    case CleanDone =>
      if d.rot.Some? then None
      else if w.Clean? then Some(WithWork(s, AfterRecovery(w.k)))
      else if w.CommitClean? then Some(WithWork(s, Refresh))
      else None
    case _ => None
  }

  /** `start`: the master key, the two seed key pairs, and the first report of the public keys. */
  ghost function DoStart(e: Env, s: Sys, a: WorkAction): Option<Sys>
    requires s.proc.Up?
  {
    var d, w := s.world.disk, s.proc.work;
    match a
    case BootMk(mk) =>
      if w.StartLoad? && d.provider.None? && |mk| == 32
      then Some(WithDisk(s, d.(provider := Some(mk)), Recover(AtStart)))
      else None
    case BootSkip =>
      if w.StartLoad? && d.provider.Some? then Some(WithWork(s, Recover(AtStart))) else None
    case SeedLoad =>
      if w.StartSeed? && w.path in d.live && d.provider.Some?
         && Open32(e, Some(d.live[w.path]), d.provider.value, Live(w.path)).Some?
      then Some(WithWork(s, StartPub(w.path, false)))
      else None
    case SeedCreate(seed, r) =>
      if w.StartSeed? && w.path !in d.live && w.path !in d.pubs && d.provider.Some? && |seed| == 32
      then Some(Sys(Created(s.world, w.path, e.seal(d.provider.value, seed, Live(w.path), r), seed),
                    s.proc.(work := StartPub(w.path, true))))
      else None
    case PubWrite =>
      if w.StartPub? && w.path in d.live && d.provider.Some?
          && (w.created || (w.path !in d.pubs && e.repairMissing)) then
        var seed := Open32(e, Some(d.live[w.path]), d.provider.value, Live(w.path));
        if seed.None? then None
        else Some(WithDisk(s, d.(pubs := d.pubs[w.path := e.pubOf(w.path, seed.value)]), AfterSeed(w.path)))
      else None
    case PubCheck =>
      if w.StartPub? && !w.created && w.path in d.live && d.provider.Some? && w.path in d.pubs then
        var seed := Open32(e, Some(d.live[w.path]), d.provider.value, Live(w.path));
        if seed.Some? && e.pubOf(w.path, seed.value) == d.pubs[w.path]
        then Some(WithWork(s, AfterSeed(w.path))) else None
      else None
    case Serve =>
      if w.StartDone? && d.provider.Some? && LoadIdentity(e, d, d.provider.value).Some?
      then Some(Sys(s.world.(reported := LoadIdentity(e, d, d.provider.value)),
                    Up(Idle, true, false, d.provider.value, map[])))
      else None
    case _ => None
  }

  /** `rotate_now` up to the marker, the refresh after a commit, and `reload_public_keys`. */
  ghost function DoRotate(e: Env, s: Sys, a: WorkAction): Option<Sys>
    requires s.proc.Up?
  {
    var d, w := s.world.disk, s.proc.work;
    match a
    case RotateBegin =>
      if w.Idle? && s.proc.serving && NoHolder(s.proc.readers) then Some(WithWork(s, Recover(AtRotate))) else None
    case MkDir =>
      if w.RotMkDir? && d.rot.None? then Some(WithRot(s, RotDir(None, None, map[], false), RotDraw)) else None
    case DrawNext(mk) =>
      if w.RotDraw? && d.provider.Some? && |mk| == 32
      then Some(Sys(s.world.(prev := d.provider.value, next := mk), s.proc.(work := RotOld(d.provider.value, mk))))
      else None
    case WriteNextOld(r) =>
      if w.RotOld? && d.rot.Some? then
        var b := e.seal(w.prev, w.next, NextOld, r);
        if w.prev != w.next && e.open(b, w.next, NextOld).Some? then None
        else Some(WithRot(s, d.rot.value.(nextOld := Some(b)), RotNew(w.prev, w.next)))
      else None
    case WriteNextNew(r) =>
      if w.RotNew? && d.rot.Some? then
        var b := e.seal(w.next, w.next, NextNew, r);
        if w.prev != w.next && e.open(b, w.prev, NextNew).Some? then None
        else Some(WithRot(s, d.rot.value.(nextNew := Some(b)), Staging(w.prev, w.next, d.live.Keys)))
      else None
    case Stage(p, r) =>
      if w.Staging? && p in w.todo && d.rot.Some? && p in d.live then
        var b := e.rewrap(d.live[p], w.prev, w.next, Live(p), r);
        if b.None? then None
        else Some(WithRot(s, d.rot.value.(staged := d.rot.value.staged[p := b.value]),
            Staging(w.prev, w.next, w.todo - {p})))
      else None
    case MarkReady =>
      if w.Staging? && w.todo == {} && d.rot.Some?
      then Some(WithRot(s, d.rot.value.(ready := true), Commit(w.next, d.live.Keys)))
      else None
    case MarkReadyErr =>
      if w.Staging? && w.todo == {} && d.rot.Some?
      then Some(WithRot(s, d.rot.value.(ready := true), Idle))
      else None
    case RefreshMk =>
      if w.Refresh? && d.provider.Some?
      then Some(s.(proc := s.proc.(work := Idle, cached := d.provider.value)))
      else None
    case Reload =>
      if w.Idle? && s.proc.serving && NoHolder(s.proc.readers) && d.provider.Some?
         && LoadIdentity(e, d, d.provider.value).Some?
      then Some(s.(world := s.world.(reported := LoadIdentity(e, d, d.provider.value))))
      else None
    case _ => None
  }

  ghost function DoWorker(e: Env, s: Sys, a: WorkAction): Option<Sys>
    requires s.proc.Up?
  {
    if a.Look? || a.Apply? || a.Applied? || a.StoreNext? || a.Remove? || a.RemoveDir? || a.CleanDone?
    then DoRecover(e, s, a)
    else if a.BootMk? || a.BootSkip? || a.SeedLoad? || a.SeedCreate? || a.PubWrite? || a.PubCheck? || a.Serve?
    then DoStart(e, s, a)
    else DoRotate(e, s, a)
  }

  predicate StartWork(w: Work) {
    || w.StartLoad? || w.StartSeed? || w.StartPub? || w.StartDone?
    || ((w.Recover? || w.RecApply? || w.RecStore? || w.Clean?) && w.k.AtStart?)
  }

  predicate CommitRecovery(w: Work) {
    (w.Recover? || w.RecApply? || w.RecStore? || w.Clean?) && w.k.AtCommit?
  }

  /** An I/O error reaches the worker: how each caller on the way up handles it. */
  ghost function DoFail(e: Env, s: Sys): Option<Sys>
    requires s.proc.Up?
  {
    var w := s.proc.work;
    if w.Idle? then None
    else if StartWork(w) then Some(s.(proc := Down))
    else if w.Commit? || w.CommitStore? || w.CommitClean? then Some(WithWork(s, Recover(AtCommit(w.next))))
    else if CommitRecovery(w) then Some(s.(proc := s.proc.(work := Idle, poisoned := true)))
    else if w.Refresh? then
      if e.cachedMk then Some(s.(proc := s.proc.(work := Idle, poisoned := true))) else None
    else Some(WithWork(s, Idle))
  }

  predicate ValidLabel(name: Bytes) {
    0 < |name| <= 64
  }

  /** One caller's step through `read_gate`, `with_current_mk` and `load_or_create_label_*`. */
  ghost function DoRead(e: Env, s: Sys, t: nat, a: ReadAction): Option<Sys>
    requires s.proc.Up?
  {
    var d := s.world.disk;
    var rs := s.proc.readers;
    if a.Begin? then
      if !s.proc.serving || t in rs then None
      else if s.proc.poisoned then Some(WithReader(s, t, Done(a.req, None)))
      else Some(WithReader(s, t, Checked(a.req)))
    else if t !in rs then None
    else
      var r := rs[t];
      match a
      case Acquire =>
        if r.Checked? && s.proc.work.Idle? then Some(WithReader(s, t, Holding(r.req))) else None
      case FetchMk =>
        if r.Holding? && d.provider.Some?
        then Some(WithReader(s, t, HasMk(r.req, if e.cachedMk then s.proc.cached else d.provider.value)))
        else None
      case CheckExists(v) =>
        if !r.HasMk? then None
        else if !ValidLabel(r.req.name) then Some(WithReader(s, t, Done(r.req, None)))
        else if Secret(r.req.name) in d.live then Some(WithReader(s, t, Exists(r.req, r.mk)))
        else if r.req.fixed && |v| != 32 then None
        else Some(WithReader(s, t, Fresh(r.req, r.mk, v)))
      case Link(draw) =>
        if !r.Fresh? then None
        else
          var p := Secret(r.req.name);
          if p in d.live then Some(WithReader(s, t, Exists(r.req, r.mk)))
          else Some(Sys(Created(s.world, p, e.seal(r.mk, r.v, Live(p), draw), r.v),
                        s.proc.(readers := rs[t := Done(r.req, Some(r.v))])))
      case LoadSecret =>
        if !r.Exists? then None
        else
          var p := Secret(r.req.name);
          if p !in d.live then Some(WithReader(s, t, Done(r.req, None)))
          else
            var v := e.open(d.live[p], r.mk, Live(p));
            Some(WithReader(s, t, Done(r.req, if v.Some? && r.req.fixed && |v.value| != 32 then None else v)))
      case ReadFail =>
        if r.Done? then None else Some(WithReader(s, t, Done(r.req, None)))
      case Forget =>
        if r.Done? then Some(s.(proc := s.proc.(readers := rs - {t}))) else None
      case Begin(_) => None
  }

  /** One step of the system, or None where the action is not possible. */
  ghost function Do(e: Env, s: Sys, a: Action): Option<Sys> {
    match a
    case Crash => Some(s.(proc := Down))
    case Boot => if s.proc.Down? then Some(s.(proc := Up(StartLoad, false, false, [], map[]))) else None
    case PolicyPoison => if s.proc.Up? && s.proc.serving then Some(s.(proc := s.proc.(poisoned := true))) else None
    case Fail => if s.proc.Up? then DoFail(e, s) else None
    case Worker(w) => if s.proc.Up? then DoWorker(e, s, w) else None
    case Read(t, r) => if s.proc.Up? then DoRead(e, s, t, r) else None
  }

  /** The state after a run of steps; None if some step was not possible. */
  ghost function Exec(e: Env, s: Sys, acts: seq<Action>): Option<Sys>
    decreases |acts|
  {
    if acts == [] then Some(s)
    else
      var m := Exec(e, s, acts[..|acts| - 1]);
      if m.None? then None else Do(e, m.value, acts[|acts| - 1])
  }

  /** No rotation is pending and every copy of the current master key agrees. */
  predicate Quiet(e: Env, x: World, cached: Bytes) {
    x.disk.provider.Some? && !ReadyDir(x.disk) && (e.cachedMk ==> cached == x.disk.provider.value)
  }

  /** The master key that a caller inside the gate works with. */
  function GateMk(e: Env, x: World, cached: Bytes): Option<Bytes> {
    if e.cachedMk then Some(cached) else x.disk.provider
  }

  /** The one step that harms the store: a caller creates a file while the store is not quiet. */
  predicate Hazard(e: Env, s: Sys, a: Action) {
    && a.Read? && a.r.Link? && s.proc.Up? && a.t in s.proc.readers && s.proc.readers[a.t].Fresh?
    && Secret(s.proc.readers[a.t].req.name) !in s.world.disk.live && !Quiet(e, s.world, s.proc.cached)
  }

  /** A run in which that does not happen. */
  ghost predicate Calm(e: Env, s: Sys, acts: seq<Action>)
    decreases |acts|
  {
    acts != [] ==>
      && Calm(e, s, acts[..|acts| - 1])
      && (var m := Exec(e, s, acts[..|acts| - 1]); m.Some? ==> !Hazard(e, m.value, acts[|acts| - 1]))
  }

  /** The hazard-free run `acts` leads from `s` to `s'`. */
  ghost predicate Runs(e: Env, s: Sys, acts: seq<Action>, s': Sys) {
    Calm(e, s, acts) && Exec(e, s, acts) == Some(s')
  }

  /** A caller takes the gate although the store is not quiet. */
  predicate Late(e: Env, s: Sys, a: Action) {
    a.Read? && a.r.Acquire? && s.proc.Up? && !Quiet(e, s.world, s.proc.cached)
  }

  ghost predicate Punctual(e: Env, s: Sys, acts: seq<Action>)
    decreases |acts|
  {
    acts != [] ==>
      && Punctual(e, s, acts[..|acts| - 1])
      && (var m := Exec(e, s, acts[..|acts| - 1]); m.Some? ==> !Late(e, m.value, acts[|acts| - 1]))
  }

  /** A run from `s` to `s'` in which nobody is late. */
  ghost predicate OnTime(e: Env, s: Sys, acts: seq<Action>, s': Sys) {
    Punctual(e, s, acts) && Exec(e, s, acts) == Some(s')
  }
}
