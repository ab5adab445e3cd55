/** What every step of the rotation protocol keeps, and what follows for whole runs. */
module RotationSafety {
  import opened Wrappers
  import opened ByteStrings
  import Keyfile
  import opened Rotation

  // ---------------------------------------------------------------------------
  // The invariant
  // ---------------------------------------------------------------------------

  /** The record at `p` opens under `mk` to the payload first saved there. */
  ghost predicate OpensTo(e: Env, saved: map<KeyPath, Bytes>, p: KeyPath, b: Bytes, mk: Bytes) {
    p in saved && e.open(b, mk, Live(p)) == Keyfile.Readable(saved[p])
  }

  ghost predicate AllUnder(e: Env, saved: map<KeyPath, Bytes>, files: map<KeyPath, Bytes>, mk: Bytes) {
    forall p | p in files :: OpensTo(e, saved, p, files[p], mk)
  }

  ghost predicate AppliedUnder(e: Env, x: World, todo: set<KeyPath>, mk: Bytes) {
    forall p | p in x.disk.live && p !in todo :: OpensTo(e, x.saved, p, x.disk.live[p], mk)
  }

  ghost predicate Mixed(e: Env, x: World) {
    forall p | p in x.disk.live ::
      OpensTo(e, x.saved, p, x.disk.live[p], x.prev) || OpensTo(e, x.saved, p, x.disk.live[p], x.next)
  }

  /** A next-MK copy opens to the next MK under `mk` and not under the other key. */
  ghost predicate Carries(e: Env, b: Option<Bytes>, mk: Bytes, other: Bytes, next: Bytes, kind: Kind) {
    b.Some? ==> e.open(b.value, mk, kind) == Some(next) && (mk != other ==> e.open(b.value, other, kind) == None)
  }

  ghost predicate NextKeys(e: Env, prev: Bytes, next: Bytes, nextOld: Option<Bytes>, nextNew: Option<Bytes>) {
    && |next| == 32
    && Carries(e, nextOld, prev, next, next, NextOld)
    && Carries(e, nextNew, next, prev, next, NextNew)
  }

  predicate Complete(d: Disk) {
    d.rot.Some? && d.rot.value.nextOld.Some? && d.rot.value.nextNew.Some? && d.live.Keys <= d.rot.value.staged.Keys
  }

  /** The provider holds `mk` and `mk` opens every live file. */
  ghost predicate Settled(e: Env, x: World, mk: Bytes) {
    x.disk.provider == Some(mk) && AllUnder(e, x.saved, x.disk.live, mk)
  }

  /** A ready directory: its copies are good, and it is either all applied or complete. */
  ghost predicate ReadyOk(e: Env, x: World, rot: RotDir) {
    && AllUnder(e, x.saved, rot.staged, x.next)
    && NextKeys(e, x.prev, x.next, rot.nextOld, rot.nextNew)
    && (Settled(e, x, x.next) || (x.disk.provider == Some(x.prev) && Complete(x.disk) && Mixed(e, x)))
    && (e.orderly ==> Complete(x.disk))
  }

  ghost predicate StoreInv(e: Env, x: World) {
    && x.saved.Keys == x.disk.live.Keys
    && (x.disk.provider.Some? ==> |x.disk.provider.value| == 32)
    && (x.disk.provider.None? ==> x.disk.live == map[] && x.disk.pubs == map[] && x.disk.rot.None?)
    && (x.disk.provider.Some? && !ReadyDir(x.disk) ==> AllUnder(e, x.saved, x.disk.live, x.disk.provider.value))
    && (ReadyDir(x.disk) ==> x.disk.provider.Some? && ReadyOk(e, x, x.disk.rot.value))
  }

  /** A seed is 32 bytes and a cached public key is the one its saved seed gives. */
  ghost predicate SeedOk(e: Env, saved: map<KeyPath, Bytes>, pubs: map<KeyPath, Bytes>, reported: Option<Keys>) {
    && (forall p | p in saved && !p.Secret? :: |saved[p]| == 32)
    && (forall p | p in pubs :: !p.Secret? && p in saved && pubs[p] == e.pubOf(p, saved[p]))
    && (reported.Some? ==> Identity(e, saved) == reported)
  }

  ghost predicate SeedInv(e: Env, x: World) {
    SeedOk(e, x.saved, x.disk.pubs, x.reported)
  }

  /** The public keys the saved seeds determine. */
  ghost function Identity(e: Env, saved: map<KeyPath, Bytes>): Option<Keys> {
    if EdSeed in saved && DiliSeed in saved
    then Some(Keys(e.pubOf(EdSeed, saved[EdSeed]), e.pubOf(DiliSeed, saved[DiliSeed])))
    else None
  }

  ghost predicate ContInv(x: World, k: Cont) {
    k.AtCommit? ==> k.next == x.next
  }

  ghost predicate WorkInv(e: Env, x: World, w: Work) {
    var d := x.disk;
    match w
    case Idle => true
    case StartLoad => true
    case Recover(k) => d.provider.Some? && ContInv(x, k) && (k.AtCommit? && !ReadyDir(d) ==> Settled(e, x, k.next))
    case RecApply(k, next, switched, todo) =>
      && ReadyDir(d) && ContInv(x, k) && next == x.next && todo <= d.live.Keys
      && AppliedUnder(e, x, todo, x.next)
      && (switched ==> Settled(e, x, x.next))
    case RecStore(k, next) => ReadyDir(d) && ContInv(x, k) && next == x.next && AllUnder(e, x.saved, d.live, x.next)
    case Clean(k) =>
      && d.provider.Some? && ContInv(x, k) && AllUnder(e, x.saved, d.live, d.provider.value)
      && (ReadyDir(d) || k.AtCommit? ==> d.provider == Some(x.next))
    case StartSeed(p) => d.provider.Some? && d.rot.None? && !p.Secret? && (p == DiliSeed ==> EdSeed in d.pubs)
    case StartPub(p, _) => d.provider.Some? && d.rot.None? && !p.Secret? && p in d.live
        && (p == DiliSeed ==> EdSeed in d.pubs)
    case StartDone => d.provider.Some? && d.rot.None? && EdSeed in d.pubs && DiliSeed in d.pubs
    case RotMkDir => d.provider.Some? && d.rot.None?
    case RotDraw => d.provider.Some? && d.rot == Some(RotDir(None, None, map[], false))
    case RotOld(prev, next) => Drawn(x, prev, next) && d.rot == Some(RotDir(None, None, map[], false))
    case RotNew(prev, next) =>
      && Drawn(x, prev, next)
      && d.rot.value.nextOld.Some? && d.rot.value.nextNew.None? && d.rot.value.staged == map[]
      && NextKeys(e, prev, next, d.rot.value.nextOld, d.rot.value.nextNew)
    case Staging(prev, next, todo) =>
      && Drawn(x, prev, next) && NextKeys(e, prev, next, d.rot.value.nextOld, d.rot.value.nextNew)
      && d.rot.value.nextOld.Some? && d.rot.value.nextNew.Some?
      && d.live.Keys - todo <= d.rot.value.staged.Keys
      && AllUnder(e, x.saved, d.rot.value.staged, x.next)
    case Commit(next, todo) =>
      && ReadyDir(d) && next == x.next && todo <= d.live.Keys && AppliedUnder(e, x, todo, x.next)
      && todo <= d.rot.value.staged.Keys
    case CommitStore(next) => ReadyDir(d) && next == x.next && AllUnder(e, x.saved, d.live, x.next)
    case CommitClean(next) => next == x.next && Settled(e, x, x.next)
    case Refresh => d.rot.None? && Settled(e, x, x.next)
  }

  ghost predicate Drawn(x: World, prev: Bytes, next: Bytes) {
    && x.prev == prev && x.next == next && |next| == 32
    && x.disk.provider == Some(prev) && x.disk.rot.Some? && !x.disk.rot.value.ready
  }

  /** What is known of a caller's record, whatever state the store is in. */
  ghost predicate ReaderInv(e: Env, x: World, cached: Bytes, r: Reader) {
    match r
    case HasMk(_, mk) => GateMk(e, x, cached) == Some(mk)
    case Fresh(req, mk, v) => GateMk(e, x, cached) == Some(mk) && ValidLabel(req.name) && (req.fixed ==> |v| == 32)
    case Exists(req, mk) => GateMk(e, x, cached) == Some(mk) && Secret(req.name) in x.saved
    case _ => true
  }

  ghost predicate ReadersInv(e: Env, x: World, cached: Bytes, readers: map<nat, Reader>) {
    forall t | t in readers :: ReaderInv(e, x, cached, readers[t])
  }

  ghost predicate ProcInv(e: Env, x: World, c: Proc)
    requires c.Up?
  {
    && WorkInv(e, x, c.work)
    && (c.serving <==> !StartWork(c.work))
    && (!c.serving ==> c.readers == map[] && !c.poisoned)
    && (c.serving ==> x.disk.provider.Some? && EdSeed in x.disk.pubs && DiliSeed in x.disk.pubs)
    && (!NoHolder(c.readers) ==> c.work.Idle?)
    && ReadersInv(e, x, c.cached, c.readers)
  }

  ghost predicate Inv(e: Env, s: Sys) {
    StoreInv(e, s.world) && SeedInv(e, s.world) && (s.proc.Up? ==> ProcInv(e, s.world, s.proc))
  }

  // ---------------------------------------------------------------------------
  // Every step keeps it
  // ---------------------------------------------------------------------------

  /** A step of the worker: what is left to show once the readers are known not to be affected. */
  lemma WorkerStep(e: Env, s: Sys, x: World, w: Work)
    requires s.proc.Up? && ProcInv(e, s.world, s.proc) && NoHolder(s.proc.readers)
    requires x.saved == s.world.saved && x.disk.pubs == s.world.disk.pubs && x.disk.provider.Some?
    requires WorkInv(e, x, w) && (s.proc.serving <==> !StartWork(w))
    ensures ProcInv(e, x, s.proc.(work := w))
  {
    NobodyInside(e, x, s.proc.cached, s.proc.readers);
  }

  /** As long as nobody holds the gate, neither the store nor the cached key matters to a caller. */
  lemma NobodyInside(e: Env, x: World, cached: Bytes, readers: map<nat, Reader>)
    requires NoHolder(readers)
    ensures ReadersInv(e, x, cached, readers)
  {
    forall t | t in readers ensures ReaderInv(e, x, cached, readers[t]) {
      assert !Holds(readers[t]);
    }
  }

  /**
   What recovery finds in a ready directory is the key of the latest rotation, and it
   takes the provider for switched exactly if it is (a rotation to the very same key
   has nothing to switch).
   */
  lemma FindNextIsNext(e: Env, x: World)
    requires StoreInv(e, x) && ReadyDir(x.disk) && FindNext(e, x.disk.rot.value, x.disk.provider.value).Some?
    ensures var found := FindNext(e, x.disk.rot.value, x.disk.provider.value).value;
      && found.0 == x.next
      && (found.1 ==> Settled(e, x, x.next))
      && (x.prev != x.next ==> (found.1 <==> x.disk.provider == Some(x.next)))
  {
    if x.prev != x.next {
      SwitchedExactly(e, x);
    }
  }

  lemma SwitchedExactly(e: Env, x: World)
    requires StoreInv(e, x) && ReadyDir(x.disk) && x.prev != x.next
    requires FindNext(e, x.disk.rot.value, x.disk.provider.value).Some?
    ensures FindNext(e, x.disk.rot.value, x.disk.provider.value).value.1 <==> x.disk.provider == Some(x.next)
  {
    hide AllUnder, Mixed;
  }

  lemma LookKeeps(e: Env, s: Sys)
    requires Inv(e, s) && s.proc.Up? && DoRecover(e, s, Look).Some?
    ensures Inv(e, DoRecover(e, s, Look).value)
  {
    hide SeedInv, ReadersInv, NoHolder, Mixed, NextKeys;
    var s' := DoRecover(e, s, Look).value;
    if ReadyDir(s.world.disk) {
      FindNextIsNext(e, s.world);
    }
    WorkerStep(e, s, s.world, s'.proc.work);
  }

  /** The store with the staged copy of `p` moved over the live file. */
  function AppliedWorld(x: World, p: KeyPath): World
    requires x.disk.rot.Some? && p in x.disk.rot.value.staged
  {
    x.(disk := x.disk.(live := x.disk.live[p := x.disk.rot.value.staged[p]]))
  }

  lemma ApplyWorld(e: Env, x: World, p: KeyPath, todo: set<KeyPath>)
    requires StoreInv(e, x) && SeedInv(e, x) && ReadyDir(x.disk)
    requires p in x.disk.live && p in x.disk.rot.value.staged && AppliedUnder(e, x, todo, x.next)
    ensures StoreInv(e, AppliedWorld(x, p)) && SeedInv(e, AppliedWorld(x, p))
    ensures AppliedUnder(e, AppliedWorld(x, p), todo - {p}, x.next)
    ensures Settled(e, x, x.next) ==> Settled(e, AppliedWorld(x, p), x.next)
    ensures AppliedWorld(x, p).disk.live.Keys == x.disk.live.Keys
  {
    var x' := AppliedWorld(x, p);
    assert x'.disk.live.Keys == x.disk.live.Keys;
    assert OpensTo(e, x.saved, p, x.disk.rot.value.staged[p], x.next);
  }

  lemma ApplyKeeps(e: Env, s: Sys, p: KeyPath)
    requires Inv(e, s) && s.proc.Up? && DoRecover(e, s, Apply(p)).Some?
    ensures Inv(e, DoRecover(e, s, Apply(p)).value)
  {
    hide StoreInv, SeedInv, AppliedUnder, Settled, ReadersInv, NoHolder;
    var s' := DoRecover(e, s, Apply(p)).value;
    ApplyWorld(e, s.world, p, s.proc.work.todo);
    assert s'.world == AppliedWorld(s.world, p);
    WorkerStep(e, s, s'.world, s'.proc.work);
  }

  lemma AppliedKeeps(e: Env, s: Sys)
    requires Inv(e, s) && s.proc.Up? && DoRecover(e, s, Applied).Some?
    ensures Inv(e, DoRecover(e, s, Applied).value)
  {
    hide ReadyOk, SeedInv, ReadersInv, NoHolder;
    var x := s.world;
    assert AllUnder(e, x.saved, x.disk.live, x.next) by {
      assert AppliedUnder(e, x, {}, x.next);
    }
    WorkerStep(e, s, x, DoRecover(e, s, Applied).value.proc.work);
  }

  /** `store_mk` of the next key once every live file is under it. */
  lemma StoreNextWorld(e: Env, x: World)
    requires StoreInv(e, x) && SeedInv(e, x) && ReadyDir(x.disk) && AllUnder(e, x.saved, x.disk.live, x.next)
    ensures StoreInv(e, x.(disk := x.disk.(provider := Some(x.next))))
    ensures SeedInv(e, x.(disk := x.disk.(provider := Some(x.next))))
    ensures Settled(e, x.(disk := x.disk.(provider := Some(x.next))), x.next)
  {
  }

  lemma StoreNextKeeps(e: Env, s: Sys)
    requires Inv(e, s) && s.proc.Up? && DoRecover(e, s, StoreNext).Some?
    ensures Inv(e, DoRecover(e, s, StoreNext).value)
  {
    hide StoreInv, SeedInv, AllUnder, ReadersInv, NoHolder;
    var s' := DoRecover(e, s, StoreNext).value;
    StoreNextWorld(e, s.world);
    assert s'.world == s.world.(disk := s.world.disk.(provider := Some(s.world.next)));
    WorkerStep(e, s, s'.world, s'.proc.work);
  }

  /** Removing an entry of a directory that has served its purpose. */
  lemma RemoveWorld(e: Env, x: World, f: Entry)
    requires StoreInv(e, x) && SeedInv(e, x) && x.disk.rot.Some? && x.disk.provider.Some?
    requires AllUnder(e, x.saved, x.disk.live, x.disk.provider.value)
    requires ReadyDir(x.disk) ==> x.disk.provider == Some(x.next)
    requires e.orderly && f != EReady ==> !x.disk.rot.value.ready
    ensures StoreInv(e, x.(disk := x.disk.(rot := Some(Without(x.disk.rot.value, f)))))
    ensures SeedInv(e, x.(disk := x.disk.(rot := Some(Without(x.disk.rot.value, f)))))
  {
  }

  lemma RemoveKeeps(e: Env, s: Sys, f: Entry)
    requires Inv(e, s) && s.proc.Up? && DoRecover(e, s, Remove(f)).Some?
    ensures Inv(e, DoRecover(e, s, Remove(f)).value)
  {
    hide StoreInv, SeedInv, ReadersInv, NoHolder, AllUnder;
    var s' := DoRecover(e, s, Remove(f)).value;
    RemoveWorld(e, s.world, f);
    WorkerStep(e, s, s'.world, s'.proc.work);
  }

  lemma RemoveDirKeeps(e: Env, s: Sys)
    requires Inv(e, s) && s.proc.Up? && DoRecover(e, s, RemoveDir).Some?
    ensures Inv(e, DoRecover(e, s, RemoveDir).value)
  {
    var s' := DoRecover(e, s, RemoveDir).value;
    WorkerStep(e, s, s'.world, s'.proc.work);
  }

  lemma CleanDoneKeeps(e: Env, s: Sys)
    requires Inv(e, s) && s.proc.Up? && DoRecover(e, s, CleanDone).Some?
    ensures Inv(e, DoRecover(e, s, CleanDone).value)
  {
    hide StoreInv, SeedInv, ReadersInv, NoHolder, AllUnder;
    WorkerStep(e, s, s.world, DoRecover(e, s, CleanDone).value.proc.work);
  }

  /** Every step of recovery and clean-up keeps the invariant. */
  lemma RecoverKeeps(e: Env, s: Sys, a: WorkAction)
    requires Inv(e, s) && s.proc.Up? && DoRecover(e, s, a).Some?
    ensures Inv(e, DoRecover(e, s, a).value)
  {
    hide Inv;
    match a
    case Look => LookKeeps(e, s);
    case Apply(p) => ApplyKeeps(e, s, p);
    case Applied => AppliedKeeps(e, s);
    case StoreNext => StoreNextKeeps(e, s);
    case Remove(f) => RemoveKeeps(e, s, f);
    case RemoveDir => RemoveDirKeeps(e, s);
    case CleanDone => CleanDoneKeeps(e, s);
    case _ =>
  }

  /** A record freshly sealed under the provider's key joins a store with no pending rotation. */
  lemma CreateWorld(e: Env, x: World, p: KeyPath, payload: Bytes, r: Draw)
    requires Lawful(e) && StoreInv(e, x) && SeedInv(e, x) && x.disk.provider.Some? && !ReadyDir(x.disk)
    requires p !in x.disk.live && (!p.Secret? ==> |payload| == 32)
    ensures var x' := Created(x, p, e.seal(x.disk.provider.value, payload, Live(p), r), payload);
      StoreInv(e, x') && SeedInv(e, x')
  {
    var x' := Created(x, p, e.seal(x.disk.provider.value, payload, Live(p), r), payload);
    assert x'.saved.Keys == x'.disk.live.Keys;
    forall q | q in x'.disk.live ensures OpensTo(e, x'.saved, q, x'.disk.live[q], x.disk.provider.value) {
      if q != p {
        assert OpensTo(e, x.saved, q, x.disk.live[q], x.disk.provider.value);
      }
    }
  }

  /** With no rotation pending, a seed file loads to the seed saved in it. */
  lemma SeedOpens(e: Env, x: World, p: KeyPath)
    requires StoreInv(e, x) && SeedInv(e, x) && x.disk.provider.Some? && !ReadyDir(x.disk)
    requires !p.Secret? && p in x.disk.live
    ensures Open32(e, Some(x.disk.live[p]), x.disk.provider.value, Live(p)) == Some(x.saved[p])
  {
    assert OpensTo(e, x.saved, p, x.disk.live[p], x.disk.provider.value);
  }

  /** What `start` and `reload_public_keys` return is determined by the saved seeds. */
  lemma IdentityLoads(e: Env, x: World)
    requires StoreInv(e, x) && SeedInv(e, x) && x.disk.provider.Some? && !ReadyDir(x.disk)
    requires EdSeed in x.disk.pubs && DiliSeed in x.disk.pubs
    ensures LoadIdentity(e, x.disk, x.disk.provider.value) == Identity(e, x.saved)
    ensures Identity(e, x.saved).Some?
  {
    SeedOpens(e, x, EdSeed);
    SeedOpens(e, x, DiliSeed);
  }

  lemma SeedCreateKeeps(e: Env, s: Sys, seed: Bytes, r: Draw)
    requires Lawful(e) && Inv(e, s) && s.proc.Up? && DoStart(e, s, SeedCreate(seed, r)).Some?
    ensures Inv(e, DoStart(e, s, SeedCreate(seed, r)).value)
  {
    hide Lawful, StoreInv, SeedInv;
    CreateWorld(e, s.world, s.proc.work.path, seed, r);
  }

  lemma PubWriteKeeps(e: Env, s: Sys)
    requires Inv(e, s) && s.proc.Up? && DoStart(e, s, PubWrite).Some?
    ensures Inv(e, DoStart(e, s, PubWrite).value)
  {
    hide AllUnder, ReadyOk;
    SeedOpens(e, s.world, s.proc.work.path);
  }

  lemma ServeKeeps(e: Env, s: Sys)
    requires Inv(e, s) && s.proc.Up? && DoStart(e, s, Serve).Some?
    ensures Inv(e, DoStart(e, s, Serve).value)
  {
    hide AllUnder, ReadyOk, LoadIdentity;
    IdentityLoads(e, s.world);
  }

  /** Every step of `start` keeps the invariant. */
  lemma StartKeeps(e: Env, s: Sys, a: WorkAction)
    requires Lawful(e) && Inv(e, s) && s.proc.Up? && DoStart(e, s, a).Some?
    ensures Inv(e, DoStart(e, s, a).value)
  {
    hide Lawful, ReadyOk, SeedOk;
    match a
    case SeedCreate(seed, r) => SeedCreateKeeps(e, s, seed, r);
    case PubWrite => PubWriteKeeps(e, s);
    case Serve => ServeKeeps(e, s);
    case _ =>
  }

  lemma DrawKeeps(e: Env, s: Sys, mk: Bytes)
    requires Inv(e, s) && s.proc.Up? && DoRotate(e, s, DrawNext(mk)).Some?
    ensures Inv(e, DoRotate(e, s, DrawNext(mk)).value)
  {
    hide SeedOk, AllUnder, ReadyOk, ReadersInv, NoHolder;
    var s' := DoRotate(e, s, DrawNext(mk)).value;
    WorkerStep(e, s, s'.world, s'.proc.work);
  }

  lemma WriteNextKeeps(e: Env, s: Sys, a: WorkAction)
    requires a.WriteNextOld? || a.WriteNextNew?
    requires Lawful(e) && Inv(e, s) && s.proc.Up? && DoRotate(e, s, a).Some?
    ensures Inv(e, DoRotate(e, s, a).value)
  {
    hide SeedOk, ReadyOk, ReadersInv, NoHolder;
    var s' := DoRotate(e, s, a).value;
    WorkerStep(e, s, s'.world, s'.proc.work);
  }

  lemma StageKeeps(e: Env, s: Sys, p: KeyPath, r: Draw)
    requires Lawful(e) && Inv(e, s) && s.proc.Up? && DoRotate(e, s, Stage(p, r)).Some?
    ensures Inv(e, DoRotate(e, s, Stage(p, r)).value)
  {
    hide SeedOk, ReadyOk, ReadersInv, NoHolder, NextKeys;
    var s' := DoRotate(e, s, Stage(p, r)).value;
    var x := s.world;
    assert OpensTo(e, x.saved, p, x.disk.live[p], x.prev);
    assert OpensTo(e, x.saved, p, s'.world.disk.rot.value.staged[p], x.next);
    WorkerStep(e, s, s'.world, s'.proc.work);
  }

  /** The marker turns a fully staged directory into a pending rotation. */
  lemma ReadyWorld(e: Env, x: World, prev: Bytes, next: Bytes)
    requires StoreInv(e, x) && SeedInv(e, x) && WorkInv(e, x, Staging(prev, next, {}))
    ensures StoreInv(e, x.(disk := x.disk.(rot := Some(x.disk.rot.value.(ready := true)))))
    ensures SeedInv(e, x.(disk := x.disk.(rot := Some(x.disk.rot.value.(ready := true)))))
  {
    assert Mixed(e, x);
  }

  lemma MarkReadyKeeps(e: Env, s: Sys)
    requires Inv(e, s) && s.proc.Up? && DoRotate(e, s, MarkReady).Some?
    ensures Inv(e, DoRotate(e, s, MarkReady).value)
  {
    hide StoreInv, SeedInv, ReadersInv, NoHolder;
    var s' := DoRotate(e, s, MarkReady).value;
    ReadyWorld(e, s.world, s.proc.work.prev, s.proc.work.next);
    WorkerStep(e, s, s'.world, s'.proc.work);
  }

  /** A marker whose error is reported leaves the same pending rotation, with nobody at work on it. */
  lemma MarkReadyErrKeeps(e: Env, s: Sys)
    requires Inv(e, s) && s.proc.Up? && DoRotate(e, s, MarkReadyErr).Some?
    ensures Inv(e, DoRotate(e, s, MarkReadyErr).value)
  {
    hide StoreInv, SeedInv, ReadersInv, NoHolder;
    var s' := DoRotate(e, s, MarkReadyErr).value;
    ReadyWorld(e, s.world, s.proc.work.prev, s.proc.work.next);
    WorkerStep(e, s, s'.world, s'.proc.work);
  }

  /** Whatever state the store is in, keys that load are those of the saved seeds. */
  lemma LoadedIdentity(e: Env, x: World, mk: Bytes)
    requires SeedInv(e, x) && LoadIdentity(e, x.disk, mk).Some?
    ensures LoadIdentity(e, x.disk, mk) == Identity(e, x.saved)
  {
  }

  lemma ReloadKeeps(e: Env, s: Sys)
    requires Inv(e, s) && s.proc.Up? && DoRotate(e, s, Reload).Some?
    ensures Inv(e, DoRotate(e, s, Reload).value)
  {
    hide AllUnder, NextKeys, LoadIdentity;
    LoadedIdentity(e, s.world, s.world.disk.provider.value);
    var s' := DoRotate(e, s, Reload).value;
    NobodyInside(e, s'.world, s.proc.cached, s.proc.readers);
  }

  /** Every step of `rotate_now` and `reload_public_keys` keeps the invariant. */
  lemma RotateKeeps(e: Env, s: Sys, a: WorkAction)
    requires Lawful(e) && Inv(e, s) && s.proc.Up? && DoRotate(e, s, a).Some?
    ensures Inv(e, DoRotate(e, s, a).value)
  {
    hide Lawful, AllUnder, ReadyOk, SeedOk, ReadersInv, NoHolder;
    match a
    case DrawNext(mk) => DrawKeeps(e, s, mk);
    case WriteNextOld(_) => WriteNextKeeps(e, s, a);
    case WriteNextNew(_) => WriteNextKeeps(e, s, a);
    case Stage(p, r) => StageKeeps(e, s, p, r);
    case MarkReady => MarkReadyKeeps(e, s);
    case MarkReadyErr => MarkReadyErrKeeps(e, s);
    case Reload => ReloadKeeps(e, s);
    case RotateBegin => WorkerStep(e, s, s.world, Recover(AtRotate));
    case MkDir =>
      var s' := DoRotate(e, s, a).value;
      WorkerStep(e, s, s'.world, s'.proc.work);
    case RefreshMk =>
      var s' := DoRotate(e, s, a).value;
      NobodyInside(e, s'.world, s'.proc.cached, s.proc.readers);
    case _ =>
  }

  lemma FailKeeps(e: Env, s: Sys)
    requires Inv(e, s) && s.proc.Up? && DoFail(e, s).Some?
    ensures Inv(e, DoFail(e, s).value)
  {
    hide StoreInv, AllUnder, SeedInv, ReadersInv, NoHolder;
  }

  /** A reader moves on and nothing else changes. */
  lemma ReaderStep(e: Env, s: Sys, t: nat, r: Reader)
    requires s.proc.Up? && s.proc.serving && ProcInv(e, s.world, s.proc) && ReaderInv(e, s.world, s.proc.cached, r)
    requires Holds(r) ==> s.proc.work.Idle?
    ensures ProcInv(e, s.world, s.proc.(readers := s.proc.readers[t := r]))
  {
    hide WorkInv, ReaderInv;
    var rs := s.proc.readers[t := r];
    if !NoHolder(rs) && !Holds(r) {
      var u :| u in rs && Holds(rs[u]);
      assert Holds(s.proc.readers[u]);
    }
  }

  /** On a quiet store a caller creates its file under the key that opens every live file. */
  lemma LinkKeeps(e: Env, s: Sys, t: nat, r: Draw)
    requires Lawful(e) && Inv(e, s) && s.proc.Up? && DoRead(e, s, t, Link(r)).Some? && !Hazard(e, s, Read(t, Link(r)))
    ensures Inv(e, DoRead(e, s, t, Link(r)).value)
  {
    hide Lawful, StoreInv, SeedOk;
    var s', c := DoRead(e, s, t, Link(r)).value, s.proc.readers[t];
    assert ReaderInv(e, s.world, s.proc.cached, c) && Holds(c);
    var p := Secret(c.req.name);
    if p in s.world.disk.live {
      LinkFindsFile(e, s, t, c);
    } else {
      SavedAreLive(e, s.world);
      CreateWorld(e, s.world, p, c.v, r);
      LinkReaders(e, s.world, s'.world, s.proc.cached, s.proc.readers, t, s'.proc.readers[t]);
    }
  }

  lemma SavedAreLive(e: Env, x: World)
    requires StoreInv(e, x)
    ensures x.saved.Keys == x.disk.live.Keys
  {
  }

  lemma LinkFindsFile(e: Env, s: Sys, t: nat, c: Reader)
    requires Inv(e, s) && s.proc.Up? && t in s.proc.readers && s.proc.readers[t] == c && c.Fresh?
    requires Secret(c.req.name) in s.world.disk.live
    ensures Inv(e, WithReader(s, t, Exists(c.req, c.mk)))
  {
    hide ReadyOk, AllUnder, SeedOk, WorkInv;
    assert ReaderInv(e, s.world, s.proc.cached, c) && Holds(c);
    ReaderStep(e, s, t, Exists(c.req, c.mk));
  }

  lemma LinkReaders(e: Env, x: World, x': World, cached: Bytes, rs: map<nat, Reader>, t: nat, r: Reader)
    requires ReadersInv(e, x, cached, rs) && ReaderInv(e, x', cached, r)
    requires x'.disk.provider == x.disk.provider && x.saved.Keys <= x'.saved.Keys
    ensures ReadersInv(e, x', cached, rs[t := r])
  {
    var rs' := rs[t := r];
    forall u | u in rs' ensures ReaderInv(e, x', cached, rs'[u]) {
      if u != t {
        assert ReaderInv(e, x, cached, rs[u]);
      }
    }
  }

  lemma ForgetKeeps(e: Env, s: Sys, t: nat)
    requires Inv(e, s) && s.proc.Up? && DoRead(e, s, t, Forget).Some?
    ensures Inv(e, DoRead(e, s, t, Forget).value)
  {
    hide StoreInv, SeedInv, WorkInv, ReaderInv;
    var rs := s.proc.readers - {t};
    if !NoHolder(rs) {
      var u :| u in rs && Holds(rs[u]);
      assert Holds(s.proc.readers[u]);
    }
  }

  /** Every step of a caller keeps the invariant, unless it creates a file in a store that is not quiet. */
  lemma ReadKeeps(e: Env, s: Sys, t: nat, a: ReadAction)
    requires Lawful(e) && Inv(e, s) && s.proc.Up? && DoRead(e, s, t, a).Some?
    requires !Hazard(e, s, Read(t, a))
    ensures Inv(e, DoRead(e, s, t, a).value)
  {
    hide Lawful, ReadyOk, AllUnder, SeedOk, WorkInv;
    var s' := DoRead(e, s, t, a).value;
    if !a.Begin? {
      assert ReaderInv(e, s.world, s.proc.cached, s.proc.readers[t]);
    }
    match a
    case Link(r) => LinkKeeps(e, s, t, r);
    case Forget => ForgetKeeps(e, s, t);
    case _ => ReaderStep(e, s, t, s'.proc.readers[t]);
  }

  /** Every step of the system keeps the invariant, the hazard aside. */
  lemma StepKeeps(e: Env, s: Sys, a: Action)
    requires Lawful(e) && Inv(e, s) && Do(e, s, a).Some? && !Hazard(e, s, a)
    ensures Inv(e, Do(e, s, a).value)
  {
    hide Lawful, StoreInv, SeedInv, WorkInv, Quiet, DoRecover, DoStart, DoRotate, DoRead, DoFail;
    match a
    case Crash =>
    case Boot => BootKeeps(e, s);
    case PolicyPoison =>
    case Fail => FailKeeps(e, s);
    case Worker(w) =>
      if w.Look? || w.Apply? || w.Applied? || w.StoreNext? || w.Remove? || w.RemoveDir? || w.CleanDone? {
        RecoverKeeps(e, s, w);
      } else if w.BootMk? || w.BootSkip? || w.SeedLoad? || w.SeedCreate? || w.PubWrite? || w.PubCheck? || w.Serve? {
        StartKeeps(e, s, w);
      } else {
        RotateKeeps(e, s, w);
      }
    case Read(t, r) => ReadKeeps(e, s, t, r);
  }

  lemma BootKeeps(e: Env, s: Sys)
    requires Inv(e, s) && s.proc.Down?
    ensures Inv(e, s.(proc := Up(StartLoad, false, false, [], map[])))
  {
    hide StoreInv, SeedInv;
  }

  lemma InitInv(e: Env)
    ensures Inv(e, INIT)
  {
  }

  /** The invariant holds in every state of every run in which the hazard does not happen. */
  lemma {:induction false} RunKeeps(e: Env, s: Sys, acts: seq<Action>, s': Sys)
    requires Lawful(e) && Inv(e, s) && Runs(e, s, acts, s')
    ensures Inv(e, s')
    decreases |acts|
  {
    hide Lawful, Inv, Do, Hazard;
    if acts != [] {
      var front := acts[..|acts| - 1];
      var m := Exec(e, s, front).value;
      RunKeeps(e, s, front, m);
      StepKeeps(e, m, acts[|acts| - 1]);
    }
  }

  /** Every state that a run from the empty store reaches satisfies the invariant. */
  lemma ReachableInv(e: Env, acts: seq<Action>, s: Sys)
    requires Lawful(e) && Runs(e, INIT, acts, s)
    ensures Inv(e, s)
  {
    hide Lawful, Runs;
    InitInv(e);
    RunKeeps(e, INIT, acts, s);
  }
}
