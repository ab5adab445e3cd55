/** The rotation protocol over the real record format. */
module KeyStore {
  import opened Wrappers
  import opened ByteStrings
  import opened Rotation
  import opened RotationSafety
  import opened RotationGate
  import opened RotationTheorems
  import opened RotationHazards
  import opened Suites
  import KeyPaths
  import Keyfile

  /** The key type under which a record is rewrapped: for a live file, the one found on disk. */
  function RewrapKeyType(kind: Kind): string {
    match kind
    case Live(p) => KeyPaths.CollectedKeyType(p)
    case _ => KeyPaths.KeyTypeOf(kind)
  }

  /** The environment in which key files are byte strings in the `.keyf` format. */
  function FileEnv(c: Keyfile.Suite, pubOf: (KeyPath, Bytes) -> Bytes,
                   cachedMk: bool, orderly: bool, repairMissing: bool): Env
  {
    Env((b, mk, kind) => Keyfile.Load(c, b, mk, KeyPaths.KeyTypeOf(kind)),
        (b, oldMk, newMk, kind, r: Draw) => Keyfile.Rewrap(c, b, oldMk, newMk, RewrapKeyType(kind), r),
        (mk, payload, kind, r: Draw) => Keyfile.Encode(c, mk, payload, KeyPaths.KeyTypeOf(kind), r),
        pubOf, cachedMk, orderly, repairMissing)
  }

  lemma RewrapTypeIsOriginal(kind: Kind)
    ensures RewrapKeyType(kind) == KeyPaths.KeyTypeOf(kind)
  {
    if kind.Live? {
      KeyPaths.CollectedKeyTypeIsOriginal(kind.path);
    }
  }

  /** The `.keyf` format gives the protocol what it needs. */
  lemma FileEnvLawful(c: Keyfile.Suite, pubOf: (KeyPath, Bytes) -> Bytes, cachedMk: bool, orderly: bool,
                      repairMissing: bool)
    requires Keyfile.SuiteOk(c)
    ensures Lawful(FileEnv(c, pubOf, cachedMk, orderly, repairMissing))
  {
    hide Keyfile.Load, Keyfile.Rewrap, Keyfile.Encode, KeyPaths.KeyTypeOf, RewrapKeyType, Keyfile.SuiteOk;
    var e := FileEnv(c, pubOf, cachedMk, orderly, repairMissing);
    forall mk, payload, kind, r ensures e.open(e.seal(mk, payload, kind, r), mk, kind) == Keyfile.Readable(payload) {
      Keyfile.SavedLoadsIffSmall(c, mk, mk, payload, KeyPaths.KeyTypeOf(kind), r, r);
    }
    forall b, prev, next, kind, r
      ensures e.open(b, prev, kind).Some? ==> e.rewrap(b, prev, next, kind, r).Some?
      ensures e.rewrap(b, prev, next, kind, r).Some? ==>
        e.open(e.rewrap(b, prev, next, kind, r).value, next, kind) == e.open(b, prev, kind)
    {
      RewrapTypeIsOriginal(kind);
      Keyfile.RewrapPreserves(c, b, prev, next, KeyPaths.KeyTypeOf(kind), r);
    }
  }

  /**
   Crash safety down to the bytes: after any run of the manager on `.keyf` files,
   with crashes and I/O errors anywhere, the next start's recovery succeeds, and
   every file then loads under the provider's key to the payload first saved in it.
   */
  lemma CrashSafeFiles(c: Keyfile.Suite, pubOf: (KeyPath, Bytes) -> Bytes, cachedMk: bool, repairMissing: bool,
                       acts: seq<Action>, s: Sys)
    requires Keyfile.SuiteOk(c) && Runs(FileEnv(c, pubOf, cachedMk, true, repairMissing), INIT, acts, s)
    ensures var x := s.world;
      var d := RecoverAll(FileEnv(c, pubOf, cachedMk, true, repairMissing), x.disk);
      && d.Some? && d.value.live.Keys == x.saved.Keys
      && (x.disk.provider.Some? ==> d.value.rot.None? && d.value.provider.Some?)
      && (d.value.provider.Some? ==> forall p | p in x.saved ::
            Keyfile.Load(c, d.value.live[p], d.value.provider.value, KeyPaths.KeyTypeOf(Live(p)))
                == Keyfile.Readable(x.saved[p]))
  {
    hide Keyfile.Load, Keyfile.Rewrap, Keyfile.Encode, KeyPaths.KeyTypeOf, Keyfile.SuiteOk, Runs, RecoverAll, Lawful;
    FileEnvLawful(c, pubOf, cachedMk, true, repairMissing);
    CrashSafe(FileEnv(c, pubOf, cachedMk, true, repairMissing), acts, s);
  }

  // ---------------------------------------------------------------------------
  // Rotations of `.keyf` files happen
  // ---------------------------------------------------------------------------

  /** A cipher whose ciphertexts open under `special` exactly if they were made under it. */
  function TaggingSuite(special: Bytes): Keyfile.Suite {
    MarkingSuite((k, n, a) => k == special, Passing())
  }

  lemma TaggingSuiteOk(special: Bytes)
    ensures Keyfile.SuiteOk(TaggingSuite(special))
  {
    hide Keyfile.SuiteOk, MarkingSuite;
    MarkingSuiteOk((k, n, a) => k == special, Passing());
  }

  /** Under such a cipher neither copy of the next master key opens under another key. */
  lemma TaggingSuiteSeparates(newMk: Bytes32, pubOf: (KeyPath, Bytes) -> Bytes,
                              cachedMk: bool, orderly: bool, repairMissing: bool, oldDraw: Draw, newDraw: Draw)
    ensures Exclusive(FileEnv(TaggingSuite(newMk), pubOf, cachedMk, orderly, repairMissing), newMk, oldDraw, newDraw)
  {
    hide Keyfile.Load, Keyfile.Encode, KeyPaths.KeyTypeOf;
    var c, kOld, kNew := TaggingSuite(newMk), KeyPaths.KeyTypeOf(NextOld), KeyPaths.KeyTypeOf(NextNew);
    forall mk: Bytes32 | mk != newMk
      ensures Keyfile.Load(c, Keyfile.Encode(c, mk, newMk, kOld, oldDraw), newMk, kOld) == None
      ensures Keyfile.Load(c, Keyfile.Encode(c, newMk, newMk, kNew, newDraw), mk, kNew) == None
    {
      OtherKeyRefused(newMk, mk, newMk, newMk, kOld, oldDraw);
      OtherKeyRefused(newMk, newMk, mk, newMk, kNew, newDraw);
    }
  }

  lemma OtherKeyRefused(special: Bytes32, mk: Bytes32, mk': Bytes32, payload: Bytes, keyType: string, g: Draw)
    requires (mk == special) != (mk' == special) && |payload| <= Keyfile.MAX_PAYLOAD
    ensures var c := TaggingSuite(special);
      Keyfile.Load(c, Keyfile.Encode(c, mk, payload, keyType, g), mk', keyType) == None
  {
    hide Keyfile.Load, Keyfile.AadFor, Keyfile.SuiteOk;
    var c, aad := TaggingSuite(special), Keyfile.AadFor(keyType);
    MarkingSuiteRefuses((k, n, a) => k == special, Passing(), mk, g.nonceWrap, aad, mk', g.nonceWrap, aad, g.dek);
    var r := Keyfile.Sealed(c, mk, payload, keyType, g);
    assert |r.ctWrap| == 48 && |r.ctPayload| == |payload| + 16;
    Keyfile.LoadRefused(c, r, mk', keyType);
  }

  /** There is a cipher with which a fresh store of `.keyf` files is rotated from any first key to any next one. */
  lemma FilesCanRotate(pubOf: (KeyPath, Bytes) -> Bytes, cachedMk: bool, orderly: bool, repairMissing: bool,
                       g: StartDraw, q: RotateDraw)
    returns (c: Keyfile.Suite, acts: seq<Action>, s: Sys)
    ensures Keyfile.SuiteOk(c) && Runs(FileEnv(c, pubOf, cachedMk, orderly, repairMissing), INIT, acts, s)
    ensures Worker(MarkReady) in acts && s.world.prev == g.mk && s.world.next == q.next
    ensures s.world.disk.provider == Some(q.next) && s.world.disk.rot.None?
    ensures s.world.saved == map[EdSeed := g.ed, DiliSeed := g.dili]
  {
    hide TaggingSuite, FileEnv, Exclusive, Lawful, Keyfile.SuiteOk, Runs;
    c := TaggingSuite(q.next);
    TaggingSuiteOk(q.next);
    TaggingSuiteSeparates(q.next, pubOf, cachedMk, orderly, repairMissing, q.oldDraw, q.newDraw);
    FileEnvLawful(c, pubOf, cachedMk, orderly, repairMissing);
    acts, s := RotationCompletes(FileEnv(c, pubOf, cachedMk, orderly, repairMissing), g, q);
  }

  // ---------------------------------------------------------------------------
  // A file that is too large to be read back
  // ---------------------------------------------------------------------------

  /** The file at `p` is over the read limit, and the store is on no path that could replace it. */
  predicate Stuck(s: Sys, p: KeyPath) {
    && p in s.world.disk.live && |s.world.disk.live[p]| > Keyfile.MAX_KEYFILE_SIZE
    && s.world.disk.provider.Some? && !ReadyDir(s.world.disk)
    && (s.proc.Up? ==> StuckWork(s.proc.work, p))
  }

  predicate StuckWork(w: Work, p: KeyPath) {
    (PreCommit(w) || StartWork(w)) && !w.RecApply? && !w.RecStore? && (w.Staging? ==> p in w.todo)
  }

  /** What such a file keeps out of a step. */
  predicate Unmoved(s: Sys, s': Sys, p: KeyPath)
    requires Stuck(s, p)
  {
    Stuck(s', p) && s'.world.disk.live[p] == s.world.disk.live[p] && s'.world.disk.provider == s.world.disk.provider
  }

  lemma StuckRecover(e: Env, s: Sys, a: WorkAction, p: KeyPath)
    requires Stuck(s, p) && s.proc.Up? && DoRecover(e, s, a).Some?
    ensures Unmoved(s, DoRecover(e, s, a).value, p)
  {
    hide FindNext;
  }

  lemma StuckStart(e: Env, s: Sys, a: WorkAction, p: KeyPath)
    requires Stuck(s, p) && s.proc.Up? && DoStart(e, s, a).Some?
    ensures Unmoved(s, DoStart(e, s, a).value, p)
  {
    hide Open32, LoadIdentity;
  }

  lemma StuckRotate(e: Env, s: Sys, a: WorkAction, p: KeyPath)
    requires Stuck(s, p) && s.proc.Up? && DoRotate(e, s, a).Some?
    requires forall prev, next, r :: e.rewrap(s.world.disk.live[p], prev, next, Live(p), r) == None
    ensures Unmoved(s, DoRotate(e, s, a).value, p) && a != MarkReady && a != MarkReadyErr
  {
    hide LoadIdentity, NoHolder;
  }

  lemma StuckRead(e: Env, s: Sys, t: nat, a: ReadAction, p: KeyPath)
    requires Stuck(s, p) && s.proc.Up? && DoRead(e, s, t, a).Some?
    ensures Unmoved(s, DoRead(e, s, t, a).value, p)
  {
  }

  /** A file that cannot be rewrapped survives every step, and no step writes the marker. */
  lemma StuckStep(e: Env, s: Sys, a: Action, p: KeyPath)
    requires Stuck(s, p) && Do(e, s, a).Some?
    requires forall prev, next, r :: e.rewrap(s.world.disk.live[p], prev, next, Live(p), r) == None
    ensures Unmoved(s, Do(e, s, a).value, p) && a != Worker(MarkReady) && a != Worker(MarkReadyErr)
  {
    hide DoRecover, DoStart, DoRotate, DoRead;
    match a
    case Worker(w) =>
      if w.Look? || w.Apply? || w.Applied? || w.StoreNext? || w.Remove? || w.RemoveDir? || w.CleanDone? {
        StuckRecover(e, s, w, p);
      } else if w.BootMk? || w.BootSkip? || w.SeedLoad? || w.SeedCreate? || w.PubWrite? || w.PubCheck? || w.Serve? {
        StuckStart(e, s, w, p);
      } else {
        StuckRotate(e, s, w, p);
      }
    case Read(t, r) => StuckRead(e, s, t, r, p);
    case _ =>
  }

  lemma TooLargeToRewrap(c: Keyfile.Suite, pubOf: (KeyPath, Bytes) -> Bytes, cachedMk: bool, orderly: bool,
                         repairMissing: bool,
                         b: Bytes, p: KeyPath)
    requires |b| > Keyfile.MAX_KEYFILE_SIZE
    ensures var e := FileEnv(c, pubOf, cachedMk, orderly, repairMissing);
      forall prev, next, r :: e.rewrap(b, prev, next, Live(p), r) == None
  {
  }

  lemma {:induction false} StuckRun(e: Env, s: Sys, acts: seq<Action>, s': Sys, p: KeyPath)
    requires Stuck(s, p) && Exec(e, s, acts) == Some(s')
    requires forall prev, next, r :: e.rewrap(s.world.disk.live[p], prev, next, Live(p), r) == None
    ensures Unmoved(s, s', p) && Worker(MarkReady) !in acts && Worker(MarkReadyErr) !in acts
    decreases |acts|
  {
    hide Do, Stuck;
    if acts != [] {
      var front := acts[..|acts| - 1];
      var m := Exec(e, s, front).value;
      StuckRun(e, s, front, m, p);
      StuckStep(e, m, acts[|acts| - 1], p);
      assert acts == front + [acts[|acts| - 1]];
    }
  }

  /** What one step adds to the store: a seed, or what a caller links. */
  lemma NewlySaved(e: Env, s: Sys, a: Action, p: KeyPath)
    requires Do(e, s, a).Some? && p in Do(e, s, a).value.world.saved && p !in s.world.saved
    ensures var s' := Do(e, s, a).value;
      || |s'.world.saved[p]| == 32
      || (a.Read? && a.r.Link? && s.proc.Up? && a.t in s.proc.readers && s.proc.readers[a.t].Fresh?
          && var c := s.proc.readers[a.t];
             p == Secret(c.req.name) && s'.world == Created(s.world, p, e.seal(c.mk, c.v, Live(p), a.r.r), c.v)
             && s'.proc.Up? && s'.proc.work == s.proc.work)
  {
    hide FindNext, Open32, LoadIdentity, NoHolder;
  }

  /** Whoever links a file finds the worker idle. */
  lemma LinksWhenIdle(e: Env, s: Sys, t: nat)
    requires Inv(e, s) && s.proc.Up? && t in s.proc.readers && s.proc.readers[t].Fresh?
    ensures s.proc.work.Idle? && s.world.saved.Keys == s.world.disk.live.Keys
  {
    hide SeedInv, WorkInv, ReadersInv, AllUnder, ReadyOk;
    assert Holds(s.proc.readers[t]);
  }

  ghost predicate OversizedStuck(s: Sys) {
    forall p | p in s.world.saved && |s.world.saved[p]| > Keyfile.MAX_PAYLOAD :: Stuck(s, p)
  }

  lemma OversizedStep(c: Keyfile.Suite, pubOf: (KeyPath, Bytes) -> Bytes, cachedMk: bool, orderly: bool,
                      repairMissing: bool, s: Sys, a: Action)
    requires var e := FileEnv(c, pubOf, cachedMk, orderly, repairMissing);
      Keyfile.SuiteOk(c) && Inv(e, s) && Do(e, s, a).Some? && !Hazard(e, s, a) && OversizedStuck(s)
    ensures OversizedStuck(Do(FileEnv(c, pubOf, cachedMk, orderly, repairMissing), s, a).value)
  {
    hide Keyfile.SuiteOk, Inv, Do, Stuck, FileEnv;
    var e := FileEnv(c, pubOf, cachedMk, orderly, repairMissing);
    var s' := Do(e, s, a).value;
    SavedStays(e, s, a);
    forall p | p in s'.world.saved && |s'.world.saved[p]| > Keyfile.MAX_PAYLOAD ensures Stuck(s', p) {
      if p in s.world.saved {
        assert |s.world.disk.live[p]| > Keyfile.MAX_KEYFILE_SIZE by {
          StuckIsOversized(s, p);
        }
        TooLargeToRewrap(c, pubOf, cachedMk, orderly, repairMissing, s.world.disk.live[p], p);
        StuckStep(e, s, a, p);
      } else {
        NewlySaved(e, s, a, p);
        LinksWhenIdle(e, s, a.t);
        LinkedIsStuck(c, pubOf, cachedMk, orderly, repairMissing, s, s', a.t, p, a.r.r);
      }
    }
  }

  lemma StuckIsOversized(s: Sys, p: KeyPath)
    requires Stuck(s, p)
    ensures p in s.world.disk.live && |s.world.disk.live[p]| > Keyfile.MAX_KEYFILE_SIZE
  {
  }

  lemma LinkedIsStuck(c: Keyfile.Suite, pubOf: (KeyPath, Bytes) -> Bytes, cachedMk: bool, orderly: bool,
                      repairMissing: bool,
                      s: Sys, s': Sys, t: nat, p: KeyPath, r: Draw)
    requires Keyfile.SuiteOk(c) && s.proc.Up? && s'.proc.Up? && t in s.proc.readers && s.proc.readers[t].Fresh?
    requires s.proc.work.Idle? && s'.proc.work.Idle? && |s.proc.readers[t].v| > Keyfile.MAX_PAYLOAD
    requires var e, f := FileEnv(c, pubOf, cachedMk, orderly, repairMissing), s.proc.readers[t];
      Quiet(e, s.world, s.proc.cached) && s'.world == Created(s.world, p, e.seal(f.mk, f.v, Live(p), r), f.v)
    ensures Stuck(s', p)
  {
    hide Keyfile.SuiteOk, Keyfile.Load, Keyfile.Rewrap, Keyfile.Encode, KeyPaths.KeyTypeOf;
    var f := s.proc.readers[t];
    Keyfile.SavedLoadsIffSmall(c, f.mk, f.mk, f.v, KeyPaths.KeyTypeOf(Live(p)), r, r);
  }

  lemma {:induction false} OversizedRun(c: Keyfile.Suite, pubOf: (KeyPath, Bytes) -> Bytes, cachedMk: bool,
                                        orderly: bool, repairMissing: bool,
                                        acts: seq<Action>, s: Sys)
    requires Keyfile.SuiteOk(c) && Runs(FileEnv(c, pubOf, cachedMk, orderly, repairMissing), INIT, acts, s)
    ensures OversizedStuck(s)
    decreases |acts|
  {
    hide Keyfile.SuiteOk, Do, FileEnv, Inv, Hazard, Lawful, Stuck;
    if acts != [] {
      var e, front := FileEnv(c, pubOf, cachedMk, orderly, repairMissing), acts[..|acts| - 1];
      var m := Exec(e, INIT, front).value;
      OversizedRun(c, pubOf, cachedMk, orderly, repairMissing, front, m);
      FileEnvLawful(c, pubOf, cachedMk, orderly, repairMissing);
      ReachableInv(e, front, m);
      OversizedStep(c, pubOf, cachedMk, orderly, repairMissing, m, acts[|acts| - 1]);
    }
  }

  /**
   Once a sealed blob over the limit has been accepted, no rotation ever succeeds:
   whatever happens afterwards, crashes, late callers and I/O errors included, the
   marker is never written, the provider keeps its key and that file its bytes.
   */
  lemma OversizedBlobStopsRotation(c: Keyfile.Suite, pubOf: (KeyPath, Bytes) -> Bytes, cachedMk: bool, orderly: bool,
                                   repairMissing: bool,
                                   acts: seq<Action>, s: Sys, p: KeyPath, more: seq<Action>, s': Sys)
    requires Keyfile.SuiteOk(c) && Runs(FileEnv(c, pubOf, cachedMk, orderly, repairMissing), INIT, acts, s)
    requires p in s.world.saved && |s.world.saved[p]| > Keyfile.MAX_PAYLOAD
    requires Exec(FileEnv(c, pubOf, cachedMk, orderly, repairMissing), s, more) == Some(s')
    ensures Worker(MarkReady) !in more && Worker(MarkReadyErr) !in more && !ReadyDir(s'.world.disk)
    ensures s'.world.disk.provider == s.world.disk.provider
    ensures p in s.world.disk.live && p in s'.world.disk.live && s'.world.disk.live[p] == s.world.disk.live[p]
  {
    hide Keyfile.SuiteOk, FileEnv, Runs, Exec;
    OversizedRun(c, pubOf, cachedMk, orderly, repairMissing, acts, s);
    TooLargeToRewrap(c, pubOf, cachedMk, orderly, repairMissing, s.world.disk.live[p], p);
    StuckRun(FileEnv(c, pubOf, cachedMk, orderly, repairMissing), s, more, s', p);
  }

  /** Such a blob is accepted by a manager that has just started. */
  lemma OversizedBlobAccepted(c: Keyfile.Suite, pubOf: (KeyPath, Bytes) -> Bytes, cachedMk: bool, orderly: bool,
                              repairMissing: bool,
                              g: StartDraw, name: Bytes, v: Bytes, r: Draw) returns (acts: seq<Action>, s: Sys)
    requires Keyfile.SuiteOk(c) && ValidLabel(name) && |v| > Keyfile.MAX_PAYLOAD
    ensures Runs(FileEnv(c, pubOf, cachedMk, orderly, repairMissing), INIT, acts, s)
    ensures Returned(s, 0, name, v) && Secret(name) in s.world.saved && s.world.saved[Secret(name)] == v
  {
    hide Keyfile.SuiteOk, FileEnv, Runs, Lawful;
    FileEnvLawful(c, pubOf, cachedMk, orderly, repairMissing);
    acts, s := FirstCreate(FileEnv(c, pubOf, cachedMk, orderly, repairMissing), g, Request(name, false), v, r);
  }

  /** The first caller of a fresh store creates its secret. */
  lemma FirstCreate(e: Env, g: StartDraw, req: Request, v: Bytes, r: Draw) returns (acts: seq<Action>, s: Sys)
    requires Lawful(e) && ValidLabel(req.name) && (req.fixed ==> |v| == 32)
    ensures Runs(e, INIT, acts, s) && Returned(s, 0, req.name, v)
    ensures Secret(req.name) in s.world.saved && s.world.saved[Secret(req.name)] == v
  {
    hide Runs, Exec, Lawful;
    acts := FirstStart(e, g);
    var x, p := FirstWorld(e, g), Secret(req.name);
    var s0 := Sys(x, Up(Idle, true, false, g.mk, map[]));
    var s1 := WithReader(s0, 0, Checked(req));
    Extend(e, acts, s0, Read(0, Begin(req)), s1);
    acts := acts + [Read(0, Begin(req))];
    var s2 := WithReader(s1, 0, Holding(req));
    Extend(e, acts, s1, Read(0, Acquire), s2);
    acts := acts + [Read(0, Acquire)];
    var s3 := WithReader(s2, 0, HasMk(req, g.mk));
    Extend(e, acts, s2, Read(0, FetchMk), s3);
    acts := acts + [Read(0, FetchMk)];
    var s4 := WithReader(s3, 0, Fresh(req, g.mk, v));
    Extend(e, acts, s3, Read(0, CheckExists(v)), s4);
    acts := acts + [Read(0, CheckExists(v))];
    s := Sys(Created(x, p, e.seal(g.mk, v, Live(p), r), v),
        s4.proc.(readers := s4.proc.readers[0 := Done(req, Some(v))]));
    Extend(e, acts, s4, Read(0, Link(r)), s);
    acts := acts + [Read(0, Link(r))];
  }
}
