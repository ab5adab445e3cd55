/**
 Where the protocol's promises end.  Each failing case is shown as a run of the
 system, together with the exact condition under which the promise holds.
 */
module RotationHazards {
  import opened Wrappers
  import opened ByteStrings
  import Keyfile
  import opened Rotation
  import opened RotationSafety
  import opened RotationTheorems
  import opened RotationBlocked

  /** A record format in which a record opens under its own 32-byte master key only. */
  function IdealEnv(cachedMk: bool, orderly: bool, repairMissing: bool): Env {
    Env((b, mk, kind) => if mk <= b then Keyfile.Readable(b[|mk|..]) else None,
        (b, prev, next, kind, r) => if prev <= b then Some(next + b[|prev|..]) else None,
        (mk, payload, kind, r) => mk + payload,
        (p, seed) => seed, cachedMk, orderly, repairMissing)
  }

  /** What the protocol assumes of a record format can be had. */
  lemma IdealEnvIsLawful(cachedMk: bool, orderly: bool, repairMissing: bool, newMk: Bytes32, oldDraw: Draw,
                         newDraw: Draw)
    ensures var e := IdealEnv(cachedMk, orderly, repairMissing); Lawful(e) && Exclusive(e, newMk, oldDraw, newDraw)
    ensures var e := IdealEnv(cachedMk, orderly, repairMissing);
      forall mk: Bytes32, payload: Bytes, kind: Kind, r: Draw | mk != newMk ::
          e.open(e.seal(mk, payload, kind, r), newMk, kind) == None
  {
    assert forall mk: Bytes, payload: Bytes :: (mk + payload)[|mk|..] == payload;
    var e := IdealEnv(cachedMk, orderly, repairMissing);
    forall mk: Bytes32 | mk != newMk
      ensures e.open(e.seal(mk, newMk, NextOld, oldDraw), newMk, NextOld) == None
      ensures e.open(e.seal(newMk, newMk, NextNew, newDraw), mk, NextNew) == None
    {
      assert (mk + newMk)[..32] == mk && (newMk + newMk)[..32] == newMk;
    }
    forall mk: Bytes32, payload: Bytes, kind: Kind, r: Draw | mk != newMk
      ensures e.open(e.seal(mk, payload, kind, r), newMk, kind) == None
    {
      assert (mk + payload)[..32] == mk;
    }
  }

  // ---------------------------------------------------------------------------
  // A first start, and a rotation up to its marker
  // ---------------------------------------------------------------------------

  /** The store after a first start and nothing else. */
  ghost function FirstWorld(e: Env, g: StartDraw): World {
    var ed, dili := e.pubOf(EdSeed, g.ed), e.pubOf(DiliSeed, g.dili);
    World(Disk(Some(g.mk),
               map[EdSeed := e.seal(g.mk, g.ed, Live(EdSeed), g.edDraw),
                   DiliSeed := e.seal(g.mk, g.dili, Live(DiliSeed), g.diliDraw)],
               map[EdSeed := ed, DiliSeed := dili], None),
          map[EdSeed := g.ed, DiliSeed := g.dili], [], [], Some(Keys(ed, dili)))
  }

  /** The store after a crash between the first seed file and its public key. */
  ghost function HalfWorld(e: Env, g: StartDraw): World {
    World(Disk(Some(g.mk), map[EdSeed := e.seal(g.mk, g.ed, Live(EdSeed), g.edDraw)], map[], None),
          map[EdSeed := g.ed], [], [], None)
  }

  lemma NoSteps(e: Env)
    ensures Runs(e, INIT, [], INIT)
  {
  }

  lemma Extend(e: Env, acts: seq<Action>, s: Sys, a: Action, s': Sys)
    requires Runs(e, INIT, acts, s) && Do(e, s, a) == Some(s')
    ensures Exec(e, INIT, acts + [a]) == Some(s')
    ensures !Hazard(e, s, a) ==> Runs(e, INIT, acts + [a], s')
  {
    hide Do, Hazard;
    assert (acts + [a])[..|acts + [a]| - 1] == acts;
  }

  function Starting(w: Work): Proc {
    Up(w, false, false, [], map[])
  }

  lemma FirstSeed(e: Env, g: StartDraw) returns (acts: seq<Action>)
    ensures Runs(e, INIT, acts, Sys(HalfWorld(e, g), Starting(StartPub(EdSeed, true))))
  {
    hide Runs, Exec;
    NoSteps(e);
    acts := [];
    Extend(e, acts, INIT, Boot, Sys(INIT.world, Starting(StartLoad)));
    acts := acts + [Boot];
    var x := INIT.world.(disk := INIT.world.disk.(provider := Some(g.mk)));
    Extend(e, acts, Sys(INIT.world, Starting(StartLoad)), Worker(BootMk(g.mk)), Sys(x, Starting(Recover(AtStart))));
    acts := acts + [Worker(BootMk(g.mk))];
    Extend(e, acts, Sys(x, Starting(Recover(AtStart))), Worker(Look), Sys(x, Starting(StartSeed(EdSeed))));
    acts := acts + [Worker(Look)];
    Extend(e, acts, Sys(x, Starting(StartSeed(EdSeed))), Worker(SeedCreate(g.ed, g.edDraw)),
           Sys(HalfWorld(e, g), Starting(StartPub(EdSeed, true))));
    acts := acts + [Worker(SeedCreate(g.ed, g.edDraw))];
  }

  lemma FirstStart(e: Env, g: StartDraw) returns (acts: seq<Action>)
    requires Lawful(e)
    ensures Runs(e, INIT, acts, Sys(FirstWorld(e, g), Up(Idle, true, false, g.mk, map[])))
  {
    hide Runs, Exec;
    acts := FirstSeed(e, g);
    var x := HalfWorld(e, g);
    assert Keyfile.Readable(g.ed) == Some(g.ed);
    var x1 := x.(disk := x.disk.(pubs := map[EdSeed := e.pubOf(EdSeed, g.ed)]));
    Extend(e, acts, Sys(x, Starting(StartPub(EdSeed, true))), Worker(PubWrite), Sys(x1, Starting(StartSeed(DiliSeed))));
    acts := acts + [Worker(PubWrite)];
    var x2 := Created(x1, DiliSeed, e.seal(g.mk, g.dili, Live(DiliSeed), g.diliDraw), g.dili);
    Extend(e, acts, Sys(x1, Starting(StartSeed(DiliSeed))), Worker(SeedCreate(g.dili, g.diliDraw)),
           Sys(x2, Starting(StartPub(DiliSeed, true))));
    acts := acts + [Worker(SeedCreate(g.dili, g.diliDraw))];
    acts := FirstServe(e, g, acts, x2);
  }

  lemma FirstServe(e: Env, g: StartDraw, acts: seq<Action>, x: World) returns (acts': seq<Action>)
    requires Lawful(e) && Runs(e, INIT, acts, Sys(x, Starting(StartPub(DiliSeed, true))))
    requires x == FirstWorld(e, g).(
      disk := FirstWorld(e, g).disk.(pubs := map[EdSeed := e.pubOf(EdSeed, g.ed)]), reported := None)
    ensures Runs(e, INIT, acts', Sys(FirstWorld(e, g), Up(Idle, true, false, g.mk, map[])))
  {
    hide Runs, Exec;
    assert Keyfile.Readable(g.ed) == Some(g.ed) && Keyfile.Readable(g.dili) == Some(g.dili);
    var x1 := FirstWorld(e, g).(reported := None);
    Extend(e, acts, Sys(x, Starting(StartPub(DiliSeed, true))), Worker(PubWrite), Sys(x1, Starting(StartDone)));
    acts' := acts + [Worker(PubWrite)];
    Extend(e, acts', Sys(x1, Starting(StartDone)), Worker(Serve),
        Sys(FirstWorld(e, g), Up(Idle, true, false, g.mk, map[])));
    acts' := acts' + [Worker(Serve)];
  }

  /** What the random generator supplies to one rotation of the two seed files. */
  datatype RotateDraw = RotateDraw(next: Bytes32, oldDraw: Draw, newDraw: Draw, edDraw: Draw, diliDraw: Draw)

  /** The two seed files rewrapped. */
  ghost function StagedCopies(e: Env, g: StartDraw, q: RotateDraw): (copies: map<KeyPath, Bytes>)
    requires Lawful(e)
    ensures copies.Keys == {EdSeed, DiliSeed}
  {
    assert e.open(e.seal(g.mk, g.ed, Live(EdSeed), g.edDraw), g.mk, Live(EdSeed)) == Keyfile.Readable(g.ed);
    assert e.open(e.seal(g.mk, g.dili, Live(DiliSeed), g.diliDraw), g.mk, Live(DiliSeed)) == Keyfile.Readable(g.dili);
    map[EdSeed := e.rewrap(e.seal(g.mk, g.ed, Live(EdSeed), g.edDraw), g.mk, q.next, Live(EdSeed), q.edDraw).value,
        DiliSeed :=
          e.rewrap(e.seal(g.mk, g.dili, Live(DiliSeed), g.diliDraw), g.mk, q.next, Live(DiliSeed), q.diliDraw).value]
  }

  /** The store with a rotation prepared; `ready` says whether it is marked. */
  ghost function RotatedWorld(e: Env, g: StartDraw, q: RotateDraw, staged: map<KeyPath, Bytes>, ready: bool): World {
    var x := FirstWorld(e, g);
    x.(disk := x.disk.(rot := Some(RotDir(Some(e.seal(g.mk, q.next, NextOld, q.oldDraw)),
                                          Some(e.seal(q.next, q.next, NextNew, q.newDraw)), staged, ready))),
       prev := g.mk, next := q.next)
  }

  function Serving(g: StartDraw, w: Work, rs: map<nat, Reader>): Proc {
    Up(w, true, false, g.mk, rs)
  }

  lemma BeginsRotation(e: Env, g: StartDraw, q: RotateDraw, rs: map<nat, Reader>, acts: seq<Action>)
    returns (acts': seq<Action>)
    requires Runs(e, INIT, acts, Sys(FirstWorld(e, g), Serving(g, Idle, rs))) && NoHolder(rs)
    ensures var x := FirstWorld(e, g);
      Runs(e, INIT, acts', Sys(
        x.(disk := x.disk.(rot := Some(RotDir(None, None, map[], false))), prev := g.mk, next := q.next),
                            Serving(g, RotOld(g.mk, q.next), rs)))
  {
    hide Runs, Exec, NoHolder;
    var x := FirstWorld(e, g);
    Extend(e, acts, Sys(x, Serving(g, Idle, rs)), Worker(RotateBegin), Sys(x, Serving(g, Recover(AtRotate), rs)));
    acts' := acts + [Worker(RotateBegin)];
    Extend(e, acts', Sys(x, Serving(g, Recover(AtRotate), rs)), Worker(Look), Sys(x, Serving(g, RotMkDir, rs)));
    acts' := acts' + [Worker(Look)];
    var x1 := x.(disk := x.disk.(rot := Some(RotDir(None, None, map[], false))));
    Extend(e, acts', Sys(x, Serving(g, RotMkDir, rs)), Worker(MkDir), Sys(x1, Serving(g, RotDraw, rs)));
    acts' := acts' + [Worker(MkDir)];
    Extend(e, acts', Sys(x1, Serving(g, RotDraw, rs)), Worker(DrawNext(q.next)),
           Sys(x1.(prev := g.mk, next := q.next), Serving(g, RotOld(g.mk, q.next), rs)));
    acts' := acts' + [Worker(DrawNext(q.next))];
  }

  lemma WritesNext(e: Env, g: StartDraw, q: RotateDraw, rs: map<nat, Reader>, acts: seq<Action>)
    returns (acts': seq<Action>)
    requires Exclusive(e, q.next, q.oldDraw, q.newDraw)
    requires var x := FirstWorld(e, g);
      Runs(e, INIT, acts, Sys(
        x.(disk := x.disk.(rot := Some(RotDir(None, None, map[], false))), prev := g.mk, next := q.next),
                           Serving(g, RotOld(g.mk, q.next), rs)))
    ensures Runs(e, INIT, acts', Sys(RotatedWorld(e, g, q, map[], false),
        Serving(g, Staging(g.mk, q.next, {EdSeed, DiliSeed}), rs)))
  {
    hide Runs, Exec;
    var x := FirstWorld(e, g);
    var x1 := x.(disk := x.disk.(rot := Some(RotDir(None, None, map[], false))), prev := g.mk, next := q.next);
    var old1 := Some(e.seal(g.mk, q.next, NextOld, q.oldDraw));
    var x2 := x1.(disk := x.disk.(rot := Some(RotDir(old1, None, map[], false))));
    Extend(e, acts, Sys(x1, Serving(g, RotOld(g.mk, q.next), rs)), Worker(WriteNextOld(q.oldDraw)),
           Sys(x2, Serving(g, RotNew(g.mk, q.next), rs)));
    acts' := acts + [Worker(WriteNextOld(q.oldDraw))];
    assert x.disk.live.Keys == {EdSeed, DiliSeed};
    Extend(e, acts', Sys(x2, Serving(g, RotNew(g.mk, q.next), rs)), Worker(WriteNextNew(q.newDraw)),
           Sys(RotatedWorld(e, g, q, map[], false), Serving(g, Staging(g.mk, q.next, {EdSeed, DiliSeed}), rs)));
    acts' := acts' + [Worker(WriteNextNew(q.newDraw))];
  }

  lemma StagesOne(e: Env, g: StartDraw, q: RotateDraw, rs: map<nat, Reader>, acts: seq<Action>,
                  staged: map<KeyPath, Bytes>, todo: set<KeyPath>, p: KeyPath, r: Draw) returns (acts': seq<Action>)
    requires Runs(e, INIT, acts, Sys(RotatedWorld(e, g, q, staged, false), Serving(g, Staging(g.mk, q.next, todo), rs)))
    requires p in todo && p in FirstWorld(e, g).disk.live
    requires e.rewrap(FirstWorld(e, g).disk.live[p], g.mk, q.next, Live(p), r).Some?
    ensures var b := e.rewrap(FirstWorld(e, g).disk.live[p], g.mk, q.next, Live(p), r).value;
      Runs(e, INIT, acts', Sys(RotatedWorld(e, g, q, staged[p := b], false),
          Serving(g, Staging(g.mk, q.next, todo - {p}), rs)))
  {
    hide Runs, Exec;
    var b := e.rewrap(FirstWorld(e, g).disk.live[p], g.mk, q.next, Live(p), r).value;
    Extend(e, acts, Sys(RotatedWorld(e, g, q, staged, false), Serving(g, Staging(g.mk, q.next, todo), rs)),
        Worker(Stage(p, r)),
           Sys(RotatedWorld(e, g, q, staged[p := b], false), Serving(g, Staging(g.mk, q.next, todo - {p}), rs)));
    acts' := acts + [Worker(Stage(p, r))];
  }

  /** A fault-free rotation of a fresh store gets as far as its marker. */
  lemma Stages(e: Env, g: StartDraw, q: RotateDraw, rs: map<nat, Reader>, acts: seq<Action>)
    returns (acts': seq<Action>)
    requires Lawful(e) && Exclusive(e, q.next, q.oldDraw, q.newDraw) && NoHolder(rs)
    requires Runs(e, INIT, acts, Sys(FirstWorld(e, g), Serving(g, Idle, rs)))
    ensures Runs(e, INIT, acts', Sys(RotatedWorld(e, g, q, StagedCopies(e, g, q), false),
        Serving(g, Staging(g.mk, q.next, {}), rs)))
  {
    hide Runs, Exec, NoHolder, RotatedWorld, Do;
    acts' := BeginsRotation(e, g, q, rs, acts);
    acts' := WritesNext(e, g, q, rs, acts');
    var copies := StagedCopies(e, g, q);
    acts' := StagesOne(e, g, q, rs, acts', map[], {EdSeed, DiliSeed}, EdSeed, q.edDraw);
    assert {EdSeed, DiliSeed} - {EdSeed} == {DiliSeed} && {DiliSeed} - {DiliSeed} == {};
    acts' := StagesOne(e, g, q, rs, acts', map[][EdSeed := copies[EdSeed]], {DiliSeed}, DiliSeed, q.diliDraw);
    assert map[][EdSeed := copies[EdSeed]][DiliSeed := copies[DiliSeed]] == copies;
  }

  /** The store once the staged copies are live and the provider holds `mk`. */
  ghost function CommittedWorld(e: Env, g: StartDraw, q: RotateDraw, mk: Bytes, rot: Option<RotDir>): World
    requires Lawful(e)
  {
    var x := FirstWorld(e, g);
    x.(disk := Disk(Some(mk), StagedCopies(e, g, q), x.disk.pubs, rot), prev := g.mk, next := q.next)
  }

  /** The marked directory of that rotation. */
  ghost function MarkedDir(e: Env, g: StartDraw, q: RotateDraw): RotDir
    requires Lawful(e)
  {
    RotatedWorld(e, g, q, StagedCopies(e, g, q), true).disk.rot.value
  }

  lemma AppliesBoth(e: Env, g: StartDraw, q: RotateDraw, rs: map<nat, Reader>, acts: seq<Action>)
    returns (acts': seq<Action>)
    requires Lawful(e)
    requires Runs(e, INIT, acts, Sys(RotatedWorld(e, g, q, StagedCopies(e, g, q), true),
        Serving(g, Commit(q.next, {EdSeed, DiliSeed}), rs)))
    ensures Runs(e, INIT, acts', Sys(CommittedWorld(e, g, q, g.mk, Some(MarkedDir(e, g, q))),
        Serving(g, Commit(q.next, {}), rs)))
    ensures acts <= acts'
  {
    hide Runs, Exec, StagedCopies;
    var copies := StagedCopies(e, g, q);
    var x := RotatedWorld(e, g, q, copies, true);
    var x1 := x.(disk := x.disk.(live := x.disk.live[EdSeed := copies[EdSeed]]));
    assert {EdSeed, DiliSeed} - {EdSeed} == {DiliSeed} && {DiliSeed} - {DiliSeed} == {};
    Extend(e, acts, Sys(x, Serving(g, Commit(q.next, {EdSeed, DiliSeed}), rs)), Worker(Apply(EdSeed)),
           Sys(x1, Serving(g, Commit(q.next, {DiliSeed}), rs)));
    acts' := acts + [Worker(Apply(EdSeed))];
    var x2 := x1.(disk := x1.disk.(live := x1.disk.live[DiliSeed := copies[DiliSeed]]));
    Extend(e, acts', Sys(x1, Serving(g, Commit(q.next, {DiliSeed}), rs)), Worker(Apply(DiliSeed)),
           Sys(x2, Serving(g, Commit(q.next, {}), rs)));
    acts' := acts' + [Worker(Apply(DiliSeed))];
    assert x2.disk.live == copies;
  }

  /** A fault-free rotation of a fresh store gets as far as its clean-up. */
  lemma Commits(e: Env, g: StartDraw, q: RotateDraw, rs: map<nat, Reader>, acts: seq<Action>)
    returns (acts': seq<Action>)
    requires Lawful(e)
    requires Runs(e, INIT, acts, Sys(RotatedWorld(e, g, q, StagedCopies(e, g, q), false),
        Serving(g, Staging(g.mk, q.next, {}), rs)))
    ensures Runs(e, INIT, acts', Sys(CommittedWorld(e, g, q, q.next, Some(MarkedDir(e, g, q))),
        Serving(g, CommitClean(q.next), rs)))
    ensures Worker(MarkReady) in acts'
  {
    hide Runs, Exec, StagedCopies;
    var copies := StagedCopies(e, g, q);
    var x0, x := RotatedWorld(e, g, q, copies, false), RotatedWorld(e, g, q, copies, true);
    assert x0.disk.live.Keys == {EdSeed, DiliSeed};
    Extend(e, acts, Sys(x0, Serving(g, Staging(g.mk, q.next, {}), rs)), Worker(MarkReady),
           Sys(x, Serving(g, Commit(q.next, {EdSeed, DiliSeed}), rs)));
    acts' := AppliesBoth(e, g, q, rs, acts + [Worker(MarkReady)]);
    assert acts'[|acts|] == Worker(MarkReady);
    var x2 := CommittedWorld(e, g, q, q.next, Some(MarkedDir(e, g, q)));
    var x1 := CommittedWorld(e, g, q, g.mk, Some(MarkedDir(e, g, q)));
    Extend(e, acts', Sys(x1, Serving(g, Commit(q.next, {}), rs)), Worker(Applied),
        Sys(x1, Serving(g, CommitStore(q.next), rs)));
    acts' := acts' + [Worker(Applied)];
    Extend(e, acts', Sys(x1, Serving(g, CommitStore(q.next), rs)), Worker(StoreNext),
        Sys(x2, Serving(g, CommitClean(q.next), rs)));
    acts' := acts' + [Worker(StoreNext)];
  }

  /** And through it. */
  lemma CleansUp(e: Env, g: StartDraw, q: RotateDraw, rs: map<nat, Reader>, acts: seq<Action>)
    returns (acts': seq<Action>)
    requires Lawful(e)
    requires Runs(e, INIT, acts, Sys(RotatedWorld(e, g, q, StagedCopies(e, g, q), false),
        Serving(g, Staging(g.mk, q.next, {}), rs)))
    ensures Runs(e, INIT, acts', Sys(CommittedWorld(e, g, q, q.next, None), Serving(g, Refresh, rs)))
    ensures Worker(MarkReady) in acts'
  {
    hide Runs, Exec, StagedCopies, RotatedWorld;
    acts' := Commits(e, g, q, rs, acts);
    var x, x1 := CommittedWorld(e, g, q, q.next, Some(MarkedDir(e, g, q))), CommittedWorld(e, g, q, q.next, None);
    Extend(e, acts', Sys(x, Serving(g, CommitClean(q.next), rs)), Worker(RemoveDir),
        Sys(x1, Serving(g, CommitClean(q.next), rs)));
    acts' := acts' + [Worker(RemoveDir)];
    Extend(e, acts', Sys(x1, Serving(g, CommitClean(q.next), rs)), Worker(CleanDone), Sys(x1, Serving(g, Refresh, rs)));
    acts' := acts' + [Worker(CleanDone)];
  }

  /** With every lawful record format a fresh store can be rotated: the provider goes from its first key to the next. */
  lemma RotationCompletes(e: Env, g: StartDraw, q: RotateDraw) returns (acts: seq<Action>, s: Sys)
    requires Lawful(e) && Exclusive(e, q.next, q.oldDraw, q.newDraw)
    ensures Runs(e, INIT, acts, s) && s.proc == Up(Idle, true, false, q.next, map[])
    ensures Worker(MarkReady) in acts && s.world.prev == g.mk && s.world.next == q.next
    ensures s.world.disk.provider == Some(q.next) && s.world.disk.rot.None? && Whole(e, s.world.disk, s.world.saved)
    ensures s.world.saved == map[EdSeed := g.ed, DiliSeed := g.dili]
  {
    hide Runs, Exec, StagedCopies, RotatedWorld, Whole;
    acts := FirstStart(e, g);
    acts := Stages(e, g, q, map[], acts);
    acts := CleansUp(e, g, q, map[], acts);
    s := Sys(CommittedWorld(e, g, q, q.next, None), Up(Idle, true, false, q.next, map[]));
    Extend(e, acts, Sys(CommittedWorld(e, g, q, q.next, None), Serving(g, Refresh, map[])), Worker(RefreshMk), s);
    acts := acts + [Worker(RefreshMk)];
    ReachableInv(e, acts, s);
    SettledIsWhole(e, s.world);
  }

  // ---------------------------------------------------------------------------
  // The hazards
  // ---------------------------------------------------------------------------

  /** The steps of one caller that creates a secret, from the gate on. */
  function CreateCalls(t: nat, v: Bytes, r: Draw): seq<Action> {
    [Read(t, Acquire), Read(t, FetchMk), Read(t, CheckExists(v)), Read(t, Link(r))]
  }

  lemma {:induction false} ExecFour(e: Env, s0: Sys, s1: Sys, s2: Sys, s3: Sys, s4: Sys, a: Action, b: Action,
                                    c: Action, d: Action)
    requires Do(e, s0, a) == Some(s1) && Do(e, s1, b) == Some(s2) && Do(e, s2, c) == Some(s3)
    requires Do(e, s3, d) == Some(s4)
    ensures Exec(e, s0, [a, b, c, d]) == Some(s4)
  {
    hide Do;
    assert [a, b, c, d][..3] == [a, b, c] && [a, b, c][..2] == [a, b] && [a, b][..1] == [a] && [a][..0] == [];
    assert Exec(e, s0, [a]) == Some(s1);
    assert Exec(e, s0, [a, b]) == Some(s2);
    assert Exec(e, s0, [a, b, c]) == Some(s3);
  }

  /** A caller past the `poisoned` check that is about to create a new secret. */
  predicate AboutToCreate(s: Sys, t: nat, v: Bytes) {
    && s.proc.Up? && s.proc.serving && s.proc.work.Idle? && s.world.disk.provider.Some?
    && t in s.proc.readers && s.proc.readers[t].Checked?
    && var req := s.proc.readers[t].req;
       ValidLabel(req.name) && Secret(req.name) !in s.world.disk.live && (req.fixed ==> |v| == 32)
  }

  /** The master key a caller works with. */
  function CallerMk(e: Env, s: Sys): Bytes
    requires s.proc.Up? && s.world.disk.provider.Some?
  {
    if e.cachedMk then s.proc.cached else s.world.disk.provider.value
  }

  /** The store once that caller has linked its secret. */
  function AfterCreation(e: Env, s: Sys, t: nat, v: Bytes, r: Draw): World
    requires AboutToCreate(s, t, v)
  {
    var p := Secret(s.proc.readers[t].req.name);
    Created(s.world, p, e.seal(CallerMk(e, s), v, Live(p), r), v)
  }

  lemma Creates(e: Env, s: Sys, t: nat, v: Bytes, r: Draw) returns (s': Sys)
    requires AboutToCreate(s, t, v)
    ensures Exec(e, s, CreateCalls(t, v, r)) == Some(s') && s'.world == AfterCreation(e, s, t, v, r)
    ensures s'.proc.Up? && s'.proc.work.Idle?
  {
    hide Exec;
    var d, req, mk := s.world.disk, s.proc.readers[t].req, CallerMk(e, s);
    var p := Secret(req.name);
    var s1 := WithReader(s, t, Holding(req));
    var s2 := WithReader(s1, t, HasMk(req, mk));
    var s3 := WithReader(s2, t, Fresh(req, mk, v));
    s' := Sys(Created(s.world, p, e.seal(mk, v, Live(p), r), v),
        s.proc.(readers := s3.proc.readers[t := Done(req, Some(v))]));
    ExecFour(e, s, s1, s2, s3, s', Read(t, Acquire), Read(t, FetchMk), Read(t, CheckExists(v)), Read(t, Link(r)));
  }

  /** A new file is as the provider's key needs it exactly if that key opens it. */
  lemma WholeWithNew(e: Env, d: Disk, saved: map<KeyPath, Bytes>, p: KeyPath, b: Bytes, v: Bytes)
    requires Whole(e, d, saved) && d.provider.Some? && p !in d.live
    ensures Whole(e, d.(live := d.live[p := b]), saved[p := v])
        <==> e.open(b, d.provider.value, Live(p)) == Keyfile.Readable(v)
  {
    var saved' := saved[p := v];
    assert p in saved';
  }

  /**
   A secret created by a caller past the `poisoned` check does no harm exactly if
   the store was quiet: recovery then still succeeds and the provider's key opens
   every file.  A file that no key opens, because it is too large to be read
   back, does no further harm unless a marked directory is pending.
   */
  lemma CreationDuringRotation(e: Env, s: Sys, t: nat, v: Bytes, r: Draw)
    requires Lawful(e) && Inv(e, s) && AboutToCreate(s, t, v)
    requires var p, mk := Secret(s.proc.readers[t].req.name), s.world.disk.provider.value;
      CallerMk(e, s) != mk ==> e.open(e.seal(CallerMk(e, s), v, Live(p), r), mk, Live(p)) == None
    ensures var s', recovered := Exec(e, s, CreateCalls(t, v, r)), RecoverAll(e, AfterCreation(e, s, t, v, r).disk);
      && s'.Some? && s'.value.world == AfterCreation(e, s, t, v, r)
      && (recovered.Some? && Whole(e, recovered.value, s'.value.world.saved)
          <==> Quiet(e, s.world, s.proc.cached) || (!ReadyDir(s.world.disk) && |v| > Keyfile.MAX_PAYLOAD))
  {
    hide FindNext, Exec, Whole, Do;
    var s' := Creates(e, s, t, v, r);
    var x, p := s.world, Secret(s.proc.readers[t].req.name);
    if ReadyDir(x.disk) {
      StagedAreLive(e, x);
    } else {
      SettledIsWhole(e, x);
      WholeAnyDir(e, x.disk, x.saved);
      WholeWithNew(e, x.disk.(rot := None), x.saved, p, e.seal(CallerMk(e, s), v, Live(p), r), v);
    }
  }

  lemma WholeAnyDir(e: Env, d: Disk, saved: map<KeyPath, Bytes>)
    requires Whole(e, d, saved)
    ensures Whole(e, d.(rot := None), saved)
  {
  }

  /** A marked directory holds copies of live files only. */
  lemma StagedAreLive(e: Env, x: World)
    requires StoreInv(e, x) && ReadyDir(x.disk)
    ensures x.disk.rot.value.staged.Keys <= x.disk.live.Keys
  {
  }

  /** A secret created while a marked directory is pending stops every later recovery and every later start. */
  lemma CreationShutsStore(e: Env, s: Sys, t: nat, v: Bytes, r: Draw) returns (s': Sys)
    requires AboutToCreate(s, t, v) && ReadyDir(s.world.disk)
    requires Secret(s.proc.readers[t].req.name) !in s.world.disk.rot.value.staged
    ensures Exec(e, s, CreateCalls(t, v, r)) == Some(s') && NeverServes(e, s') && NeverRecovers(e, s')
  {
    hide Exec, NeverServes, NeverRecovers;
    s' := Creates(e, s, t, v, r);
    BlockedForever(e, s', Secret(s.proc.readers[t].req.name));
  }

  /** A caller begins before the rotation takes the gate. */
  lemma CallerWaits(e: Env, g: StartDraw, q: RotateDraw, req: Request) returns (acts: seq<Action>)
    requires Lawful(e) && Exclusive(e, q.next, q.oldDraw, q.newDraw)
    ensures Runs(e, INIT, acts, Sys(RotatedWorld(e, g, q, StagedCopies(e, g, q), false),
                                 Serving(g, Staging(g.mk, q.next, {}), map[0 := Checked(req)])))
  {
    hide Runs, Exec, RotatedWorld, StagedCopies;
    acts := FirstStart(e, g);
    var x := FirstWorld(e, g);
    assert map[][0 := Checked(req)] == map[0 := Checked(req)];
    Extend(e, acts, Sys(x, Up(Idle, true, false, g.mk, map[])), Read(0, Begin(req)),
        Sys(x, Serving(g, Idle, map[0 := Checked(req)])));
    acts := acts + [Read(0, Begin(req))];
    acts := Stages(e, g, q, map[0 := Checked(req)], acts);
  }

  /**
   The hazard is real.  With every record format and configuration, a commit
   that fails twice poisons the manager, yet a caller already past the check takes
   the gate and creates its secret.  From then on, whatever happens, no recovery
   and no start succeeds and no rotation gets to its marker.
   */
  lemma LateCallerBreaksRecovery(e: Env, g: StartDraw, q: RotateDraw, req: Request, v: Bytes, r: Draw)
    returns (acts: seq<Action>, s: Sys, s': Sys)
    requires Lawful(e) && Exclusive(e, q.next, q.oldDraw, q.newDraw) && ValidLabel(req.name)
    requires (req.fixed ==> |v| == 32)
    ensures Runs(e, INIT, acts, s) && s.proc.Up? && s.proc.poisoned && ReadyDir(s.world.disk)
    ensures Exec(e, s, CreateCalls(0, v, r)) == Some(s') && NeverServes(e, s') && NeverRecovers(e, s')
  {
    hide Runs, Exec, NeverServes, NeverRecovers, StagedCopies;
    acts := CallerWaits(e, g, q, req);
    var copies := StagedCopies(e, g, q);
    var rs := map[0 := Checked(req)];
    var x0, x := RotatedWorld(e, g, q, copies, false), RotatedWorld(e, g, q, copies, true);
    var s1 := Sys(x, Serving(g, Commit(q.next, x0.disk.live.Keys), rs));
    Extend(e, acts, Sys(x0, Serving(g, Staging(g.mk, q.next, {}), rs)), Worker(MarkReady), s1);
    acts := acts + [Worker(MarkReady)];
    var s2 := Sys(x, Serving(g, Recover(AtCommit(q.next)), rs));
    Extend(e, acts, s1, Fail, s2);
    acts := acts + [Fail];
    s := Sys(x, Up(Idle, true, true, g.mk, rs));
    Extend(e, acts, s2, Fail, s);
    acts := acts + [Fail];
    s' := CreationShutsStore(e, s, 0, v, r);
  }

  /**
   It needs no poisoning: if `write_marker` fails after the marker is in place, the
   manager is not poisoned, a waiting caller creates its secret, and the same follows.
   */
  lemma MarkerErrorBreaksRecovery(e: Env, g: StartDraw, q: RotateDraw, req: Request, v: Bytes, r: Draw)
    returns (acts: seq<Action>, s: Sys, s': Sys)
    requires Lawful(e) && Exclusive(e, q.next, q.oldDraw, q.newDraw) && ValidLabel(req.name)
    requires (req.fixed ==> |v| == 32)
    ensures Runs(e, INIT, acts, s) && s.proc.Up? && !s.proc.poisoned && ReadyDir(s.world.disk)
    ensures Exec(e, s, CreateCalls(0, v, r)) == Some(s') && NeverServes(e, s') && NeverRecovers(e, s')
  {
    hide Runs, Exec, NeverServes, NeverRecovers, StagedCopies;
    acts := CallerWaits(e, g, q, req);
    var copies := StagedCopies(e, g, q);
    var rs := map[0 := Checked(req)];
    var x0, x := RotatedWorld(e, g, q, copies, false), RotatedWorld(e, g, q, copies, true);
    s := Sys(x, Serving(g, Idle, rs));
    Extend(e, acts, Sys(x0, Serving(g, Staging(g.mk, q.next, {}), rs)), Worker(MarkReadyErr), s);
    acts := acts + [Worker(MarkReadyErr)];
    s' := CreationShutsStore(e, s, 0, v, r);
  }

  /**
   Nor does it need a pending directory: if the key cannot be read again after a
   commit, the manager is poisoned with the old key still cached, and a caller
   already past the check creates its secret under that key.  Recovery succeeds,
   but the provider's key does not open the new file.
   */
  lemma StaleKeyHidesSecret(e: Env, g: StartDraw, q: RotateDraw, req: Request, v: Bytes, r: Draw)
    returns (acts: seq<Action>, s: Sys, s': Sys)
    requires Lawful(e) && Exclusive(e, q.next, q.oldDraw, q.newDraw) && e.cachedMk && ValidLabel(req.name)
    requires (req.fixed ==> |v| == 32)
    requires |v| <= Keyfile.MAX_PAYLOAD && g.mk != q.next
    requires var p := Secret(req.name); e.open(e.seal(g.mk, v, Live(p), r), q.next, Live(p)) == None
    ensures Runs(e, INIT, acts, s) && s.proc.Up? && s.proc.poisoned && s.world.disk.rot.None?
    ensures Exec(e, s, CreateCalls(0, v, r)) == Some(s')
    ensures RecoverAll(e, s'.world.disk) == Some(s'.world.disk) && !Whole(e, s'.world.disk, s'.world.saved)
  {
    hide Runs, Exec, StagedCopies, Whole, Inv, RotatedWorld;
    acts := CallerWaits(e, g, q, req);
    acts := CleansUp(e, g, q, map[0 := Checked(req)], acts);
    var x := CommittedWorld(e, g, q, q.next, None);
    s := Sys(x, Up(Idle, true, true, g.mk, map[0 := Checked(req)]));
    Extend(e, acts, Sys(x, Serving(g, Refresh, map[0 := Checked(req)])), Fail, s);
    acts := acts + [Fail];
    ReachableInv(e, acts, s);
    CreationDuringRotation(e, s, 0, v, r);
    s' := Creates(e, s, 0, v, r);
  }

  /** The store of that rotation once a recovery called by the next rotation has moved the files. */
  lemma RecoversPending(e: Env, g: StartDraw, q: RotateDraw, acts: seq<Action>) returns (acts': seq<Action>)
    requires Lawful(e) && Exclusive(e, q.next, q.oldDraw, q.newDraw) && g.mk != q.next
    requires Runs(e, INIT, acts, Sys(RotatedWorld(e, g, q, StagedCopies(e, g, q), true), Serving(g, Idle, map[])))
    ensures Runs(e, INIT, acts', Sys(CommittedWorld(e, g, q, g.mk, Some(MarkedDir(e, g, q))),
                                  Serving(g, RecApply(AtRotate, q.next, false, {}), map[])))
  {
    hide Runs, Exec, StagedCopies;
    var copies := StagedCopies(e, g, q);
    var x := RotatedWorld(e, g, q, copies, true);
    Extend(e, acts, Sys(x, Serving(g, Idle, map[])), Worker(RotateBegin), Sys(x, Serving(g, Recover(AtRotate), map[])));
    acts' := acts + [Worker(RotateBegin)];
    PendingKeyIsFound(e, g, q);
    assert x.disk.live.Keys == {EdSeed, DiliSeed};
    Extend(e, acts', Sys(x, Serving(g, Recover(AtRotate), map[])), Worker(Look),
           Sys(x, Serving(g, RecApply(AtRotate, q.next, false, {EdSeed, DiliSeed}), map[])));
    acts' := acts' + [Worker(Look)];
    acts' := RecoveryApplies(e, g, q, acts');
  }

  lemma PendingKeyIsFound(e: Env, g: StartDraw, q: RotateDraw)
    requires Lawful(e) && Exclusive(e, q.next, q.oldDraw, q.newDraw) && g.mk != q.next
    ensures FindNext(e, MarkedDir(e, g, q), g.mk) == Some((q.next, false))
  {
    hide StagedCopies;
    assert Keyfile.Readable(q.next) == Some(q.next);
  }

  lemma RecoveryApplies(e: Env, g: StartDraw, q: RotateDraw, acts: seq<Action>) returns (acts': seq<Action>)
    requires Lawful(e)
    requires Runs(e, INIT, acts, Sys(RotatedWorld(e, g, q, StagedCopies(e, g, q), true),
                                  Serving(g, RecApply(AtRotate, q.next, false, {EdSeed, DiliSeed}), map[])))
    ensures Runs(e, INIT, acts', Sys(CommittedWorld(e, g, q, g.mk, Some(MarkedDir(e, g, q))),
                                  Serving(g, RecApply(AtRotate, q.next, false, {}), map[])))
  {
    hide Runs, Exec, StagedCopies;
    var copies := StagedCopies(e, g, q);
    var x := RotatedWorld(e, g, q, copies, true);
    var x1 := x.(disk := x.disk.(live := x.disk.live[EdSeed := copies[EdSeed]]));
    assert {EdSeed, DiliSeed} - {EdSeed} == {DiliSeed} && {DiliSeed} - {DiliSeed} == {};
    Extend(e, acts, Sys(x, Serving(g, RecApply(AtRotate, q.next, false, {EdSeed, DiliSeed}), map[])),
        Worker(Apply(EdSeed)),
           Sys(x1, Serving(g, RecApply(AtRotate, q.next, false, {DiliSeed}), map[])));
    acts' := acts + [Worker(Apply(EdSeed))];
    var x2 := x1.(disk := x1.disk.(live := x1.disk.live[DiliSeed := copies[DiliSeed]]));
    Extend(e, acts', Sys(x1, Serving(g, RecApply(AtRotate, q.next, false, {DiliSeed}), map[])), Worker(Apply(DiliSeed)),
           Sys(x2, Serving(g, RecApply(AtRotate, q.next, false, {}), map[])));
    acts' := acts' + [Worker(Apply(DiliSeed))];
    assert x2.disk.live == copies;
  }

  lemma RecoverySwitches(e: Env, g: StartDraw, q: RotateDraw, acts: seq<Action>) returns (acts': seq<Action>)
    requires Lawful(e)
    requires Runs(e, INIT, acts, Sys(CommittedWorld(e, g, q, g.mk, Some(MarkedDir(e, g, q))),
                                  Serving(g, RecApply(AtRotate, q.next, false, {}), map[])))
    ensures Runs(e, INIT, acts', Sys(CommittedWorld(e, g, q, q.next, None), Serving(g, Idle, map[])))
  {
    hide Runs, Exec, StagedCopies, RotatedWorld;
    var x0 := CommittedWorld(e, g, q, g.mk, Some(MarkedDir(e, g, q)));
    Extend(e, acts, Sys(x0, Serving(g, RecApply(AtRotate, q.next, false, {}), map[])), Worker(Applied),
           Sys(x0, Serving(g, RecStore(AtRotate, q.next), map[])));
    acts' := acts + [Worker(Applied)];
    var x1 := CommittedWorld(e, g, q, q.next, Some(MarkedDir(e, g, q)));
    Extend(e, acts', Sys(x0, Serving(g, RecStore(AtRotate, q.next), map[])), Worker(StoreNext),
           Sys(x1, Serving(g, Clean(AtRotate), map[])));
    acts' := acts' + [Worker(StoreNext)];
    var x2 := CommittedWorld(e, g, q, q.next, None);
    Extend(e, acts', Sys(x1, Serving(g, Clean(AtRotate), map[])), Worker(RemoveDir),
        Sys(x2, Serving(g, Clean(AtRotate), map[])));
    acts' := acts' + [Worker(RemoveDir)];
    Extend(e, acts', Sys(x2, Serving(g, Clean(AtRotate), map[])), Fail, Sys(x2, Serving(g, Idle, map[])));
    acts' := acts' + [Fail];
  }

  /**
   Nor does it need a caller that waited.  After a marker error the next rotation
   completes the pending one in its recovery; if it then fails, it returns without a
   refresh.  The manager is idle and not poisoned, nothing is pending, and every
   caller that begins now works with the old key.
   */
  lemma RecoveredRotationLeavesStaleKey(e: Env, g: StartDraw, q: RotateDraw, req: Request, v: Bytes, r: Draw)
    returns (acts: seq<Action>, s: Sys, s1: Sys, s': Sys)
    requires Lawful(e) && Exclusive(e, q.next, q.oldDraw, q.newDraw) && e.cachedMk
    requires ValidLabel(req.name) && (req.fixed ==> |v| == 32) && |v| <= Keyfile.MAX_PAYLOAD && g.mk != q.next
    requires var p := Secret(req.name); e.open(e.seal(g.mk, v, Live(p), r), q.next, Live(p)) == None
    ensures Runs(e, INIT, acts, s) && s.proc == Up(Idle, true, false, g.mk, map[])
    ensures s.world.disk.rot.None? && s.world.disk.provider == Some(q.next)
    ensures Do(e, s, Read(0, Begin(req))) == Some(s1) && Exec(e, s1, CreateCalls(0, v, r)) == Some(s')
    ensures RecoverAll(e, s'.world.disk) == Some(s'.world.disk) && !Whole(e, s'.world.disk, s'.world.saved)
  {
    hide Runs, Exec, StagedCopies, Whole, Inv;
    acts := FirstStart(e, g);
    acts := Stages(e, g, q, map[], acts);
    var copies := StagedCopies(e, g, q);
    Extend(e, acts, Sys(RotatedWorld(e, g, q, copies, false), Serving(g, Staging(g.mk, q.next, {}), map[])),
        Worker(MarkReadyErr),
           Sys(RotatedWorld(e, g, q, copies, true), Serving(g, Idle, map[])));
    acts := RecoversPending(e, g, q, acts + [Worker(MarkReadyErr)]);
    acts := RecoverySwitches(e, g, q, acts);
    s := Sys(CommittedWorld(e, g, q, q.next, None), Serving(g, Idle, map[]));
    s1 := WithReader(s, 0, Checked(req));
    Extend(e, acts, s, Read(0, Begin(req)), s1);
    ReachableInv(e, acts + [Read(0, Begin(req))], s1);
    CreationDuringRotation(e, s1, 0, v, r);
    s' := Creates(e, s1, 0, v, r);
  }

  /**
   If `.rotate` may be removed in any order, a crash after removing a staged file
   but not `ready` leaves a store that no later start ever accepts, although the
   provider's key still opens every file.
   */
  lemma UnorderlyRemovalBlocksStart(e: Env, g: StartDraw, q: RotateDraw) returns (acts: seq<Action>, s: Sys)
    requires Lawful(e) && Exclusive(e, q.next, q.oldDraw, q.newDraw) && !e.orderly
    ensures Runs(e, INIT, acts, s) && s.proc.Down? && Whole(e, s.world.disk, s.world.saved)
    ensures NeverServes(e, s) && NeverRecovers(e, s)
  {
    hide Runs, Exec, StagedCopies, Inv, Whole, NeverServes, NeverRecovers;
    acts := FirstStart(e, g);
    acts := Stages(e, g, q, map[], acts);
    acts := Commits(e, g, q, map[], acts);
    var s1 := Sys(CommittedWorld(e, g, q, q.next, Some(MarkedDir(e, g, q))), Serving(g, CommitClean(q.next), map[]));
    ReachableInv(e, acts, s1);
    CommittedIsWhole(e, s1);
    RemovalKeepsWhole(e, s1.world, EStaged(EdSeed));
    var s2 := WithRot(s1, Without(s1.world.disk.rot.value, EStaged(EdSeed)), s1.proc.work);
    Extend(e, acts, s1, Worker(Remove(EStaged(EdSeed))), s2);
    acts := acts + [Worker(Remove(EStaged(EdSeed)))];
    s := s2.(proc := Down);
    Extend(e, acts, s2, Crash, s);
    acts := acts + [Crash];
    BlockedForever(e, s, EdSeed);
  }

  lemma CommittedIsWhole(e: Env, s: Sys)
    requires Inv(e, s) && s.proc.Up? && s.proc.work.CommitClean?
    ensures Whole(e, s.world.disk, s.world.saved)
  {
    hide SeedInv, ReadersInv, ReadyOk, Whole;
    SettledIsWhole(e, s.world);
  }

  lemma RemovalKeepsWhole(e: Env, x: World, f: Entry)
    requires x.disk.rot.Some? && Whole(e, x.disk, x.saved)
    ensures Whole(e, x.disk.(rot := Some(Without(x.disk.rot.value, f))), x.saved)
  {
  }

  /** Under the Strict policy a crash during the very first start leaves a store that no later start ever accepts. */
  lemma StrictRejectsHalfStart(e: Env, g: StartDraw) returns (acts: seq<Action>, s: Sys)
    requires !e.repairMissing
    ensures Runs(e, INIT, acts, s) && s == Sys(HalfWorld(e, g), Down)
    ensures NeverServes(e, s)
  {
    hide Runs, Exec, NeverServes;
    acts := FirstSeed(e, g);
    s := Sys(HalfWorld(e, g), Down);
    Extend(e, acts, Sys(HalfWorld(e, g), Starting(StartPub(EdSeed, true))), Crash, s);
    acts := acts + [Crash];
    HalfStartedForever(e, s);
  }
}
