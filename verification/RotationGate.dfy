/**
 The read/write gate: when a caller that gets through it finds the store quiet,
 and what callers are told.
 */
module RotationGate {
  import opened Wrappers
  import opened ByteStrings
  import Keyfile
  import opened Rotation
  import opened RotationSafety

  // ---------------------------------------------------------------------------
  // The gate of a manager that is not poisoned
  // ---------------------------------------------------------------------------

  /** The part of the worker's path on which nothing has been committed. */
  predicate PreCommit(w: Work) {
    || w.Idle? || w.RotMkDir? || w.RotDraw? || w.RotOld? || w.RotNew? || w.Staging?
    || ((w.Recover? || w.RecApply? || w.RecStore? || w.Clean?) && w.k.AtRotate?)
  }

  /** Whoever gets past the `poisoned` check and then the gate finds the store quiet. */
  ghost predicate Gated(e: Env, s: Sys) {
    s.proc.Up? && s.proc.serving && !s.proc.poisoned && PreCommit(s.proc.work) ==> Quiet(e, s.world, s.proc.cached)
  }

  lemma GatedRecover(e: Env, s: Sys, a: WorkAction)
    requires Inv(e, s) && Gated(e, s) && s.proc.Up? && DoRecover(e, s, a).Some?
    ensures Gated(e, DoRecover(e, s, a).value)
  {
    hide StoreInv, SeedInv, ReadersInv, NoHolder, AllUnder, AppliedUnder, FindNext;
  }

  lemma GatedStart(e: Env, s: Sys, a: WorkAction)
    requires Inv(e, s) && Gated(e, s) && s.proc.Up? && DoStart(e, s, a).Some?
    ensures Gated(e, DoStart(e, s, a).value)
  {
    hide StoreInv, SeedInv, ReadersInv, NoHolder, AllUnder, LoadIdentity, Open32;
  }

  lemma GatedRotate(e: Env, s: Sys, a: WorkAction)
    requires Inv(e, s) && Gated(e, s) && s.proc.Up? && DoRotate(e, s, a).Some? && !a.MarkReadyErr?
    ensures Gated(e, DoRotate(e, s, a).value)
  {
    hide StoreInv, SeedInv, ReadersInv, NoHolder, AllUnder, LoadIdentity, Open32;
  }

  lemma GatedRead(e: Env, s: Sys, t: nat, a: ReadAction)
    requires Gated(e, s) && s.proc.Up? && DoRead(e, s, t, a).Some?
    ensures Gated(e, DoRead(e, s, t, a).value)
  {
  }

  /** Only a marker whose error is reported opens the gate of a store that is not quiet. */
  lemma GatedStep(e: Env, s: Sys, a: Action)
    requires Inv(e, s) && Gated(e, s) && Do(e, s, a).Some? && a != Worker(MarkReadyErr)
    ensures Gated(e, Do(e, s, a).value)
  {
    hide Inv, Quiet, DoRecover, DoStart, DoRotate, DoRead;
    match a
    case Fail =>
    case Worker(w) =>
      if w.Look? || w.Apply? || w.Applied? || w.StoreNext? || w.Remove? || w.RemoveDir? || w.CleanDone? {
        GatedRecover(e, s, w);
      } else if w.BootMk? || w.BootSkip? || w.SeedLoad? || w.SeedCreate? || w.PubWrite? || w.PubCheck? || w.Serve? {
        GatedStart(e, s, w);
      } else {
        GatedRotate(e, s, w);
      }
    case Read(t, r) => GatedRead(e, s, t, r);
    case _ =>
  }

  /** A start that serves and a refresh of the cached key leave a quiet store behind. */
  predicate Settles(a: Action) {
    a == Worker(Serve) || a == Worker(RefreshMk)
  }

  lemma SettlesGate(e: Env, s: Sys, a: Action)
    requires Inv(e, s) && Do(e, s, a).Some? && Settles(a)
    ensures Gated(e, Do(e, s, a).value)
  {
    hide StoreInv, SeedInv, ReadersInv, NoHolder, AllUnder, LoadIdentity;
  }

  /** Every reported marker error was followed by a start that serves or by a refresh. */
  ghost predicate MarkersSettled(acts: seq<Action>) {
    forall i | 0 <= i < |acts| && acts[i] == Worker(MarkReadyErr) :: exists j | i < j < |acts| :: Settles(acts[j])
  }

  lemma SettledBefore(acts: seq<Action>)
    requires MarkersSettled(acts) && acts != [] && !Settles(acts[|acts| - 1])
    ensures acts[|acts| - 1] != Worker(MarkReadyErr) && MarkersSettled(acts[..|acts| - 1])
  {
    var front := acts[..|acts| - 1];
    forall i | 0 <= i < |front| && front[i] == Worker(MarkReadyErr)
      ensures exists j | i < j < |front| :: Settles(front[j])
    {
      assert acts[i] == Worker(MarkReadyErr);
      var j :| i < j < |acts| && Settles(acts[j]);
      assert Settles(front[j]);
    }
  }

  /**
   After a run in which every marker error has been settled, whoever passes the
   `poisoned` check and the gate finds the store quiet.
   */
  lemma {:induction false} RunGated(e: Env, s: Sys, acts: seq<Action>, s': Sys)
    requires Lawful(e) && Inv(e, s) && Gated(e, s) && Runs(e, s, acts, s') && MarkersSettled(acts)
    ensures Gated(e, s')
    decreases |acts|
  {
    hide Lawful, Inv, Do, Hazard, Gated, MarkersSettled;
    if acts != [] {
      var front, a := acts[..|acts| - 1], acts[|acts| - 1];
      var m := Exec(e, s, front).value;
      RunKeeps(e, s, front, m);
      if Settles(a) {
        SettlesGate(e, m, a);
      } else {
        SettledBefore(acts);
        RunGated(e, s, front, m);
        GatedStep(e, m, a);
      }
    }
  }

  // ---------------------------------------------------------------------------
  // Callers that are on time
  // ---------------------------------------------------------------------------

  /** Every value a caller returned with is the payload saved under its label. */
  ghost predicate Answered(saved: map<KeyPath, Bytes>, readers: map<nat, Reader>) {
    forall t | t in readers && readers[t].Done? && readers[t].result.Some? ::
      var p := Secret(readers[t].req.name); p in saved && saved[p] == readers[t].result.value
  }

  /** Callers inside the gate find the store quiet, and those that returned were told the truth. */
  ghost predicate Faithful(e: Env, s: Sys) {
    s.proc.Up? ==>
      && (!NoHolder(s.proc.readers) ==> Quiet(e, s.world, s.proc.cached))
      && Answered(s.world.saved, s.proc.readers)
  }

  /** A caller inside the gate of a quiet store loads what was saved. */
  lemma InsideLoads(e: Env, s: Sys, t: nat, p: KeyPath)
    requires Inv(e, s) && s.proc.Up? && Quiet(e, s.world, s.proc.cached)
    requires t in s.proc.readers && s.proc.readers[t].Exists? && p in s.world.disk.live
    ensures p in s.world.saved
    ensures e.open(s.world.disk.live[p], s.proc.readers[t].mk, Live(p)) == Keyfile.Readable(s.world.saved[p])
  {
    hide SeedInv, WorkInv, ReadyOk;
    assert ReaderInv(e, s.world, s.proc.cached, s.proc.readers[t]);
    assert OpensTo(e, s.world.saved, p, s.world.disk.live[p], s.proc.readers[t].mk);
  }

  lemma FaithfulReader(e: Env, s: Sys, t: nat, r: Reader)
    requires s.proc.Up? && Faithful(e, s) && (Holds(r) ==> Quiet(e, s.world, s.proc.cached))
    requires r.Done? && r.result.Some? ==>
      Secret(r.req.name) in s.world.saved && s.world.saved[Secret(r.req.name)] == r.result.value
    ensures Faithful(e, WithReader(s, t, r))
  {
    hide Quiet;
    var rs := s.proc.readers[t := r];
    if !NoHolder(rs) && !Holds(r) {
      var u :| u in rs && Holds(rs[u]);
      assert Holds(s.proc.readers[u]);
    }
  }

  lemma FaithfulForget(e: Env, s: Sys, t: nat)
    requires s.proc.Up? && Faithful(e, s)
    ensures Faithful(e, s.(proc := s.proc.(readers := s.proc.readers - {t})))
  {
    hide Quiet;
    var rs := s.proc.readers - {t};
    if !NoHolder(rs) {
      var u :| u in rs && Holds(rs[u]);
      assert Holds(s.proc.readers[u]);
    }
  }

  lemma FaithfulLink(e: Env, s: Sys, t: nat, r: Draw)
    requires Inv(e, s) && Faithful(e, s) && s.proc.Up? && DoRead(e, s, t, Link(r)).Some?
    ensures Faithful(e, DoRead(e, s, t, Link(r)).value)
  {
    hide SeedInv, WorkInv, ReadersInv, AllUnder, ReadyOk;
    var s', c := DoRead(e, s, t, Link(r)).value, s.proc.readers[t];
    assert Holds(c);
    var p := Secret(c.req.name);
    if p in s.world.disk.live {
      FaithfulReader(e, s, t, Exists(c.req, c.mk));
    } else {
      assert p !in s.world.saved;
      var m := Sys(s'.world, s.proc);
      assert Faithful(e, m);
      FaithfulReader(e, m, t, Done(c.req, Some(c.v)));
    }
  }

  lemma FaithfulRead(e: Env, s: Sys, t: nat, a: ReadAction)
    requires Inv(e, s) && Faithful(e, s) && s.proc.Up? && DoRead(e, s, t, a).Some? && !Late(e, s, Read(t, a))
    ensures Faithful(e, DoRead(e, s, t, a).value)
  {
    hide Inv, Faithful, Quiet, NoHolder;
    var s' := DoRead(e, s, t, a).value;
    HolderIsQuiet(e, s);
    match a
    case Link(r) => FaithfulLink(e, s, t, r);
    case Forget => FaithfulForget(e, s, t);
    case LoadSecret =>
      assert Holds(s.proc.readers[t]);
      if Secret(s.proc.readers[t].req.name) in s.world.disk.live {
        InsideLoads(e, s, t, Secret(s.proc.readers[t].req.name));
      }
      FaithfulReader(e, s, t, s'.proc.readers[t]);
    case _ => FaithfulReader(e, s, t, s'.proc.readers[t]);
  }

  lemma HolderIsQuiet(e: Env, s: Sys)
    requires Faithful(e, s) && s.proc.Up?
    ensures forall t | t in s.proc.readers && Holds(s.proc.readers[t]) :: Quiet(e, s.world, s.proc.cached)
  {
    hide Quiet;
  }

  /** The worker moves only while nobody is inside, and takes nothing back that was saved. */
  lemma FaithfulWorker(e: Env, s: Sys, a: WorkAction)
    requires Inv(e, s) && Faithful(e, s) && s.proc.Up? && DoWorker(e, s, a).Some?
    ensures Faithful(e, DoWorker(e, s, a).value)
  {
    hide StoreInv, SeedInv, WorkInv, ReadersInv, FindNext, LoadIdentity, Open32, Quiet, Answered;
    if s.proc.serving {
      assert NoHolder(s.proc.readers);
    } else {
      NobodyAnswered();
    }
  }

  lemma NobodyAnswered()
    ensures forall saved :: Answered(saved, map[]) && NoHolder(map[])
  {
  }

  /** As long as nobody is late, no caller is misled. */
  lemma FaithfulStep(e: Env, s: Sys, a: Action)
    requires Inv(e, s) && Faithful(e, s) && Do(e, s, a).Some? && !Late(e, s, a)
    ensures Faithful(e, Do(e, s, a).value) && !Hazard(e, s, a)
  {
    hide StoreInv, SeedInv, WorkInv, ReadersInv, DoWorker, DoRead, Answered, Quiet;
    match a
    case Worker(w) => FaithfulWorker(e, s, w);
    case Read(t, r) =>
      FaithfulRead(e, s, t, r);
      HolderIsQuiet(e, s);
    case Boot => NobodyAnswered();
    case _ =>
  }

  /** A run in which nobody is late is free of the hazard, and misleads no caller. */
  lemma {:induction false} OnTimeKeeps(e: Env, s: Sys, acts: seq<Action>, s': Sys)
    requires Lawful(e) && Inv(e, s) && Faithful(e, s) && OnTime(e, s, acts, s')
    ensures Inv(e, s') && Faithful(e, s') && Runs(e, s, acts, s')
    decreases |acts|
  {
    hide Lawful, Inv, Do, Hazard, Late, Faithful;
    if acts != [] {
      var front, a := acts[..|acts| - 1], acts[|acts| - 1];
      var m := Exec(e, s, front).value;
      OnTimeKeeps(e, s, front, m);
      FaithfulStep(e, m, a);
      StepKeeps(e, m, a);
    }
  }

  /** The same from the empty store. */
  lemma OnTimeReachable(e: Env, acts: seq<Action>, s: Sys)
    requires Lawful(e) && OnTime(e, INIT, acts, s)
    ensures Inv(e, s) && Faithful(e, s) && Runs(e, INIT, acts, s)
  {
    hide Lawful, OnTime, Runs;
    InitInv(e);
    OnTimeKeeps(e, INIT, acts, s);
  }
}
