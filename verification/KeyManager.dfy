/**
 The key manager's procedures as they run: a disk changed in place, one durable
 change at a time, with I/O errors where the operating system decides.  Each
 procedure records the steps of the rotation protocol it takes; the record is
 always a run of the system in Rotation, so everything proved there holds in
 every state the procedures pass through, and a crash may hit any of them.
 */
module KeyManager {
  import opened Wrappers
  import opened ByteStrings
  import Keyfile
  import opened Rotation
  import opened RotationSafety
  import opened RotationGate
  import opened RotationTheorems

  /** How the next I/O operation behaves: an error may come before or after its effect. */
  datatype Io = Works | FailsBefore | FailsAfter

  /** Both seeds without I/O errors. */
  function EnsureBoth(e: Env, d: Disk, g: StartDraw): Option<Disk> {
    var withEd := EnsureSeed(e, d, EdSeed, g.ed, g.edDraw);
    if withEd.None? then None else EnsureSeed(e, withEd.value, DiliSeed, g.dili, g.diliDraw)
  }

  /** The steps that are left when recovery called from `k` has not finished. */
  predicate InRecovery(w: Work, k: Cont) {
    (w.Recover? || w.RecApply? || w.RecStore? || w.Clean?) && w.k == k
  }

  /** The files still to be overwritten by an apply loop. */
  function Todo(w: Work): set<KeyPath>
    requires w.RecApply? || w.Commit?
  {
    w.todo
  }

  /** `w` with the apply loop further on. */
  function WithTodo(w: Work, todo: set<KeyPath>): Work
    requires w.RecApply? || w.Commit?
  {
    if w.RecApply? then RecApply(w.k, w.next, w.switched, todo) else Commit(w.next, todo)
  }

  /** Two positions of one apply loop. */
  predicate SameLoop(w: Work, w': Work) {
    (w.RecApply? || w.Commit?) && (w'.RecApply? || w'.Commit?) && w' == WithTodo(w, Todo(w'))
  }

  /** Live files with the staged copies of `paths` moved over them. */
  function Overwritten(live: map<KeyPath, Bytes>, staged: map<KeyPath, Bytes>, paths: set<KeyPath>): map<KeyPath, Bytes>
    requires paths <= staged.Keys
  {
    map p | p in live :: if p in paths then staged[p] else live[p]
  }

  lemma ApplyDoes(e: Env, s: Sys, p: KeyPath)
    requires s.proc.Up? && (s.proc.work.RecApply? || s.proc.work.Commit?)
    requires s.world.disk.rot.Some? && p in s.world.disk.rot.value.staged && p in Todo(s.proc.work)
    ensures Do(e, s, Worker(Apply(p))) == Some(WithDisk(s,
      s.world.disk.(live := s.world.disk.live[p := s.world.disk.rot.value.staged[p]]),
      WithTodo(s.proc.work, Todo(s.proc.work) - {p})))
  {
  }

  /** From the new directory up to the marker. */
  predicate BeforeMarker(w: Work) {
    w.RotMkDir? || w.RotDraw? || w.RotOld? || w.RotNew? || w.Staging?
  }

  class Manager {
    const env: Env
    ghost const origin: Sys

    var disk: Disk
    var poisoned: bool
    var cached: Bytes
    /** The behaviour of the coming I/O operations; after the last one everything works. */
    var io: seq<Io>
    /** The order in which the operating system removes directory entries. */
    var removal: seq<Entry>

    ghost var sys: Sys
    ghost var acts: seq<Action>

    /** The recorded steps are a run that ends in `sys` with nobody late, and the gate leads to a quiet store. */
    ghost predicate Traced()
      reads this`sys, this`acts
    {
      && Lawful(env) && Inv(env, origin) && Faithful(env, origin) && OnTime(env, origin, acts, sys)
      && Inv(env, sys) && Faithful(env, sys) && Gated(env, sys) && sys.proc.Up?
    }

    ghost predicate Valid()
      reads this
    {
      Traced() && sys.proc.Up? && sys.world.disk == disk && sys.proc.poisoned == poisoned && sys.proc.cached == cached
    }

    /** Records one step of the protocol. */
    ghost method Log(a: Action)
      requires Traced() && Do(env, sys, a).Some? && !Late(env, sys, a) && Do(env, sys, a).value.proc.Up?
      requires a != Worker(MarkReadyErr)
      modifies this`sys, this`acts
      ensures Traced() && sys == Do(env, old(sys), a).value && acts == old(acts) + [a]
    {
      hide Inv, Lawful, Do, Hazard, Late, Gated, Faithful;
      FaithfulStep(env, sys, a);
      StepKeeps(env, sys, a);
      GatedStep(env, sys, a);
      acts := acts + [a];
      assert acts[..|acts| - 1] == old(acts);
      sys := Do(env, sys, a).value;
    }

    /** The outcome of the next I/O operation. */
    method NextIo() returns (b: Io)
      modifies this`io
      ensures old(io) == [] ==> b == Works && io == []
    {
      if io == [] {
        b := Works;
      } else {
        b, io := io[0], io[1..];
      }
    }

    /** The manager as the protocol sees it, apart from the worker's position and the live files. */
    twostate predicate OnlyApplied()
      reads this
    {
      && disk == old(disk).(live := disk.live) && disk.live.Keys == old(disk).live.Keys
      && old(sys).proc.Up? && sys.proc.Up?
      && sys == Sys(old(sys).world.(disk := disk), old(sys).proc.(work := sys.proc.work))
      && old(acts) <= acts
    }

    /** One staged file moved over its live file. */
    method ApplyOne(p: KeyPath) returns (ok: bool)
      requires Valid() && (sys.proc.work.RecApply? || sys.proc.work.Commit?)
      requires disk.rot.Some? && p in Todo(sys.proc.work) && p in disk.live
      modifies this`disk, this`io, this`sys, this`acts
      ensures Valid() && OnlyApplied()
      ensures ok ==> p in disk.rot.value.staged && disk.live == old(disk).live[p := disk.rot.value.staged[p]]
      ensures
        || sys.proc.work == old(sys).proc.work
        || sys.proc.work == WithTodo(old(sys).proc.work, Todo(old(sys).proc.work) - {p})
      ensures ok ==> sys.proc.work == WithTodo(old(sys).proc.work, Todo(old(sys).proc.work) - {p})
      ensures old(io) == [] ==> io == [] && (ok <==> p in disk.rot.value.staged)
    {
      hide Inv, Do, OnTime, Lawful, Faithful, Gated;
      var b := NextIo();
      if b.FailsBefore? || p !in disk.rot.value.staged {
        return false;
      }
      ApplyDoes(env, sys, p);
      Log(Worker(Apply(p)));
      disk := disk.(live := disk.live[p := disk.rot.value.staged[p]]);
      ok := !b.FailsAfter?;
    }

    /** `apply_staged_files`. */
    method ApplyStagedFiles(targets: set<KeyPath>) returns (ok: bool)
      requires Valid() && (sys.proc.work.RecApply? || sys.proc.work.Commit?)
      requires disk.rot.Some? && targets == Todo(sys.proc.work) <= disk.live.Keys
      modifies this`disk, this`io, this`sys, this`acts
      ensures Valid() && OnlyApplied()
      ensures SameLoop(old(sys).proc.work, sys.proc.work)
      ensures ok ==> sys.proc.work == WithTodo(old(sys).proc.work, {})
      ensures ok ==> targets <= disk.rot.value.staged.Keys
      ensures ok ==> disk.live == Overwritten(old(disk).live, disk.rot.value.staged, targets)
      ensures old(io) == [] ==> io == [] && (ok <==> targets <= disk.rot.value.staged.Keys)
    {
      hide Traced;
      var rest := targets;
      while rest != {}
        invariant Valid() && OnlyApplied() && sys.proc.work == WithTodo(old(sys).proc.work, rest)
        invariant rest <= targets && targets - rest <= disk.rot.value.staged.Keys
        invariant forall p | p in disk.live ::
          disk.live[p] == if p in targets - rest then disk.rot.value.staged[p] else old(disk).live[p]
        invariant old(io) == [] ==> io == []
        decreases rest
      {
        var p :| p in rest;
        ok := ApplyOne(p);
        if !ok {
          return;
        }
        rest := rest - {p};
      }
      ok := true;
    }
  
    /** The manager as the protocol sees it, apart from the worker's position and the rotation directory. */
    twostate predicate OnlyCleaned()
      reads this
    {
      && disk == old(disk).(rot := disk.rot)
      && old(sys).proc.Up?
      && sys == Sys(old(sys).world.(disk := disk), old(sys).proc)
      && old(acts) <= acts
    }

    /** One entry of the directory removed. */
    method RemoveOne(f: Entry) returns (ok: bool)
      requires Valid() && (sys.proc.work.Clean? || sys.proc.work.CommitClean?) && disk.rot.Some?
      requires env.orderly && f != EReady ==> !disk.rot.value.ready
      modifies this`disk, this`io, this`sys, this`acts
      ensures Valid() && OnlyCleaned() && disk.rot.Some?
      ensures !ReadyDir(old(disk)) ==> !ReadyDir(disk)
      ensures ok ==> disk.rot.value == Without(old(disk).rot.value, f)
      ensures old(io) == [] ==> io == [] && ok
    {
      hide Traced, Do;
      var b := NextIo();
      if b.FailsBefore? {
        return false;
      }
      RemoveDoes(env, sys, f);
      Log(Worker(Remove(f)));
      disk := disk.(rot := Some(Without(disk.rot.value, f)));
      ok := !b.FailsAfter?;
    }

    /** `cleanup_rotation_dir`: entry by entry, in whatever order the system chooses, then the directory. */
    method CleanupRotationDir() returns (ok: bool)
      requires Valid() && (sys.proc.work.Clean? || sys.proc.work.CommitClean?)
      modifies this`disk, this`io, this`sys, this`acts
      ensures Valid() && OnlyCleaned()
      ensures ok ==> disk.rot.None?
      ensures !ReadyDir(old(disk)) ==> !ReadyDir(disk)
      ensures old(io) == [] ==> io == [] && ok
    {
      hide Traced, Do;
      var i := 0;
      while disk.rot.Some? && i < |removal|
        invariant Valid() && OnlyCleaned() && 0 <= i <= |removal|
        invariant !ReadyDir(old(disk)) ==> !ReadyDir(disk)
        invariant old(io) == [] ==> io == []
        decreases |removal| - i
      {
        if env.orderly && removal[i] != EReady && disk.rot.value.ready {
          break;
        }
        ok := RemoveOne(removal[i]);
        if !ok {
          return;
        }
        i := i + 1;
      }
      if disk.rot.None? {
        return true;
      }
      var b := NextIo();
      if b.FailsBefore? {
        return false;
      }
      RemoveDirDoes(env, sys);
      Log(Worker(RemoveDir));
      disk := disk.(rot := None);
      ok := !b.FailsAfter?;
    }
  
    /** The manager as the protocol sees it, apart from the worker's position and the disk. */
    twostate predicate OnlyMoved()
      reads this
    {
      && old(sys).proc.Up? && sys.proc.Up?
      && sys == Sys(old(sys).world.(disk := disk), old(sys).proc.(work := sys.proc.work))
      && disk.pubs == old(disk).pubs && disk.live.Keys == old(disk).live.Keys
      && old(acts) <= acts
    }

    /** The end of recovery: clean up and return. */
    method FinishRecovery(k: Cont) returns (ok: bool)
      requires Valid() && sys.proc.work == Clean(k)
      modifies this`disk, this`io, this`sys, this`acts
      ensures Valid() && OnlyMoved() && disk == old(disk).(rot := disk.rot)
      ensures if ok then sys.proc.work == AfterRecovery(k) && disk.rot.None? else sys.proc.work == Clean(k)
      ensures !ReadyDir(old(disk)) ==> !ReadyDir(disk)
      ensures old(io) == [] ==> io == [] && ok
    {
      hide Inv, OnTime, Lawful, Faithful;
      ok := CleanupRotationDir();
      if ok {
        Log(Worker(CleanDone));
      }
    }

    /** `store_mk` at the end of recovery, where the provider has not been switched yet. */
    method SwitchProvider(k: Cont, next: Bytes) returns (ok: bool)
      requires Valid() && sys.proc.work == RecStore(k, next)
      modifies this`disk, this`io, this`sys, this`acts
      ensures Valid() && OnlyMoved()
      ensures disk == old(disk) || disk == old(disk).(provider := Some(next))
      ensures InRecovery(sys.proc.work, k)
      ensures ok ==> sys.proc.work == Clean(k) && disk == old(disk).(provider := Some(next))
      ensures old(io) == [] ==> io == [] && ok
    {
      hide Inv, OnTime, Lawful, Faithful;
      var b := NextIo();
      if b.FailsBefore? {
        return false;
      }
      Log(Worker(StoreNext));
      disk := disk.(provider := Some(next));
      ok := !b.FailsAfter?;
    }

    /** The part of recovery that looks at the directory: decides what to do, or fails. */
    method Inspect(k: Cont) returns (found: Option<(Bytes, bool)>)
      requires Valid() && sys.proc.work == Recover(k) && disk.provider.Some? && ReadyDir(disk)
      modifies this`io, this`sys, this`acts
      ensures Valid() && OnlyMoved()
      ensures found.None? ==> sys.proc.work == Recover(k)
      ensures found.Some? ==> found == FindNext(env, disk.rot.value, disk.provider.value)
      ensures found.Some? ==> sys.proc.work == RecApply(k, found.value.0, found.value.1, disk.live.Keys)
      ensures found.Some? ==> found.value.0 == sys.world.next
      ensures found.Some? && sys.world.prev != sys.world.next ==>
        (found.value.1 <==> disk.provider == Some(found.value.0))
      ensures old(io) == [] ==> io == [] && found == FindNext(env, disk.rot.value, disk.provider.value)
    {
      hide Inv, OnTime, Lawful, Faithful, FindNext;
      var b := NextIo();
      if b != Works {
        return None;
      }
      found := FindNext(env, disk.rot.value, disk.provider.value);
      if found.Some? {
        PendingIsKnown(env, sys);
        Log(Worker(Look));
      }
    }

    /** From the end of the apply loop to the return of recovery. */
    method CompleteRecovery(k: Cont, next: Bytes, switched: bool) returns (ok: bool)
      requires Valid() && sys.proc.work == RecApply(k, next, switched, {})
      modifies this`disk, this`io, this`sys, this`acts
      ensures Valid() && OnlyMoved() && disk.live == old(disk).live
      ensures if ok then sys.proc.work == AfterRecovery(k) && disk.rot.None? else InRecovery(sys.proc.work, k)
      ensures ok ==> disk.provider == if switched then old(disk).provider else Some(next)
      ensures old(io) == [] ==> io == [] && ok
    {
      hide Inv, OnTime, Lawful, Faithful, AfterRecovery;
      Log(Worker(Applied));
      if !switched {
        ok := SwitchProvider(k, next);
        if !ok {
          return;
        }
      }
      ok := FinishRecovery(k);
    }

    /**
     `recover_pending_rotation_if_any`.  Without I/O errors it succeeds exactly when
     RecoverAll does, with its result.
     */
    method RecoverPendingRotation(k: Cont) returns (ok: bool)
      requires Valid() && sys.proc.work == Recover(k) && disk.provider.Some?
      modifies this`disk, this`io, this`sys, this`acts
      ensures Valid() && OnlyMoved()
      ensures if ok then sys.proc.work == AfterRecovery(k) && disk.rot.None? && disk.provider.Some?
          else InRecovery(sys.proc.work, k)
      ensures !ReadyDir(old(disk)) ==> disk == old(disk).(rot := disk.rot) && !ReadyDir(disk)
      ensures old(io) == [] ==> io == [] && (if ok then Some(disk) else None) == RecoverAll(env, old(disk))
    {
      hide Inv, OnTime, Lawful, Faithful, FindNext, Do;
      if !ReadyDir(disk) {
        LookDoes(env, sys);
      }
      if disk.rot.None? {
        Log(Worker(Look));
        return true;
      }
      if !disk.rot.value.ready {
        Log(Worker(Look));
        ok := FinishRecovery(k);
        return;
      }
      var targets := disk.live.Keys;
      var found := Inspect(k);
      if found.None? {
        return false;
      }
      ok := ApplyStagedFiles(targets);
      if !ok {
        return;
      }
      assert disk.live == map p | p in old(disk).live :: old(disk).rot.value.staged[p];
      ok := CompleteRecovery(k, found.value.0, found.value.1);
    }
  
    /** The commit attempt after its apply loop: `store_mk`, then clean up. */
    method StoreAndClean(newMk: Bytes) returns (ok: bool)
      requires Valid() && sys.proc.work == CommitStore(newMk)
      modifies this`disk, this`io, this`sys, this`acts
      ensures Valid() && OnlyMoved()
      ensures ok ==> sys.proc.work == Refresh
      ensures !ok ==> (sys.proc.work.CommitStore? || sys.proc.work.CommitClean?) && sys.proc.work.next == newMk
      ensures old(io) == [] ==> io == [] && ok
    {
      hide Inv, OnTime, Lawful, Faithful, Gated, Do;
      var b := NextIo();
      if b.FailsBefore? {
        return false;
      }
      CommitStores(env, sys);
      Log(Worker(StoreNext));
      disk := disk.(provider := Some(newMk));
      if b.FailsAfter? {
        return false;
      }
      ok := CleanupRotationDir();
      if ok {
        CommitEnds(env, sys);
        Log(Worker(CleanDone));
      }
    }

    /** The commit attempt. */
    method TryCommit(newMk: Bytes, targets: set<KeyPath>) returns (ok: bool)
      requires Valid() && sys.proc.work == Commit(newMk, targets) && disk.rot.Some? && targets <= disk.live.Keys
      modifies this`disk, this`io, this`sys, this`acts
      ensures Valid() && OnlyMoved()
      ensures ok ==> sys.proc.work == Refresh
      ensures !ok ==> (sys.proc.work.Commit? || sys.proc.work.CommitStore? || sys.proc.work.CommitClean?)
      ensures !ok ==> sys.proc.work.next == newMk
      ensures old(io) == [] ==> io == [] && (ok <==> targets <= old(disk).rot.value.staged.Keys)
    {
      hide Inv, OnTime, Lawful, Faithful, Gated, Do;
      ok := ApplyStagedFiles(targets);
      if ok {
        ApplyLoopEnds(env, sys);
        Log(Worker(Applied));
        ok := StoreAndClean(newMk);
      }
    }

    /**
     `commit_rotation`.  Ok: the provider holds exactly `newMk`, it opens every live
     file, and the directory is gone, whichever of the attempt and the fallback
     recovery finished the job.  Err: the manager is poisoned.
     */
    method CommitRotation(newMk: Bytes, targets: set<KeyPath>) returns (ok: bool)
      requires Valid() && sys.proc.work == Commit(newMk, targets) && ReadyDir(disk) && targets <= disk.live.Keys
      modifies this`disk, this`io, this`sys, this`acts, this`poisoned
      ensures Valid() && old(acts) <= acts && sys.world.saved == old(sys).world.saved
      ensures sys.proc.serving == old(sys).proc.serving && sys.proc.readers == old(sys).proc.readers
      ensures ok ==> poisoned == old(poisoned) && sys.proc.work == Refresh && disk.rot.None?
      ensures ok ==> disk.provider == Some(newMk) && Whole(env, disk, sys.world.saved)
      ensures !ok ==> poisoned && sys.proc.work == Idle
      ensures old(io) == [] ==> io == [] && ok
    {
      hide Inv, OnTime, Lawful, Faithful, Whole, Do;
      CommitKeyIsNext(env, sys);
      CommitIsStaged(env, sys);
      ok := TryCommit(newMk, targets);
      if !ok {
        CommitFails(env, sys);
        Log(Fail);
        CommitHasProvider(env, sys);
        ok := RecoverPendingRotation(AtCommit(newMk));
        if !ok {
          CommitFails(env, sys);
          Log(Fail);
          poisoned := true;
          return;
        }
      }
      RefreshSettled(env, sys);
    }

    /** The manager as the protocol sees it while a rotation is being prepared. */
    twostate predicate OnlyPrepared()
      reads this
    {
      && old(sys).proc.Up? && sys.proc.Up?
      && disk == old(disk).(rot := disk.rot) && !ReadyDir(disk)
      && sys.proc == old(sys).proc.(work := sys.proc.work) && BeforeMarker(sys.proc.work)
      && sys.world.saved == old(sys).world.saved
      && old(acts) <= acts
    }

    /** One live file rewrapped into the staging directory. */
    method StageOne(p: KeyPath, oldMk: Bytes, newMk: Bytes, ghost todo: set<KeyPath>, r: Draw) returns (ok: bool)
      requires Valid() && sys.proc.work == Staging(oldMk, newMk, todo) && p in todo && p in disk.live
      requires disk.rot.Some? && !ReadyDir(disk)
      modifies this`disk, this`io, this`sys, this`acts
      ensures Valid() && OnlyPrepared() && disk.rot.Some?
      ensures ok ==> sys.proc.work == Staging(oldMk, newMk, todo - {p})
      ensures old(io) == [] ==> io == [] && (ok <==> env.rewrap(disk.live[p], oldMk, newMk, Live(p), r).Some?)
    {
      hide Inv, OnTime, Lawful, Faithful, Gated, Do;
      var b := NextIo();
      var out := env.rewrap(disk.live[p], oldMk, newMk, Live(p), r);
      if b.FailsBefore? || out.None? {
        return false;
      }
      StageDoes(env, sys, p, r);
      Log(Worker(Stage(p, r)));
      disk := disk.(rot := Some(disk.rot.value.(staged := disk.rot.value.staged[p := out.value])));
      ok := !b.FailsAfter?;
    }

    /** `prepare_staged_files`. */
    method PrepareStagedFiles(oldMk: Bytes, newMk: Bytes, targets: set<KeyPath>, draws: KeyPath -> Draw)
      returns (ok: bool)
      requires Valid() && sys.proc.work == Staging(oldMk, newMk, targets) && targets <= disk.live.Keys
      requires disk.rot.Some? && !ReadyDir(disk)
      modifies this`disk, this`io, this`sys, this`acts
      ensures Valid() && OnlyPrepared() && disk.rot.Some?
      ensures ok ==> sys.proc.work == Staging(oldMk, newMk, {})
      ensures old(io) == [] ==> io == []
      ensures old(io) == [] ==>
        (ok <==> forall p | p in targets :: env.rewrap(old(disk).live[p], oldMk, newMk, Live(p), draws(p)).Some?)
    {
      hide Traced;
      var rest := targets;
      while rest != {}
        invariant Valid() && OnlyPrepared() && disk.rot.Some? && sys.proc.work == Staging(oldMk, newMk, rest)
            && rest <= targets
        invariant old(io) == [] ==> io == []
        invariant old(io) == [] ==>
          forall p | p in targets - rest :: env.rewrap(old(disk).live[p], oldMk, newMk, Live(p), draws(p)).Some?
        decreases rest
      {
        var p :| p in rest;
        ok := StageOne(p, oldMk, newMk, rest, draws(p));
        if !ok {
          return;
        }
        rest := rest - {p};
      }
      ok := true;
    }

    /** The new directory, and the next master key drawn. */
    method DrawNextKey(newMk: Bytes32) returns (ok: bool)
      requires Valid() && sys.proc.work == RotMkDir && disk.rot.None? && disk.provider.Some?
      modifies this`disk, this`io, this`sys, this`acts
      ensures Valid() && OnlyPrepared() && (ok ==> disk.rot.Some?)
      ensures ok ==> sys.proc.work == RotOld(disk.provider.value, newMk)
      ensures old(io) == [] ==> io == [] && ok
    {
      hide Traced, Do;
      var b := NextIo();
      if b.FailsBefore? {
        return false;
      }
      MkDirDoes(env, sys);
      Log(Worker(MkDir));
      disk := disk.(rot := Some(RotDir(None, None, map[], false)));
      if b.FailsAfter? {
        return false;
      }
      b := NextIo();
      if !b.Works? {
        return false;
      }
      DrawDoes(env, sys, newMk);
      Log(Worker(DrawNext(newMk)));
      ok := true;
    }

    /** `rotate_now` from the new directory to the two copies of the next master key. */
    method WriteNextKeys(newMk: Bytes32, oldDraw: Draw, newDraw: Draw) returns (ok: bool, oldMk: Bytes)
      requires Valid() && sys.proc.work == RotMkDir && disk.rot.None? && disk.provider.Some?
      requires |disk.provider.value| == 32
      requires Exclusive(env, newMk, oldDraw, newDraw)
      modifies this`disk, this`io, this`sys, this`acts
      ensures Valid() && OnlyPrepared() && (ok ==> disk.rot.Some?)
      ensures ok ==> sys.proc.work == Staging(oldMk, newMk, disk.live.Keys) && disk.provider == Some(oldMk)
      ensures old(io) == [] ==> io == [] && ok
    {
      hide Traced, Do, Exclusive;
      oldMk := disk.provider.value;
      ok := DrawNextKey(newMk);
      if !ok {
        return;
      }
      ok := SaveNext(oldMk, newMk, oldDraw, newDraw);
    }

    /** `save_secret32_encrypted` of the next master key under the old one. */
    method SaveNextOld(oldMk: Bytes32, newMk: Bytes32, r: Draw) returns (ok: bool)
      requires Valid() && sys.proc.work == RotOld(oldMk, newMk) && disk.rot.Some? && !ReadyDir(disk)
      requires oldMk != newMk ==> env.open(env.seal(oldMk, newMk, NextOld, r), newMk, NextOld) == None
      modifies this`disk, this`io, this`sys, this`acts
      ensures Valid() && OnlyPrepared() && disk.rot.Some?
      ensures ok ==> sys.proc.work == RotNew(oldMk, newMk)
      ensures old(io) == [] ==> io == [] && ok
    {
      hide Traced, Do;
      var b := NextIo();
      if b.FailsBefore? {
        return false;
      }
      WriteOldDoes(env, sys, r);
      Log(Worker(WriteNextOld(r)));
      disk := disk.(rot := Some(disk.rot.value.(nextOld := Some(env.seal(oldMk, newMk, NextOld, r)))));
      ok := !b.FailsAfter?;
    }

    /** `save_secret32_encrypted` of the next master key, under the old one and under itself. */
    method SaveNext(oldMk: Bytes32, newMk: Bytes32, oldDraw: Draw, newDraw: Draw) returns (ok: bool)
      requires Valid() && sys.proc.work == RotOld(oldMk, newMk) && disk.rot.Some? && !ReadyDir(disk)
      requires Exclusive(env, newMk, oldDraw, newDraw)
      modifies this`disk, this`io, this`sys, this`acts
      ensures Valid() && OnlyPrepared() && disk.rot.Some?
      ensures ok ==> sys.proc.work == Staging(oldMk, newMk, disk.live.Keys)
      ensures old(io) == [] ==> io == [] && ok
    {
      hide Traced, Do;
      ok := SaveNextOld(oldMk, newMk, oldDraw);
      if !ok {
        return;
      }
      var b := NextIo();
      if b.FailsBefore? {
        return false;
      }
      WriteNewDoes(env, sys, newDraw);
      Log(Worker(WriteNextNew(newDraw)));
      disk := disk.(rot := Some(disk.rot.value.(nextNew := Some(env.seal(newMk, newMk, NextNew, newDraw)))));
      ok := !b.FailsAfter?;
    }

    /**
     `rotate_now` between recovery and commit: everything up to and including the marker.
     The marker is written in one step: if that fails it is not there.  A reported
     failure that leaves the marker behind is the step MarkReadyErr of Rotation.
     */
    method Prepare(newMk: Bytes32, oldDraw: Draw, newDraw: Draw, draws: KeyPath -> Draw) returns (ok: bool)
      requires Valid() && sys.proc.work == RotMkDir && disk.rot.None? && disk.provider.Some?
      requires |disk.provider.value| == 32
      requires Exclusive(env, newMk, oldDraw, newDraw)
      modifies this`disk, this`io, this`sys, this`acts
      ensures Valid() && old(acts) <= acts && disk == old(disk).(rot := disk.rot)
      ensures sys.world.saved == old(sys).world.saved
      ensures sys.proc == old(sys).proc.(work := sys.proc.work)
      ensures ok ==> sys.proc.work == Commit(newMk, disk.live.Keys) && ReadyDir(disk)
      ensures !ok ==> BeforeMarker(sys.proc.work) && !ReadyDir(disk)
      ensures old(io) == [] ==> io == []
      ensures old(io) == [] ==>
        (ok <==> forall p | p in disk.live ::
            env.rewrap(disk.live[p], disk.provider.value, newMk, Live(p), draws(p)).Some?)
    {
      hide Traced, Do, Exclusive;
      var oldMk;
      ok, oldMk := WriteNextKeys(newMk, oldDraw, newDraw);
      if !ok {
        return;
      }
      ok := PrepareStagedFiles(oldMk, newMk, disk.live.Keys, draws);
      if !ok {
        return;
      }
      var b := NextIo();
      if !b.Works? {
        return false;
      }
      MarkDoes(env, sys);
      Log(Worker(MarkReady));
      disk := disk.(rot := Some(disk.rot.value.(ready := true)));
    }

    /** The last part of `rotate_now`: the cached copy of the master key follows the provider. */
    method RefreshCurrentMk() returns (ok: bool)
      requires Valid() && sys.proc.work == Refresh && disk.provider.Some?
      modifies this`io, this`sys, this`acts, this`poisoned, this`cached
      ensures Valid() && old(acts) <= acts && sys.world == old(sys).world
      ensures sys.proc.serving == old(sys).proc.serving && sys.proc.readers == old(sys).proc.readers
      ensures sys.proc.work == Idle && (ok ==> cached == disk.provider.value && poisoned == old(poisoned))
      ensures (!ok ==> poisoned)
      ensures old(io) == [] ==> io == [] && ok
    {
      hide Inv, OnTime, Lawful, Faithful, Gated, Do;
      RefreshDoes(env, sys);
      if env.cachedMk {
        var b := NextIo();
        if !b.Works? {
          Log(Fail);
          poisoned := true;
          return false;
        }
      }
      Log(Worker(RefreshMk));
      cached := disk.provider.value;
      ok := true;
    }

    /** `rotate_now` once nothing is pending: prepare, mark, commit, refresh. */
    method RotateFresh(newMk: Bytes32, oldDraw: Draw, newDraw: Draw, draws: KeyPath -> Draw) returns (ok: bool)
      requires Valid() && sys.proc.work == RotMkDir && disk.rot.None? && disk.provider.Some?
      requires Exclusive(env, newMk, oldDraw, newDraw)
      modifies this`disk, this`io, this`sys, this`acts, this`poisoned, this`cached
      ensures Valid() && sys.proc.work == Idle && old(acts) <= acts && sys.world.saved == old(sys).world.saved
      ensures sys.proc.serving == old(sys).proc.serving && sys.proc.readers == old(sys).proc.readers
      ensures ok ==> disk.provider == Some(newMk) && disk.rot.None? && Whole(env, disk, sys.world.saved)
      ensures (ok ==> poisoned == old(poisoned) && cached == newMk) && (old(poisoned) ==> poisoned)
      ensures !ok && !poisoned ==> disk.live == old(disk).live && disk.provider == old(disk).provider && !ReadyDir(disk)
      ensures old(io) == [] ==> io == []
      ensures old(io) == [] ==>
        (ok <==> forall p | p in old(disk).live ::
            env.rewrap(old(disk).live[p], old(disk).provider.value, newMk, Live(p), draws(p)).Some?)
    {
      hide Inv, OnTime, Lawful, Faithful, Gated, Do, Exclusive, Whole;
      ProviderLength(env, sys);
      ok := Prepare(newMk, oldDraw, newDraw, draws);
      if !ok {
        RotateFails(env, sys);
        Log(Fail);
        return;
      }
      ok := CommitRotation(newMk, disk.live.Keys);
      if ok {
        ok := RefreshCurrentMk();
      }
    }

    /**
     `rotate_now`, under the write gate.  It ends in one of three ways: the provider
     holds exactly `newMk`, which opens every live file; or it failed and no live file
     nor the provider changed; or the manager is poisoned.  The manager goes on serving
     and no caller is let in.  Without I/O errors and with nothing pending it succeeds
     exactly if every live file can be rewrapped.
     */
    method RotateNow(newMk: Bytes32, oldDraw: Draw, newDraw: Draw, draws: KeyPath -> Draw) returns (ok: bool)
      requires Valid() && sys.proc.serving && sys.proc.work == Idle && NoHolder(sys.proc.readers)
      requires Exclusive(env, newMk, oldDraw, newDraw)
      modifies this`disk, this`io, this`sys, this`acts, this`poisoned, this`cached
      ensures Valid() && sys.proc.work == Idle && old(acts) <= acts && sys.world.saved == old(sys).world.saved
      ensures sys.proc.serving == old(sys).proc.serving && sys.proc.readers == old(sys).proc.readers
      ensures ok ==> disk.provider == Some(newMk) && disk.rot.None? && Whole(env, disk, sys.world.saved)
      ensures (ok ==> poisoned == old(poisoned) && cached == newMk) && (old(poisoned) ==> poisoned)
      ensures !ok && !poisoned ==> disk.live == old(disk).live && disk.provider == old(disk).provider && !ReadyDir(disk)
      ensures old(io) == [] ==> io == []
      ensures old(io) == [] && !ReadyDir(old(disk)) && old(disk).provider.Some? ==>
        (ok <==> forall p | p in old(disk).live ::
            env.rewrap(old(disk).live[p], old(disk).provider.value, newMk, Live(p), draws(p)).Some?)
    {
      hide Inv, OnTime, Lawful, Faithful, Gated, Do, Exclusive, Whole, NoHolder;
      IdleFacts(env, sys);
      RotateDoes(env, sys);
      Log(Worker(RotateBegin));
      ok := RecoverPendingRotation(AtRotate);
      if !ok {
        RotateFails(env, sys);
        Log(Fail);
        return;
      }
      ok := RotateFresh(newMk, oldDraw, newDraw, draws);
    }

    /** A process launched on the disk that an earlier run of the system left behind. */
    constructor (e: Env, ghost s: Sys, d: Disk, io0: seq<Io>, removal0: seq<Entry>)
      requires Lawful(e) && Inv(e, s) && s.proc.Down? && s.world.disk == d
      ensures Valid() && sys == Sys(s.world, Up(StartLoad, false, false, [], map[])) && acts == [Boot]
      ensures env == e && origin == s && disk == d && io == io0 && removal == removal0
    {
      env, origin, disk, poisoned, cached, io, removal := e, s, d, false, [], io0, removal0;
      sys, acts := Sys(s.world, Up(StartLoad, false, false, [], map[])), [Boot];
      new;
      hide Lawful, Inv;
      assert [Boot][..0] == [];
      assert Do(e, s, Boot) == Some(sys);
      assert Exec(e, s, []) == Some(s);
      BootKeeps(e, s);
    }

    /** `reconcile_public_cache` or the first write of the public key, for a seed that is in place. */
    method SettlePublicKey(p: KeyPath, created: bool, seed: Bytes) returns (ok: bool)
      requires Valid() && sys.proc.work == StartPub(p, created) && disk.provider.Some? && p in disk.live
      requires Open32(env, Some(disk.live[p]), disk.provider.value, Live(p)) == Some(seed)
      modifies this`disk, this`io, this`sys, this`acts
      ensures Valid() && old(acts) <= acts && StartWork(sys.proc.work)
      ensures ok ==> sys.proc.work == AfterSeed(p) && p in disk.pubs && disk.pubs[p] == env.pubOf(p, seed)
      ensures ok ==> disk == old(disk).(pubs := old(disk).pubs[p := env.pubOf(p, seed)])
      ensures old(io) == [] ==>
        && io == []
        && (ok <==>
              created || (if p in old(disk).pubs then old(disk).pubs[p] == env.pubOf(p, seed) else env.repairMissing))
    {
      hide Inv, OnTime, Lawful, Faithful, Gated, Do, Open32;
      var b := NextIo();
      if b.FailsBefore? {
        return false;
      }
      if !created && p in disk.pubs {
        if disk.pubs[p] != env.pubOf(p, seed) || !b.Works? {
          return false;
        }
        PubCheckDoes(env, sys, seed);
        Log(Worker(PubCheck));
        assert disk.pubs == old(disk).pubs[p := env.pubOf(p, seed)];
        return true;
      }
      if !created && !env.repairMissing {
        return false;
      }
      PubWriteDoes(env, sys, seed);
      Log(Worker(PubWrite));
      disk := disk.(pubs := disk.pubs[p := env.pubOf(p, seed)]);
      ok := !b.FailsAfter?;
    }

    /** `ensure_seed_keypair` for a seed file that exists. */
    method ReloadSeed(p: KeyPath) returns (ok: bool)
      requires Valid() && sys.proc.work == StartSeed(p) && disk.provider.Some? && p in disk.live
      modifies this`disk, this`io, this`sys, this`acts
      ensures Valid() && old(acts) <= acts && StartWork(sys.proc.work)
      ensures ok ==> sys.proc.work == AfterSeed(p) && disk == old(disk).(pubs := disk.pubs)
      ensures ok ==> disk.pubs.Keys == old(disk).pubs.Keys + {p}
      ensures old(io) == [] ==> io == []
      ensures old(io) == [] ==>
        forall seed, r :: (if ok then Some(disk) else None) == EnsureSeed(env, old(disk), p, seed, r)
    {
      hide Inv, OnTime, Lawful, Faithful, Gated, Do, Open32;
      var b := NextIo();
      var seed := Open32(env, Some(disk.live[p]), disk.provider.value, Live(p));
      if !b.Works? || seed.None? {
        return false;
      }
      SeedLoadDoes(env, sys);
      Log(Worker(SeedLoad));
      ok := SettlePublicKey(p, false, seed.value);
      if ok && p in old(disk).pubs && old(disk).pubs[p] == env.pubOf(p, seed.value) {
        assert old(disk).pubs == old(disk).pubs[p := env.pubOf(p, seed.value)];
      }
    }

    /** The new seed saved. */
    method SaveSeed(p: KeyPath, drawn: Bytes32, r: Draw) returns (ok: bool)
      requires Valid() && sys.proc.work == StartSeed(p) && disk.provider.Some? && p !in disk.live
      modifies this`disk, this`io, this`sys, this`acts
      ensures Valid() && old(acts) <= acts && StartWork(sys.proc.work)
      ensures ok ==> sys.proc.work == StartPub(p, true) && p !in old(disk).pubs
      ensures ok ==>
        disk == old(disk).(live := old(disk).live[p := env.seal(old(disk).provider.value, drawn, Live(p), r)])
      ensures old(io) == [] ==> io == [] && (ok <==> p !in old(disk).pubs)
    {
      hide Traced, Do;
      var b := NextIo();
      if b.FailsBefore? || p in disk.pubs {
        return false;
      }
      SeedCreateDoes(env, sys, drawn, r);
      Log(Worker(SeedCreate(drawn, r)));
      disk := disk.(live := disk.live[p := env.seal(disk.provider.value, drawn, Live(p), r)]);
      ok := !b.FailsAfter?;
    }

    /** `ensure_seed_keypair` for a seed file that does not exist. */
    method CreateSeed(p: KeyPath, drawn: Bytes32, r: Draw) returns (ok: bool)
      requires Valid() && sys.proc.work == StartSeed(p) && disk.provider.Some? && p !in disk.live
      modifies this`disk, this`io, this`sys, this`acts
      ensures Valid() && old(acts) <= acts && StartWork(sys.proc.work)
      ensures ok ==> sys.proc.work == AfterSeed(p) && Some(disk) == EnsureSeed(env, old(disk), p, drawn, r)
      ensures old(io) == [] ==> io == [] && (ok <==> p !in old(disk).pubs)
    {
      hide Inv, OnTime, Lawful, Faithful, Gated, Do, Open32;
      ok := SaveSeed(p, drawn, r);
      if !ok {
        return;
      }
      SealedSeedOpens(env, disk.provider.value, drawn, p, r);
      ok := SettlePublicKey(p, true, drawn);
    }

    /** `ensure_seed_keypair`. */
    method EnsureSeedKeypair(p: KeyPath, drawn: Bytes32, r: Draw) returns (ok: bool)
      requires Valid() && sys.proc.work == StartSeed(p) && disk.provider.Some?
      modifies this`disk, this`io, this`sys, this`acts
      ensures Valid() && old(acts) <= acts && StartWork(sys.proc.work)
      ensures ok ==> sys.proc.work == AfterSeed(p) && disk.provider == old(disk).provider
      ensures ok ==> disk.pubs.Keys == old(disk).pubs.Keys + {p}
      ensures old(io) == [] ==> io == [] && (if ok then Some(disk) else None) == EnsureSeed(env, old(disk), p, drawn, r)
    {
      hide Traced;
      if p in disk.live {
        ok := ReloadSeed(p);
      } else {
        ok := CreateSeed(p, drawn, r);
      }
    }

    /** `load_mk`, or the first `store_mk` where there is no master key yet. */
    method LoadOrCreateMk(mk: Bytes32) returns (ok: bool)
      requires Valid() && sys.proc.work == StartLoad
      modifies this`disk, this`io, this`sys, this`acts
      ensures Valid() && old(acts) <= acts && StartWork(sys.proc.work)
      ensures ok ==> sys.proc.work == Recover(AtStart) && disk == WithMk(old(disk), mk)
      ensures old(io) == [] ==> io == [] && ok
    {
      hide Inv, OnTime, Lawful, Faithful;
      var b := NextIo();
      if b.FailsBefore? {
        return false;
      }
      if disk.provider.Some? {
        Log(Worker(BootSkip));
      } else {
        Log(Worker(BootMk(mk)));
        disk := disk.(provider := Some(mk));
      }
      ok := !b.FailsAfter?;
    }

    /** Both key pairs, in the order of `start`. */
    method EnsureSeeds(g: StartDraw) returns (ok: bool)
      requires Valid() && sys.proc.work == StartSeed(EdSeed) && disk.provider.Some?
      modifies this`disk, this`io, this`sys, this`acts
      ensures Valid() && old(acts) <= acts && StartWork(sys.proc.work) && (ok ==> sys.proc.work == StartDone)
      ensures ok ==> disk.provider.Some?
      ensures old(io) == [] ==> io == [] && (if ok then Some(disk) else None) == EnsureBoth(env, old(disk), g)
    {
      hide Traced, EnsureSeed, StartWork;
      ok := EnsureSeedKeypair(EdSeed, g.ed, g.edDraw);
      if ok {
        ok := EnsureSeedKeypair(DiliSeed, g.dili, g.diliDraw);
      }
    }

    /** The end of `start`: the public keys are returned and the manager serves. */
    method Open() returns (keys: Keys)
      requires Valid() && sys.proc.work == StartDone
      modifies this`sys, this`acts, this`cached
      ensures Valid() && old(acts) <= acts && sys.world.saved == old(sys).world.saved
      ensures disk.provider.Some? && sys.proc == Up(Idle, true, false, disk.provider.value, map[])
      ensures disk.provider.Some? && LoadIdentity(env, disk, disk.provider.value) == Some(keys)
      ensures Some(keys) == Identity(env, sys.world.saved) == sys.world.reported
    {
      hide OnTime, Lawful, Faithful, AllUnder, LoadIdentity, Identity;
      IdentityLoads(env, sys.world);
      keys := LoadIdentity(env, disk, disk.provider.value).value;
      Log(Worker(Serve));
      cached := disk.provider.value;
    }

    /**
     `start_with_config`.  The keys it returns are those of the seeds saved in the
     store; without I/O errors it succeeds exactly when StartAll does, with its result.
     */
    method Start(g: StartDraw) returns (keys: Option<Keys>)
      requires Valid() && sys.proc.work == StartLoad
      modifies this`disk, this`io, this`sys, this`acts, this`cached
      ensures Valid() && old(acts) <= acts
      ensures keys.Some? ==> disk.provider.Some? && sys.proc == Up(Idle, true, false, disk.provider.value, map[])
      ensures keys.Some? ==> keys == Identity(env, sys.world.saved)
      ensures keys.None? ==> StartWork(sys.proc.work)
      ensures old(io) == [] ==> io == []
      ensures old(io) == [] ==>
        (if keys.Some? then Some((disk, keys.value)) else None) == StartAll(env, old(disk), g)
    {
      hide Traced, RecoverAll, EnsureSeed, LoadIdentity, Identity;
      var ok := LoadOrCreateMk(g.mk);
      if !ok {
        return None;
      }
      ok := RecoverPendingRotation(AtStart);
      if !ok {
        return None;
      }
      ok := EnsureSeeds(g);
      if !ok {
        return None;
      }
      var returned := Open();
      keys := Some(returned);
    }

    /** One step of caller `t`. */
    ghost method LogRead(t: nat, a: ReadAction)
      requires Traced() && sys.proc.serving && DoRead(env, sys, t, a).Some? && (a.Acquire? ==> !sys.proc.poisoned)
      modifies this`sys, this`acts
      ensures Traced() && sys == DoRead(env, old(sys), t, a).value && acts == old(acts) + [Read(t, a)]
      ensures sys.proc.Up? && sys.proc == old(sys).proc.(readers := sys.proc.readers)
    {
      hide Inv, OnTime, Lawful, Faithful;
      Log(Read(t, a));
    }

    /** A caller that has returned is forgotten. */
    ghost method LogReturn(t: nat, others: map<nat, Reader>)
      requires Traced() && sys.proc.serving && t !in others
      requires t in sys.proc.readers && sys.proc.readers[t].Done?
      requires sys.proc.readers == others[t := sys.proc.readers[t]]
      modifies this`sys, this`acts
      ensures Traced() && sys == old(sys).(proc := old(sys).proc.(readers := others))
      ensures acts == old(acts) + [Read(t, Forget)]
    {
      hide Inv, OnTime, Lawful, Faithful, Gated;
      LogRead(t, Forget);
      assert others[t := old(sys).proc.readers[t]] - {t} == others;
    }

    /** A caller that meets an error lets go of the gate and returns. */
    ghost method LogFailure(t: nat, others: map<nat, Reader>)
      requires Traced() && sys.proc.serving && t !in others
      requires t in sys.proc.readers && !sys.proc.readers[t].Done?
      requires sys.proc.readers == others[t := sys.proc.readers[t]]
      modifies this`sys, this`acts
      ensures Traced() && sys == old(sys).(proc := old(sys).proc.(readers := others)) && old(acts) <= acts
    {
      hide Inv, OnTime, Lawful, Faithful, Gated;
      ghost var r := sys.proc.readers[t];
      LogRead(t, ReadFail);
      assert others[t := r][t := Done(r.req, None)] == others[t := Done(r.req, None)];
      LogReturn(t, others);
    }

    /** A caller links its new file and returns. */
    ghost method LogLink(t: nat, c: Reader, r: Draw, others: map<nat, Reader>)
      requires Traced() && sys.proc.Up? && sys.proc.serving && t !in others
      requires c.Fresh? && sys.proc.readers == others[t := c] && Secret(c.req.name) !in sys.world.disk.live
      modifies this`sys, this`acts
      ensures Traced() && old(acts) <= acts
      ensures var p := Secret(c.req.name);
        sys == Sys(Created(old(sys).world, p, env.seal(c.mk, c.v, Live(p), r), c.v), old(sys).proc.(readers := others))
    {
      hide Traced, DoRead, Created;
      LinkDoes(env, sys, t, r);
      LogRead(t, Link(r));
      assert sys.proc.readers == others[t := Done(c.req, Some(c.v))];
      LogReturn(t, others);
    }

    /** The gate and the master key: everything before the label is looked at. */
    method EnterGate(t: nat, req: Request) returns (mk: Option<Bytes>)
      requires Valid() && sys.proc.serving && sys.proc.work == Idle && t !in sys.proc.readers && disk.provider.Some?
      modifies this`io, this`sys, this`acts
      ensures Valid() && old(acts) <= acts && sys.world == old(sys).world
      ensures mk.Some? ==> !poisoned
      ensures mk.Some? ==> sys.proc == old(sys).proc.(readers := old(sys).proc.readers[t := HasMk(req, mk.value)])
      ensures mk.None? ==> sys.proc == old(sys).proc
      ensures old(io) == [] ==> io == [] && (mk.None? <==> poisoned)
    {
      hide Traced;
      ghost var others := sys.proc.readers;
      LogRead(t, Begin(req));
      if poisoned {
        LogReturn(t, others);
        return None;
      }
      LogRead(t, Acquire);
      assert sys.proc.readers == others[t := Holding(req)];
      var b := NextIo();
      if !b.Works? {
        LogFailure(t, others);
        return None;
      }
      LogRead(t, FetchMk);
      mk := Some(if env.cachedMk then cached else disk.provider.value);
      assert sys.proc.readers == others[t := HasMk(req, mk.value)];
    }

    /** The label's file exists: its payload, or an error. */
    method LoadLabel(t: nat, req: Request, mk: Bytes, ghost others: map<nat, Reader>) returns (result: Option<Bytes>)
      requires Valid() && sys.proc.serving && t !in others && sys.proc.readers == others[t := Exists(req, mk)]
      requires Secret(req.name) in disk.live
      modifies this`io, this`sys, this`acts
      ensures Valid() && old(acts) <= acts && sys.world == old(sys).world && Secret(req.name) in sys.world.saved
      ensures sys.proc == old(sys).proc.(readers := others)
      ensures var saved := sys.world.saved[Secret(req.name)];
        && (result.Some? ==> result == Some(saved))
        && (old(io) == [] ==> io == [])
        && (old(io) == [] ==> result == if req.fixed && |saved| != 32 then None else Keyfile.Readable(saved))
    {
      hide Inv, OnTime, Lawful, Faithful, Gated;
      var p := Secret(req.name);
      HolderOpens(env, sys, t, p);
      var b := NextIo();
      if !b.Works? {
        LogFailure(t, others);
        return None;
      }
      result := env.open(disk.live[p], mk, Live(p));
      if result.Some? && req.fixed && |result.value| != 32 {
        result := None;
      }
      LogRead(t, LoadSecret);
      assert sys.proc.readers == others[t := Done(req, result)];
      LogReturn(t, others);
    }

    /** The label's file does not exist: it is created with the caller's value. */
    method CreateLabel(t: nat, req: Request, mk: Bytes, v: Bytes, r: Draw, ghost others: map<nat, Reader>)
      returns (ok: bool)
      requires Valid() && sys.proc.serving && t !in others && sys.proc.readers == others[t := Fresh(req, mk, v)]
      requires Secret(req.name) !in disk.live
      modifies this`disk, this`io, this`sys, this`acts
      ensures Valid() && old(acts) <= acts && sys.proc == old(sys).proc.(readers := others)
      ensures disk == old(disk).(live := disk.live)
      ensures sys.world.saved == old(sys).world.saved[Secret(req.name) := v] || (!ok && sys.world == old(sys).world)
      ensures old(io) == [] ==> io == [] && ok
    {
      hide Traced;
      var b := NextIo();
      if b.FailsBefore? {
        LogFailure(t, others);
        return false;
      }
      LogLink(t, Fresh(req, mk, v), r, others);
      disk := disk.(live := disk.live[Secret(req.name) := env.seal(mk, v, Live(Secret(req.name)), r)]);
      ok := !b.FailsAfter?;
    }

    /** The look at the label and what follows from it, inside the gate. */
    method UseLabel(t: nat, req: Request, mk: Bytes, v: Bytes, r: Draw, ghost others: map<nat, Reader>)
      returns (result: Option<Bytes>)
      requires Valid() && sys.proc.serving && t !in others && sys.proc.readers == others[t := HasMk(req, mk)]
      requires req.fixed ==> |v| == 32
      modifies this`disk, this`io, this`sys, this`acts
      ensures Valid() && old(acts) <= acts && sys.proc == old(sys).proc.(readers := others)
      ensures disk == old(disk).(live := disk.live) && (!ValidLabel(req.name) ==> result.None? && disk == old(disk))
      ensures result.Some? ==> Secret(req.name) in sys.world.saved && sys.world.saved[Secret(req.name)] == result.value
      ensures sys.world == old(sys).world
           || (Secret(req.name) !in old(sys).world.saved
               && sys.world.saved == old(sys).world.saved[Secret(req.name) := v])
      ensures old(io) == [] ==> io == []
      ensures old(io) == [] && ValidLabel(req.name) ==>
        Secret(req.name) in sys.world.saved
        && var saved := sys.world.saved[Secret(req.name)];
           result == if Secret(req.name) !in old(sys).world.saved then Some(v)
                     else if req.fixed && |saved| != 32 then None else Keyfile.Readable(saved)
    {
      hide Inv, OnTime, Lawful, Faithful, Gated;
      SavedIsLive(env, sys);
      LogRead(t, CheckExists(v));
      if !ValidLabel(req.name) {
        assert sys.proc.readers == others[t := Done(req, None)];
        LogReturn(t, others);
        return None;
      }
      if Secret(req.name) in disk.live {
        assert sys.proc.readers == others[t := Exists(req, mk)];
        result := LoadLabel(t, req, mk, others);
      } else {
        assert sys.proc.readers == others[t := Fresh(req, mk, v)];
        var ok := CreateLabel(t, req, mk, v, r, others);
        result := if ok then Some(v) else None;
      }
    }

    /**
     `get_or_create_secret32` and `load_or_create_sealed_blob` for a caller that
     meets no rotation: a poisoned manager and a bad label are refused; otherwise,
     without I/O errors, the caller gets the payload saved under its label, or the
     value it brought becomes that payload.  The gate is free again on every return.
     */
    method GetOrCreate(t: nat, req: Request, v: Bytes, r: Draw) returns (result: Option<Bytes>)
      requires Valid() && sys.proc.serving && sys.proc.work == Idle && t !in sys.proc.readers
      requires (req.fixed ==> |v| == 32)
      modifies this`disk, this`io, this`sys, this`acts
      ensures Valid() && old(acts) <= acts && sys.proc == old(sys).proc
      ensures disk == old(disk).(live := disk.live)
      ensures poisoned || |req.name| == 0 || |req.name| > 64 ==> result.None? && disk == old(disk)
      ensures result.Some? ==> Secret(req.name) in sys.world.saved && sys.world.saved[Secret(req.name)] == result.value
      ensures sys.world == old(sys).world
           || (Secret(req.name) !in old(sys).world.saved
               && sys.world.saved == old(sys).world.saved[Secret(req.name) := v])
      ensures old(io) == [] ==> io == []
      ensures old(io) == [] && !poisoned && 1 <= |req.name| <= 64 ==>
        Secret(req.name) in sys.world.saved
        && var saved := sys.world.saved[Secret(req.name)];
           result == if Secret(req.name) !in old(sys).world.saved then Some(v)
                     else if req.fixed && |saved| != 32 then None else Keyfile.Readable(saved)
    {
      hide Inv, OnTime, Lawful, Faithful, Gated;
      ghost var others := sys.proc.readers;
      IdleFacts(env, sys);
      var mk := EnterGate(t, req);
      if mk.None? {
        return None;
      }
      result := UseLabel(t, req, mk.value, v, r, others);
    }
  }

  /** The random values of one rotation. */
  datatype Renewal = Renewal(mk: Bytes32, oldDraw: Draw, newDraw: Draw, draws: KeyPath -> Draw)

  /** No payload is too large to be read back. */
  ghost predicate AllReadable(saved: map<KeyPath, Bytes>) {
    forall p | p in saved :: |saved[p]| <= Keyfile.MAX_PAYLOAD
  }

  /** Two rotations one after the other; without I/O errors both succeed. */
  method RotateTwice(m: Manager, q: Renewal, q': Renewal)
    requires m.Valid() && m.sys.proc.serving && m.sys.proc.work == Idle && NoHolder(m.sys.proc.readers)
    requires Exclusive(m.env, q.mk, q.oldDraw, q.newDraw) && Exclusive(m.env, q'.mk, q'.oldDraw, q'.newDraw)
    modifies m
    ensures m.Valid() && old(m.acts) <= m.acts && m.sys.proc.serving && m.sys.proc.work == Idle
    ensures m.sys.world.saved == old(m.sys).world.saved && m.sys.proc.readers == old(m.sys).proc.readers
    ensures old(m.io) == [] ==> m.io == []
    ensures old(m.io) == [] && !old(m.poisoned) && AllReadable(m.sys.world.saved) ==>
      !m.poisoned && m.disk.provider == Some(q'.mk) && m.disk.rot.None? && Whole(m.env, m.disk, m.sys.world.saved)
  {
    hide Inv, OnTime, Lawful, Faithful, Gated, Whole, Exclusive, NoHolder, AllReadable;
    IdleFacts(m.env, m.sys);
    if !m.poisoned && AllReadable(m.sys.world.saved) {
      CanRewrap(m.env, m.sys, q.mk, q.draws);
    }
    var ok := m.RotateNow(q.mk, q.oldDraw, q.newDraw, q.draws);
    if ok && AllReadable(m.sys.world.saved) {
      CanRewrap(m.env, m.sys, q'.mk, q'.draws);
    }
    ok := m.RotateNow(q'.mk, q'.oldDraw, q'.newDraw, q'.draws);
  }

  /**
   A whole session: start, use a label, rotate twice, use the label again.  Whatever
   goes wrong, the label's value does not change.  Without I/O errors, from any store
   whose public keys are in place or repaired and whose payloads can be read back,
   everything succeeds and the last master key opens every file.
   */
  method LabelOutlivesRotations(m: Manager, g: StartDraw, req: Request, v: Bytes, r: Draw, v': Bytes, r': Draw,
                                q: Renewal, q': Renewal)
    returns (first: Option<Bytes>, again: Option<Bytes>)
    requires m.Valid() && m.sys.proc.work == StartLoad && (req.fixed ==> |v| == 32 && |v'| == 32)
    requires Exclusive(m.env, q.mk, q.oldDraw, q.newDraw) && Exclusive(m.env, q'.mk, q'.oldDraw, q'.newDraw)
    modifies m
    ensures m.Valid() && old(m.acts) <= m.acts
    ensures first.Some? && again.Some? ==> first == again
    ensures first.Some? ==> Secret(req.name) in m.sys.world.saved && m.sys.world.saved[Secret(req.name)] == first.value
    ensures old(m.io) == [] && m.env.orderly && AllReadable(old(m.sys).world.saved) && 1 <= |req.name| <= 64
        && |v| <= Keyfile.MAX_PAYLOAD
            && (MissingPub(old(m.disk), EdSeed) || MissingPub(old(m.disk), DiliSeed) ==> m.env.repairMissing)
      ==> && m.disk.provider == Some(q'.mk) && m.disk.rot.None? && Whole(m.env, m.disk, m.sys.world.saved)
          && first == again && (Secret(req.name) !in old(m.sys).world.saved ==> first == Some(v))
  {
    hide Inv, OnTime, Lawful, Faithful, Gated, Whole, Exclusive, MissingPub, StartAll;
    var keys := m.Start(g);
    if old(m.io) == [] && m.env.orderly {
      StartOutcome(m.env, old(m.sys), g, m.sys);
    }
    if keys.None? {
      return None, None;
    }
    first := m.GetOrCreate(0, req, v, r);
    RotateTwice(m, q, q');
    again := m.GetOrCreate(0, req, v', r');
  }

  /** What a start without I/O errors leaves behind. */
  lemma StartOutcome(e: Env, s: Sys, g: StartDraw, s': Sys)
    requires Lawful(e) && Inv(e, s) && Inv(e, s') && e.orderly
    requires StartAll(e, s.world.disk, g).Some? ==> s'.world.disk == StartAll(e, s.world.disk, g).value.0
    ensures StartAll(e, s.world.disk, g).Some? <==>
      (MissingPub(s.world.disk, EdSeed) || MissingPub(s.world.disk, DiliSeed) ==> e.repairMissing)
    ensures StartAll(e, s.world.disk, g).Some? ==>
      s'.world.saved.Keys == s.world.saved.Keys + {EdSeed, DiliSeed} && !ReadyDir(s'.world.disk)
          && s'.world.disk.provider.Some?
    ensures StartAll(e, s.world.disk, g).Some? && AllReadable(s.world.saved) ==> AllReadable(s'.world.saved)
  {
    hide StartAll, MissingPub, ProcInv, Identity;
    StartExactly(e, s.world, g);
  }

  /** If every payload can be read back, every live file can be rewrapped. */
  lemma CanRewrap(e: Env, s: Sys, newMk: Bytes, draws: KeyPath -> Draw)
    requires Lawful(e) && Inv(e, s) && s.world.disk.provider.Some? && !ReadyDir(s.world.disk)
    requires AllReadable(s.world.saved)
    ensures forall p | p in s.world.disk.live ::
      e.rewrap(s.world.disk.live[p], s.world.disk.provider.value, newMk, Live(p), draws(p)).Some?
  {
    hide ProcInv, SeedInv, ReadyOk;
    forall p | p in s.world.disk.live
      ensures e.rewrap(s.world.disk.live[p], s.world.disk.provider.value, newMk, Live(p), draws(p)).Some?
    {
      assert OpensTo(e, s.world.saved, p, s.world.disk.live[p], s.world.disk.provider.value);
    }
  }

  lemma SavedIsLive(e: Env, s: Sys)
    requires Inv(e, s)
    ensures s.world.saved.Keys == s.world.disk.live.Keys
  {
    SavedAreLive(e, s.world);
  }

  /** A caller that holds the gate opens every file with the key it holds. */
  lemma HolderOpens(e: Env, s: Sys, t: nat, p: KeyPath)
    requires Inv(e, s) && Faithful(e, s) && s.proc.Up?
    requires t in s.proc.readers && s.proc.readers[t].Exists? && p in s.world.disk.live
    ensures p in s.world.saved
    ensures e.open(s.world.disk.live[p], s.proc.readers[t].mk, Live(p)) == Keyfile.Readable(s.world.saved[p])
  {
    hide Inv, Quiet;
    HolderIsQuiet(e, s);
    assert Holds(s.proc.readers[t]);
    InsideLoads(e, s, t, p);
  }

  lemma LinkDoes(e: Env, s: Sys, t: nat, r: Draw)
    requires s.proc.Up? && t in s.proc.readers && s.proc.readers[t].Fresh?
    requires Secret(s.proc.readers[t].req.name) !in s.world.disk.live
    ensures var c := s.proc.readers[t]; var p := Secret(c.req.name);
      DoRead(e, s, t, Link(r)) == Some(Sys(Created(s.world, p, e.seal(c.mk, c.v, Live(p), r), c.v),
        s.proc.(readers := s.proc.readers[t := Done(c.req, Some(c.v))])))
  {
  }

  lemma PubCheckDoes(e: Env, s: Sys, seed: Bytes)
    requires s.proc.Up? && s.proc.work.StartPub? && !s.proc.work.created && s.proc.work.path in s.world.disk.live
    requires s.world.disk.provider.Some? && s.proc.work.path in s.world.disk.pubs
    requires Open32(e, Some(s.world.disk.live[s.proc.work.path]), s.world.disk.provider.value, Live(s.proc.work.path))
        == Some(seed)
    requires s.world.disk.pubs[s.proc.work.path] == e.pubOf(s.proc.work.path, seed)
    ensures Do(e, s, Worker(PubCheck)) == Some(WithWork(s, AfterSeed(s.proc.work.path)))
  {
    hide Open32;
  }

  lemma PubWriteDoes(e: Env, s: Sys, seed: Bytes)
    requires s.proc.Up? && s.proc.work.StartPub? && s.proc.work.path in s.world.disk.live && s.world.disk.provider.Some?
    requires s.proc.work.created || (s.proc.work.path !in s.world.disk.pubs && e.repairMissing)
    requires Open32(e, Some(s.world.disk.live[s.proc.work.path]), s.world.disk.provider.value, Live(s.proc.work.path))
        == Some(seed)
    ensures Do(e, s, Worker(PubWrite)) == Some(WithDisk(s,
      s.world.disk.(pubs := s.world.disk.pubs[s.proc.work.path := e.pubOf(s.proc.work.path, seed)]),
          AfterSeed(s.proc.work.path)))
  {
    hide Open32;
  }

  lemma SeedLoadDoes(e: Env, s: Sys)
    requires s.proc.Up? && s.proc.work.StartSeed? && s.proc.work.path in s.world.disk.live
    requires s.world.disk.provider.Some?
    requires Open32(e, Some(s.world.disk.live[s.proc.work.path]), s.world.disk.provider.value,
        Live(s.proc.work.path)).Some?
    ensures Do(e, s, Worker(SeedLoad)) == Some(WithWork(s, StartPub(s.proc.work.path, false)))
  {
    hide Open32;
  }

  lemma SeedCreateDoes(e: Env, s: Sys, seed: Bytes32, r: Draw)
    requires s.proc.Up? && s.proc.work.StartSeed? && s.world.disk.provider.Some?
    requires s.proc.work.path !in s.world.disk.live && s.proc.work.path !in s.world.disk.pubs
    ensures Do(e, s, Worker(SeedCreate(seed, r))) == Some(Sys(
      Created(s.world, s.proc.work.path, e.seal(s.world.disk.provider.value, seed, Live(s.proc.work.path), r), seed),
      s.proc.(work := StartPub(s.proc.work.path, true))))
  {
  }

  lemma SealedSeedOpens(e: Env, mk: Bytes, seed: Bytes32, p: KeyPath, r: Draw)
    requires Lawful(e)
    ensures Open32(e, Some(e.seal(mk, seed, Live(p), r)), mk, Live(p)) == Some(seed)
  {
    assert Keyfile.Readable(seed) == Some(seed);
  }

  lemma StageDoes(e: Env, s: Sys, p: KeyPath, r: Draw)
    requires s.proc.Up? && s.proc.work.Staging? && p in s.proc.work.todo && p in s.world.disk.live
    requires s.world.disk.rot.Some?
    requires e.rewrap(s.world.disk.live[p], s.proc.work.prev, s.proc.work.next, Live(p), r).Some?
    ensures var b := e.rewrap(s.world.disk.live[p], s.proc.work.prev, s.proc.work.next, Live(p), r).value;
      var rot := s.world.disk.rot.value;
      Do(e, s, Worker(Stage(p, r))) == Some(WithRot(s, rot.(staged := rot.staged[p := b]),
        Staging(s.proc.work.prev, s.proc.work.next, s.proc.work.todo - {p})))
  {
  }

  lemma MkDirDoes(e: Env, s: Sys)
    requires s.proc.Up? && s.proc.work.RotMkDir? && s.world.disk.rot.None?
    ensures Do(e, s, Worker(MkDir)) == Some(WithRot(s, RotDir(None, None, map[], false), RotDraw))
  {
  }

  lemma DrawDoes(e: Env, s: Sys, mk: Bytes32)
    requires s.proc.Up? && s.proc.work.RotDraw? && s.world.disk.provider.Some?
    ensures Do(e, s, Worker(DrawNext(mk)))
         == Some(Sys(s.world.(prev := s.world.disk.provider.value, next := mk),
             s.proc.(work := RotOld(s.world.disk.provider.value, mk))))
  {
  }

  lemma WriteOldDoes(e: Env, s: Sys, r: Draw)
    requires s.proc.Up? && s.proc.work.RotOld? && s.world.disk.rot.Some?
    requires s.proc.work.prev != s.proc.work.next ==>
      e.open(e.seal(s.proc.work.prev, s.proc.work.next, NextOld, r), s.proc.work.next, NextOld) == None
    ensures Do(e, s, Worker(WriteNextOld(r)))
         == Some(WithRot(s, s.world.disk.rot.value.(
             nextOld := Some(e.seal(s.proc.work.prev, s.proc.work.next, NextOld, r))),
                         RotNew(s.proc.work.prev, s.proc.work.next)))
  {
  }

  lemma WriteNewDoes(e: Env, s: Sys, r: Draw)
    requires s.proc.Up? && s.proc.work.RotNew? && s.world.disk.rot.Some?
    requires s.proc.work.prev != s.proc.work.next ==>
      e.open(e.seal(s.proc.work.next, s.proc.work.next, NextNew, r), s.proc.work.prev, NextNew) == None
    ensures Do(e, s, Worker(WriteNextNew(r)))
         == Some(WithRot(s, s.world.disk.rot.value.(
             nextNew := Some(e.seal(s.proc.work.next, s.proc.work.next, NextNew, r))),
                         Staging(s.proc.work.prev, s.proc.work.next, s.world.disk.live.Keys)))
  {
  }

  lemma MarkDoes(e: Env, s: Sys)
    requires s.proc.Up? && s.proc.work.Staging? && s.proc.work.todo == {} && s.world.disk.rot.Some?
    ensures Do(e, s, Worker(MarkReady))
         == Some(WithRot(s, s.world.disk.rot.value.(ready := true), Commit(s.proc.work.next, s.world.disk.live.Keys)))
  {
  }

  lemma RefreshDoes(e: Env, s: Sys)
    requires s.proc.Up? && s.proc.work.Refresh? && s.world.disk.provider.Some?
    ensures Do(e, s, Worker(RefreshMk))
         == Some(s.(proc := s.proc.(work := Idle, cached := s.world.disk.provider.value)))
    ensures e.cachedMk ==> Do(e, s, Fail) == Some(s.(proc := s.proc.(work := Idle, poisoned := true)))
  {
  }

  lemma RotateDoes(e: Env, s: Sys)
    requires s.proc.Up? && s.proc.work.Idle? && s.proc.serving && NoHolder(s.proc.readers)
    ensures Do(e, s, Worker(RotateBegin)) == Some(WithWork(s, Recover(AtRotate)))
  {
    hide NoHolder;
  }

  /** An error before the marker ends the rotation and leaves the manager as it was. */
  lemma RotateFails(e: Env, s: Sys)
    requires s.proc.Up? && (BeforeMarker(s.proc.work) || InRecovery(s.proc.work, AtRotate))
    ensures Do(e, s, Fail) == Some(WithWork(s, Idle))
  {
  }

  /** A serving manager that is not poisoned has no rotation pending. */
  lemma IdleFacts(e: Env, s: Sys)
    requires Inv(e, s) && Gated(e, s) && s.proc.Up? && s.proc.serving && s.proc.work.Idle?
    ensures s.world.disk.provider.Some?
    ensures !s.proc.poisoned ==> !ReadyDir(s.world.disk)
  {
    hide StoreInv, SeedInv, ReadersInv;
  }

  lemma ProviderLength(e: Env, s: Sys)
    requires Inv(e, s) && s.world.disk.provider.Some?
    ensures |s.world.disk.provider.value| == 32
  {
    hide AllUnder, ReadyOk;
  }

  lemma RemoveDoes(e: Env, s: Sys, f: Entry)
    requires s.proc.Up? && (s.proc.work.Clean? || s.proc.work.CommitClean?) && s.world.disk.rot.Some?
    requires e.orderly && f != EReady ==> !s.world.disk.rot.value.ready
    ensures Do(e, s, Worker(Remove(f))) == Some(WithRot(s, Without(s.world.disk.rot.value, f), s.proc.work))
  {
    hide Without;
  }

  lemma RemoveDirDoes(e: Env, s: Sys)
    requires s.proc.Up? && (s.proc.work.Clean? || s.proc.work.CommitClean?)
    ensures Do(e, s, Worker(RemoveDir)) == Some(WithDisk(s, s.world.disk.(rot := None), s.proc.work))
  {
  }

  lemma LookDoes(e: Env, s: Sys)
    requires s.proc.Up? && s.proc.work.Recover? && s.world.disk.provider.Some? && !ReadyDir(s.world.disk)
    ensures Do(e, s, Worker(Look))
         == Some(WithWork(s, if s.world.disk.rot.None? then AfterRecovery(s.proc.work.k) else Clean(s.proc.work.k)))
  {
    hide FindNext;
  }

  lemma ApplyLoopEnds(e: Env, s: Sys)
    requires s.proc.Up? && s.proc.work.Commit? && s.proc.work.todo == {}
    ensures Do(e, s, Worker(Applied)) == Some(WithWork(s, CommitStore(s.proc.work.next)))
  {
  }

  lemma CommitStores(e: Env, s: Sys)
    requires s.proc.Up? && s.proc.work.CommitStore?
    ensures Do(e, s, Worker(StoreNext))
         == Some(WithDisk(s, s.world.disk.(provider := Some(s.proc.work.next)), CommitClean(s.proc.work.next)))
  {
  }

  lemma CommitEnds(e: Env, s: Sys)
    requires s.proc.Up? && s.proc.work.CommitClean? && s.world.disk.rot.None?
    ensures Do(e, s, Worker(CleanDone)) == Some(WithWork(s, Refresh))
  {
  }

  /** An error inside `commit_rotation` leads to the fallback recovery, an error inside that one to poisoning. */
  lemma CommitFails(e: Env, s: Sys)
    requires s.proc.Up? && InCommit(s.proc.work)
    ensures Do(e, s, Fail)
         == Some(if CommitRecovery(s.proc.work) then s.(proc := s.proc.(work := Idle, poisoned := true))
                 else WithWork(s, Recover(AtCommit(s.proc.work.next))))
  {
  }

  lemma CommitIsStaged(e: Env, s: Sys)
    requires Inv(e, s) && s.proc.Up? && s.proc.work.Commit?
    ensures ReadyDir(s.world.disk) && s.proc.work.todo <= s.world.disk.rot.value.staged.Keys
  {
    hide StoreInv, SeedInv, ReadersInv;
  }

  lemma PendingIsKnown(e: Env, s: Sys)
    requires Inv(e, s) && ReadyDir(s.world.disk) && s.world.disk.provider.Some?
    requires FindNext(e, s.world.disk.rot.value, s.world.disk.provider.value).Some?
    ensures var found := FindNext(e, s.world.disk.rot.value, s.world.disk.provider.value).value;
      && found.0 == s.world.next
      && (s.world.prev != s.world.next ==> (found.1 <==> s.world.disk.provider == Some(found.0)))
  {
    hide StoreInv, SeedInv, ProcInv, FindNext, Settled;
    FindNextIsNext(e, s.world);
  }

  lemma CommitHasProvider(e: Env, s: Sys)
    requires Inv(e, s) && s.proc.Up? && s.proc.work.Recover?
    ensures s.world.disk.provider.Some?
  {
    hide StoreInv, SeedInv, ReadersInv;
  }
}
