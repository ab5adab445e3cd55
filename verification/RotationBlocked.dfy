/**
 Stores that no later start accepts: once a store is in such a state it stays in
 one, whatever is tried, by whom and how often.
 */
module RotationBlocked {
  import opened Wrappers
  import opened ByteStrings
  import opened Rotation
  import opened RotationTheorems

  /** No start succeeds on this disk, whatever random values it draws. */
  ghost predicate Refused(e: Env, d: Disk) {
    forall g: StartDraw :: StartAll(e, d, g).None?
  }

  /**
   In whatever way the system goes on from `s`, with any number of restarts, callers,
   I/O errors and crashes: no start ever serves, and none would.
   */
  ghost predicate NeverServes(e: Env, s: Sys) {
    forall more | Exec(e, s, more).Some? ::
      Worker(Serve) !in more && Refused(e, Exec(e, s, more).value.world.disk)
  }

  /** In whatever way the system goes on from `s`: recovery keeps failing, and no rotation gets to its marker. */
  ghost predicate NeverRecovers(e: Env, s: Sys) {
    forall more | Exec(e, s, more).Some? ::
      Worker(MarkReady) !in more && RecoverAll(e, Exec(e, s, more).value.world.disk).None?
  }

  // ---------------------------------------------------------------------------
  // A live file without a staged copy in a marked directory
  // ---------------------------------------------------------------------------

  /** The marked directory has no copy of the live file `p`, and the worker is on no way around it. */
  predicate Blocked(s: Sys, p: KeyPath) {
    && s.world.disk.provider.Some? && ReadyDir(s.world.disk)
    && p in s.world.disk.live && p !in s.world.disk.rot.value.staged
    && (s.proc.Up? ==> BlockedWork(s.proc.work, p))
  }

  predicate BlockedWork(w: Work, p: KeyPath) {
    w.Idle? || w.StartLoad? || ((w.Recover? || (w.RecApply? && p in w.todo)) && !w.k.AtCommit?)
  }

  lemma BlockedRecover(e: Env, s: Sys, a: WorkAction, p: KeyPath)
    requires Blocked(s, p) && s.proc.Up? && DoRecover(e, s, a).Some?
    ensures Blocked(DoRecover(e, s, a).value, p)
  {
    hide FindNext;
  }

  lemma BlockedStart(e: Env, s: Sys, a: WorkAction, p: KeyPath)
    requires Blocked(s, p) && s.proc.Up? && DoStart(e, s, a).Some?
    ensures Blocked(DoStart(e, s, a).value, p) && a != Serve
  {
    hide LoadIdentity, Open32;
  }

  lemma BlockedRotate(e: Env, s: Sys, a: WorkAction, p: KeyPath)
    requires Blocked(s, p) && s.proc.Up? && DoRotate(e, s, a).Some?
    ensures Blocked(DoRotate(e, s, a).value, p) && a != MarkReady
  {
    hide LoadIdentity, NoHolder;
  }

  lemma BlockedOtherwise(e: Env, s: Sys, a: Action, p: KeyPath)
    requires Blocked(s, p) && Do(e, s, a).Some? && !a.Worker?
    ensures Blocked(Do(e, s, a).value, p)
  {
  }

  lemma BlockedStep(e: Env, s: Sys, a: Action, p: KeyPath)
    requires Blocked(s, p) && Do(e, s, a).Some?
    ensures Blocked(Do(e, s, a).value, p) && a != Worker(Serve) && a != Worker(MarkReady)
  {
    hide DoRecover, DoStart, DoRotate, Blocked;
    match a
    case Worker(w) =>
      if DoRecover(e, s, w).Some? {
        BlockedRecover(e, s, w, p);
      }
      if DoStart(e, s, w).Some? {
        BlockedStart(e, s, w, p);
      }
      if DoRotate(e, s, w).Some? {
        BlockedRotate(e, s, w, p);
      }
    case _ => BlockedOtherwise(e, s, a, p);
  }

  lemma {:induction false} BlockedRun(e: Env, s: Sys, acts: seq<Action>, p: KeyPath)
    requires Blocked(s, p) && Exec(e, s, acts).Some?
    ensures Blocked(Exec(e, s, acts).value, p) && Worker(Serve) !in acts && Worker(MarkReady) !in acts
    decreases |acts|
  {
    hide Do, Blocked;
    if acts != [] {
      var front := acts[..|acts| - 1];
      BlockedRun(e, s, front, p);
      BlockedStep(e, Exec(e, s, front).value, acts[|acts| - 1], p);
      assert acts == front + [acts[|acts| - 1]];
    }
  }

  lemma BlockedIsRefused(e: Env, s: Sys, p: KeyPath)
    requires Blocked(s, p)
    ensures RecoverAll(e, s.world.disk).None? && Refused(e, s.world.disk)
  {
    hide FindNext;
  }

  /** One live file without a staged copy in a marked directory shuts the store for good. */
  lemma BlockedForever(e: Env, s: Sys, p: KeyPath)
    requires Blocked(s, p)
    ensures NeverServes(e, s) && NeverRecovers(e, s)
  {
    hide Exec, Blocked, Refused, RecoverAll;
    forall more | Exec(e, s, more).Some?
      ensures Worker(Serve) !in more && Worker(MarkReady) !in more
      ensures RecoverAll(e, Exec(e, s, more).value.world.disk).None? && Refused(e, Exec(e, s, more).value.world.disk)
    {
      BlockedRun(e, s, more, p);
      BlockedIsRefused(e, Exec(e, s, more).value, p);
    }
  }

  // ---------------------------------------------------------------------------
  // A seed without its public key under the Strict policy
  // ---------------------------------------------------------------------------

  /** The first seed has no public key file and no start is past looking for it. */
  predicate HalfStarted(s: Sys) {
    && s.world.disk.provider.Some? && s.world.disk.rot.None?
    && EdSeed in s.world.disk.live && EdSeed !in s.world.disk.pubs
    && (s.proc.Up? ==> !s.proc.serving && s.proc.readers == map[] && HalfWork(s.proc.work))
  }

  predicate HalfWork(w: Work) {
    w.StartLoad? || w == Recover(AtStart) || w == StartSeed(EdSeed) || w == StartPub(EdSeed, false)
  }

  lemma HalfWorker(e: Env, s: Sys, a: WorkAction)
    requires HalfStarted(s) && !e.repairMissing && s.proc.Up? && DoWorker(e, s, a).Some?
    ensures HalfStarted(DoWorker(e, s, a).value) && a != Serve
  {
    hide FindNext, LoadIdentity, Open32, NoHolder;
  }

  lemma HalfStep(e: Env, s: Sys, a: Action)
    requires HalfStarted(s) && !e.repairMissing && Do(e, s, a).Some?
    ensures HalfStarted(Do(e, s, a).value) && a != Worker(Serve)
  {
    hide DoWorker;
    if a.Worker? {
      HalfWorker(e, s, a.w);
    }
  }

  lemma {:induction false} HalfRun(e: Env, s: Sys, acts: seq<Action>)
    requires HalfStarted(s) && !e.repairMissing && Exec(e, s, acts).Some?
    ensures HalfStarted(Exec(e, s, acts).value) && Worker(Serve) !in acts
    decreases |acts|
  {
    hide Do, HalfStarted;
    if acts != [] {
      var front := acts[..|acts| - 1];
      HalfRun(e, s, front);
      HalfStep(e, Exec(e, s, front).value, acts[|acts| - 1]);
      assert acts == front + [acts[|acts| - 1]];
    }
  }

  lemma HalfIsRefused(e: Env, s: Sys)
    requires HalfStarted(s) && !e.repairMissing
    ensures Refused(e, s.world.disk)
  {
    hide Open32, LoadIdentity;
  }

  /** Under the Strict policy a seed without its public key file shuts the store for good. */
  lemma HalfStartedForever(e: Env, s: Sys)
    requires HalfStarted(s) && !e.repairMissing
    ensures NeverServes(e, s)
  {
    hide Exec, HalfStarted, Refused;
    forall more | Exec(e, s, more).Some?
      ensures Worker(Serve) !in more && Refused(e, Exec(e, s, more).value.world.disk)
    {
      HalfRun(e, s, more);
      HalfIsRefused(e, Exec(e, s, more).value);
    }
  }
}
