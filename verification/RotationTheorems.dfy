/** The promises of the rotation protocol, for every run. */
module RotationTheorems {
  import opened Wrappers
  import opened ByteStrings
  import Keyfile
  import opened Rotation
  import opened RotationSafety
  import opened RotationGate

  // ---------------------------------------------------------------------------
  // Recovery and start without I/O errors
  // ---------------------------------------------------------------------------

  /** What `recover_pending_rotation_if_any` does to the disk when no I/O error occurs. */
  function RecoverAll(e: Env, d: Disk): Option<Disk> {
    if d.rot.None? || d.provider.None? then Some(d)
    else if !d.rot.value.ready then Some(d.(rot := None))
    else
      var next := FindNext(e, d.rot.value, d.provider.value);
      if next.None? || !(d.live.Keys <= d.rot.value.staged.Keys) then None
      else
        Some(Disk(if next.value.1 then d.provider else Some(next.value.0),
                  map p | p in d.live :: d.rot.value.staged[p], d.pubs, None))
  }

  /** `ensure_seed_keypair`. */
  function EnsureSeed(e: Env, d: Disk, p: KeyPath, seed: Bytes32, r: Draw): Option<Disk> {
    if d.provider.None? then None
    else if p in d.live then
      var stored := Open32(e, Some(d.live[p]), d.provider.value, Live(p));
      if stored.None? then None
      else if p in d.pubs then
        if d.pubs[p] == e.pubOf(p, stored.value) then Some(d) else None
      else if e.repairMissing then Some(d.(pubs := d.pubs[p := e.pubOf(p, stored.value)]))
      else None
    else if p in d.pubs then None
    else
      Some(d.(live := d.live[p := e.seal(d.provider.value, seed, Live(p), r)],
              pubs := d.pubs[p := e.pubOf(p, seed)]))
  }

  /** What the random generator supplies to one start. */
  datatype StartDraw = StartDraw(mk: Bytes32, ed: Bytes32, edDraw: Draw, dili: Bytes32, diliDraw: Draw)

  function WithMk(d: Disk, mk: Bytes): Disk {
    if d.provider.None? then d.(provider := Some(mk)) else d
  }

  /** `start_with_config` when no I/O error occurs: the new disk and the public keys it returns. */
  function StartAll(e: Env, d: Disk, g: StartDraw): Option<(Disk, Keys)> {
    var recovered := RecoverAll(e, WithMk(d, g.mk));
    if recovered.None? then None
    else
      var withEd := EnsureSeed(e, recovered.value, EdSeed, g.ed, g.edDraw);
      if withEd.None? then None
      else
        var withDili := EnsureSeed(e, withEd.value, DiliSeed, g.dili, g.diliDraw);
        if withDili.None? || withDili.value.provider.None? then None
        else
          var keys := LoadIdentity(e, withDili.value, withDili.value.provider.value);
          if keys.None? then None else Some((withDili.value, keys.value))
  }

  // ---------------------------------------------------------------------------
  // Safety of the disk
  // ---------------------------------------------------------------------------

  /** The provider's master key opens every live file to the payload first saved in it. */
  ghost predicate Whole(e: Env, d: Disk, saved: map<KeyPath, Bytes>) {
    && d.live.Keys == saved.Keys
    && (d.provider.Some? ==>
          forall p | p in saved :: e.open(d.live[p], d.provider.value, Live(p)) == Keyfile.Readable(saved[p]))
    && (d.provider.None? ==> saved == map[])
  }

  /** A ready directory from which the provider's master key reaches every payload. */
  ghost predicate Pending(e: Env, d: Disk, saved: map<KeyPath, Bytes>) {
    && ReadyDir(d) && d.provider.Some? && d.live.Keys == saved.Keys && saved.Keys <= d.rot.value.staged.Keys
    && var next := FindNext(e, d.rot.value, d.provider.value);
       && next.Some?
       && forall p | p in saved :: e.open(d.rot.value.staged[p], next.value.0, Live(p)) == Keyfile.Readable(saved[p])
  }

  lemma SettledIsWhole(e: Env, x: World)
    requires StoreInv(e, x) && x.disk.provider.Some? && AllUnder(e, x.saved, x.disk.live, x.disk.provider.value)
    ensures Whole(e, x.disk, x.saved)
  {
    forall p | p in x.saved
      ensures e.open(x.disk.live[p], x.disk.provider.value, Live(p)) == Keyfile.Readable(x.saved[p])
    {
      assert OpensTo(e, x.saved, p, x.disk.live[p], x.disk.provider.value);
    }
  }

  lemma CompleteIsPending(e: Env, x: World)
    requires StoreInv(e, x) && ReadyDir(x.disk) && Complete(x.disk)
    ensures Pending(e, x.disk, x.saved)
  {
    hide Mixed;
    forall p | p in x.saved
      ensures e.open(x.disk.rot.value.staged[p], x.next, Live(p)) == Keyfile.Readable(x.saved[p])
    {
      assert OpensTo(e, x.saved, p, x.disk.rot.value.staged[p], x.next);
    }
  }

  /**
   In every reachable state, whatever the order in which `.rotate` is removed,
   no payload is out of reach: the provider's key opens every live file, or a
   complete ready directory holds rewrapped copies of all of them together with
   the next master key under the provider's.
   */
  lemma NothingLost(e: Env, acts: seq<Action>, s: Sys)
    requires Lawful(e) && Runs(e, INIT, acts, s)
    ensures Whole(e, s.world.disk, s.world.saved) || Pending(e, s.world.disk, s.world.saved)
  {
    hide Lawful, Runs, Whole, Pending;
    ReachableInv(e, acts, s);
    var x := s.world;
    if x.disk.provider.None? {
      assert x.saved == map[];
      EmptyIsWhole(e, x);
    } else if AllUnder(e, x.saved, x.disk.live, x.disk.provider.value) {
      SettledIsWhole(e, x);
    } else {
      CompleteIsPending(e, x);
    }
  }

  lemma EmptyIsWhole(e: Env, x: World)
    requires StoreInv(e, x) && x.disk.provider.None?
    ensures Whole(e, x.disk, x.saved)
  {
    assert x.saved.Keys == {};
  }

  // ---------------------------------------------------------------------------
  // Recovery succeeds
  // ---------------------------------------------------------------------------

  /** When recovery returns, the provider's key opens every file and no directory is left. */
  lemma RecoveryIsSound(e: Env, x: World)
    requires StoreInv(e, x) && RecoverAll(e, x.disk).Some?
    ensures var d := RecoverAll(e, x.disk).value;
      && Whole(e, d, x.saved)
      && (x.disk.provider.Some? ==> d.rot.None? && d.provider.Some?)
      && d.pubs == x.disk.pubs
  {
    hide Mixed;
    var d := RecoverAll(e, x.disk).value;
    if x.disk.provider.None? {
      EmptyIsWhole(e, x);
    } else if !ReadyDir(x.disk) {
      SettledIsWhole(e, x);
    } else {
      FindNextIsNext(e, x);
      assert d.live.Keys == x.saved.Keys;
      forall p | p in x.saved ensures e.open(d.live[p], x.next, Live(p)) == Keyfile.Readable(x.saved[p]) {
        assert OpensTo(e, x.saved, p, x.disk.rot.value.staged[p], x.next);
      }
    }
  }

  /**
   Exactly when recovery can finish.  Before the switch it always can.  After it,
   it needs `ready` to be gone, or the new copy of the next master key and every
   staged file to be still there.
   */
  lemma RecoveryExactly(e: Env, x: World)
    requires StoreInv(e, x) && x.prev != x.next
    ensures RecoverAll(e, x.disk).Some? <==>
      (ReadyDir(x.disk) && x.disk.provider == Some(x.next) ==>
         x.disk.rot.value.nextNew.Some? && x.disk.live.Keys <= x.disk.rot.value.staged.Keys)
  {
    hide AllUnder, Mixed;
  }

  lemma CompleteRecovers(e: Env, x: World)
    requires StoreInv(e, x) && e.orderly
    ensures RecoverAll(e, x.disk).Some?
  {
    hide AllUnder, Mixed;
  }

  /**
   Crash anywhere, any number of times: as long as `.rotate` is removed in one
   step or `ready` first, the next start's recovery succeeds and leaves the
   provider's key opening every live file to the payload first saved in it.
   */
  lemma CrashSafe(e: Env, acts: seq<Action>, s: Sys)
    requires Lawful(e) && e.orderly && Runs(e, INIT, acts, s)
    ensures var d := RecoverAll(e, s.world.disk);
      && d.Some? && Whole(e, d.value, s.world.saved)
      && (s.world.disk.provider.Some? ==> d.value.rot.None? && d.value.provider.Some?)
  {
    hide Lawful, Runs, Whole, StoreInv, SeedInv, RecoverAll;
    ReachableInv(e, acts, s);
    CompleteRecovers(e, s.world);
    RecoveryIsSound(e, s.world);
  }

  // ---------------------------------------------------------------------------
  // Start and identity
  // ---------------------------------------------------------------------------

  /** A disk between operations: nothing pending, seeds and their cached public keys in order. */
  ghost predicate Tidy(e: Env, d: Disk, saved: map<KeyPath, Bytes>) {
    Whole(e, d, saved) && d.provider.Some? && d.rot.None? && SeedOk(e, saved, d.pubs, None)
  }

  /** The seed at `p` after a start that would have drawn `seed`. */
  function SeedAfter(saved: map<KeyPath, Bytes>, p: KeyPath, seed: Bytes): map<KeyPath, Bytes> {
    if p in saved then saved else saved[p := seed]
  }

  /** `ensure_seed_keypair` fails only for a seed whose public key file is missing under the Strict policy. */
  lemma EnsureSeedExactly(e: Env, d: Disk, saved: map<KeyPath, Bytes>, p: KeyPath, seed: Bytes32, r: Draw)
    requires Lawful(e) && Tidy(e, d, saved) && !p.Secret?
    ensures EnsureSeed(e, d, p, seed, r).Some? <==> (p in d.live && p !in d.pubs ==> e.repairMissing)
    ensures EnsureSeed(e, d, p, seed, r).Some? ==>
      var d' := EnsureSeed(e, d, p, seed, r).value;
      Tidy(e, d', SeedAfter(saved, p, seed)) && p in d'.pubs && d'.pubs.Keys == d.pubs.Keys + {p}
      && d'.live.Keys == d.live.Keys + {p}
  {
    if p in d.live {
      hide Lawful;
      assert e.open(d.live[p], d.provider.value, Live(p)) == Some(saved[p]);
    } else {
      CreateSeedTidy(e, d, saved, p, seed, r);
    }
  }

  lemma CreateSeedTidy(e: Env, d: Disk, saved: map<KeyPath, Bytes>, p: KeyPath, seed: Bytes32, r: Draw)
    requires Lawful(e) && Tidy(e, d, saved) && !p.Secret? && p !in d.live
    ensures p !in d.pubs
    ensures EnsureSeed(e, d, p, seed, r).Some? && Tidy(e, EnsureSeed(e, d, p, seed, r).value, saved[p := seed])
  {
    var d', saved' := EnsureSeed(e, d, p, seed, r).value, saved[p := seed];
    assert d'.live.Keys == saved'.Keys;
    assert |seed| == 32;
    assert Keyfile.Readable(seed) == Some(seed);
    forall q | q in saved' ensures e.open(d'.live[q], d'.provider.value, Live(q)) == Keyfile.Readable(saved'[q]) {
      if q != p {
        assert q in saved;
      }
    }
  }

  lemma IdentityOfTidy(e: Env, d: Disk, saved: map<KeyPath, Bytes>)
    requires Tidy(e, d, saved) && EdSeed in d.pubs && DiliSeed in d.pubs
    ensures LoadIdentity(e, d, d.provider.value) == Identity(e, saved) && Identity(e, saved).Some?
  {
    assert EdSeed in saved && DiliSeed in saved;
  }

  /** A seed file without its public key file. */
  predicate MissingPub(d: Disk, p: KeyPath) {
    p in d.live && p !in d.pubs
  }

  /**
   From every disk a crash can leave (directory removal orderly), `start` succeeds
   exactly if no seed file lacks its public key file or the policy repairs that,
   and then it returns the keys of the seeds saved earlier, or of the seeds it just drew.
   */
  lemma StartExactly(e: Env, x: World, g: StartDraw)
    requires Lawful(e) && StoreInv(e, x) && SeedInv(e, x) && e.orderly
    ensures StartAll(e, x.disk, g).Some? <==>
      (MissingPub(x.disk, EdSeed) || MissingPub(x.disk, DiliSeed) ==> e.repairMissing)
    ensures StartAll(e, x.disk, g).Some? ==>
      var saved := SeedAfter(SeedAfter(x.saved, EdSeed, g.ed), DiliSeed, g.dili);
      && Some(StartAll(e, x.disk, g).value.1) == Identity(e, saved)
      && Tidy(e, StartAll(e, x.disk, g).value.0, saved)
  {
    hide Lawful, Whole, SeedOk, EnsureSeed, LoadIdentity, Identity;
    StartRecovers(e, x, g);
    var d0 := RecoverAll(e, WithMk(x.disk, g.mk)).value;
    EnsureSeedExactly(e, d0, x.saved, EdSeed, g.ed, g.edDraw);
    var d1 := EnsureSeed(e, d0, EdSeed, g.ed, g.edDraw);
    if d1.Some? {
      var saved := SeedAfter(x.saved, EdSeed, g.ed);
      EnsureSeedExactly(e, d1.value, saved, DiliSeed, g.dili, g.diliDraw);
      var d2 := EnsureSeed(e, d1.value, DiliSeed, g.dili, g.diliDraw);
      if d2.Some? {
        IdentityOfTidy(e, d2.value, SeedAfter(saved, DiliSeed, g.dili));
      }
    }
  }

  lemma StartRecovers(e: Env, x: World, g: StartDraw)
    requires StoreInv(e, x) && SeedInv(e, x) && e.orderly
    ensures var d := RecoverAll(e, WithMk(x.disk, g.mk));
      && d.Some? && Tidy(e, d.value, x.saved)
      && d.value.live.Keys == x.disk.live.Keys && d.value.pubs == x.disk.pubs
  {
    hide AllUnder, Mixed;
    CompleteRecovers(e, x);
    RecoveryIsSound(e, x);
  }

  /**
   Under `RepairMissingOnly`, no crash at any point, first-time creation included,
   leaves a store that the next start rejects; and that start returns the keys of
   the seeds already saved.
   */
  lemma RepairingStartSucceeds(e: Env, acts: seq<Action>, s: Sys, g: StartDraw)
    requires Lawful(e) && e.orderly && e.repairMissing && Runs(e, INIT, acts, s)
    ensures var started := StartAll(e, s.world.disk, g);
      && started.Some?
      && (Identity(e, s.world.saved).Some? ==> Some(started.value.1) == Identity(e, s.world.saved))
      && (s.world.reported.Some? ==> Some(started.value.1) == s.world.reported)
  {
    hide Lawful, Runs, StoreInv, StartAll, Tidy, ProcInv;
    ReachableInv(e, acts, s);
    StartExactly(e, s.world, g);
  }

  /** Whatever was saved before is still what is saved. */
  ghost predicate StillSaved(saved: map<KeyPath, Bytes>, saved': map<KeyPath, Bytes>) {
    forall p | p in saved :: p in saved' && saved'[p] == saved[p]
  }

  lemma SavedStays(e: Env, s: Sys, a: Action)
    requires Inv(e, s) && Do(e, s, a).Some?
    ensures StillSaved(s.world.saved, Do(e, s, a).value.world.saved)
  {
    hide WorkInv, ReadersInv, Quiet, SeedInv, AllUnder, ReadyOk, FindNext, Open32, LoadIdentity;
  }

  /** The payload first saved at a path stays the payload of that path. */
  lemma {:induction false} SavedNeverChanges(e: Env, s: Sys, acts: seq<Action>, s': Sys)
    requires Lawful(e) && Inv(e, s) && Runs(e, s, acts, s')
    ensures StillSaved(s.world.saved, s'.world.saved)
    decreases |acts|
  {
    hide Lawful, Inv, Do, Hazard;
    if acts != [] {
      var front := acts[..|acts| - 1];
      var m := Exec(e, s, front).value;
      SavedNeverChanges(e, s, front, m);
      RunKeeps(e, s, front, m);
      SavedStays(e, m, acts[|acts| - 1]);
    }
  }

  /**
   Identity is stable: once a start or reload has returned public keys, every
   later start or reload returns the same ones, across rotations and crashes.
   */
  lemma IdentityStable(e: Env, acts: seq<Action>, s: Sys, more: seq<Action>, s': Sys)
    requires Lawful(e) && Runs(e, INIT, acts, s) && Runs(e, s, more, s')
    requires s.world.reported.Some? && s'.world.reported.Some?
    ensures s'.world.reported == s.world.reported
  {
    hide Lawful, Runs, StoreInv, ProcInv;
    ReachableInv(e, acts, s);
    RunKeeps(e, s, more, s');
    SavedNeverChanges(e, s, more, s');
  }

  // ---------------------------------------------------------------------------
  // Stores that were tampered with
  // ---------------------------------------------------------------------------

  /** The 32-byte seed that the provider's key opens at `p`. */
  function SeedAt(e: Env, d: Disk, p: KeyPath): Option<Bytes> {
    if p in d.live && d.provider.Some? then Open32(e, Some(d.live[p]), d.provider.value, Live(p)) else None
  }

  /** The public key file at `p` is that of the seed at `p`. */
  predicate Matches(e: Env, d: Disk, p: KeyPath) {
    SeedAt(e, d, p).Some? && p in d.pubs && d.pubs[p] == e.pubOf(p, SeedAt(e, d, p).value)
  }

  /** On any disk whatever, identity loads exactly if both public key files are those of their seeds. */
  lemma LoadIdentityExactly(e: Env, d: Disk)
    requires d.provider.Some?
    ensures LoadIdentity(e, d, d.provider.value).Some? <==> Matches(e, d, EdSeed) && Matches(e, d, DiliSeed)
    ensures LoadIdentity(e, d, d.provider.value).Some? ==>
      LoadIdentity(e, d, d.provider.value).value
      == Keys(e.pubOf(EdSeed, SeedAt(e, d, EdSeed).value), e.pubOf(DiliSeed, SeedAt(e, d, DiliSeed).value))
  {
  }

  /** A seed file or public key file that does not fit its partner. */
  predicate Foreign(e: Env, d: Disk, p: KeyPath) {
    || (p in d.live && SeedAt(e, d, p).None?)
    || (p in d.live && p in d.pubs && !Matches(e, d, p))
    || (p !in d.live && p in d.pubs)
  }

  /** A start refuses a seed it cannot open, a public key of another seed, and one without a seed. */
  lemma StartRefusesForeignKeys(e: Env, d: Disk, p: KeyPath, g: StartDraw)
    requires d.provider.Some? && d.rot.None? && p in {EdSeed, DiliSeed} && Foreign(e, d, p)
    ensures StartAll(e, d, g).None?
  {
    hide Open32, LoadIdentity;
  }

  /** So do its single steps, in any state: nothing is created beside a public key, and no public key is replaced. */
  lemma StartStepsRefuse(e: Env, s: Sys, seed: Bytes, r: Draw)
    requires s.proc.Up?
    ensures s.proc.work.StartSeed? && s.proc.work.path in s.world.disk.pubs ==> DoStart(e, s, SeedCreate(seed, r)).None?
    ensures s.proc.work.StartPub? && !s.proc.work.created && s.proc.work.path in s.world.disk.pubs ==>
      DoStart(e, s, PubWrite).None?
    ensures s.proc.work.StartPub? && !Matches(e, s.world.disk, s.proc.work.path) ==> DoStart(e, s, PubCheck).None?
  {
    hide Open32, LoadIdentity;
  }

  /** Whenever a start or a reload returns, the keys it reports are those of the saved seeds. */
  lemma ReportsIdentity(e: Env, s: Sys, a: Action)
    requires Inv(e, s) && Do(e, s, a).Some? && (a == Worker(Serve) || a == Worker(Reload))
    ensures var s' := Do(e, s, a).value;
      && s'.world.reported.Some? && s'.world.reported == Identity(e, s'.world.saved)
      && s'.world.reported == LoadIdentity(e, s'.world.disk, s'.world.disk.provider.value)
  {
    hide StoreInv, ProcInv, LoadIdentity, Identity;
    LoadedIdentity(e, s.world, s.world.disk.provider.value);
  }

  // ---------------------------------------------------------------------------
  // The gate
  // ---------------------------------------------------------------------------

  /** A caller that has read the master key. */
  predicate KnowsMk(r: Reader) {
    r.HasMk? || r.Fresh? || r.Exists?
  }

  /**
   In every interleaving of readers and worker: while no writer holds the gate of a
   manager that is not poisoned and has settled its marker errors, and while any
   reader that came on time holds it, all key files are under one master key, which
   is the provider's, the cached one and the readers'.
   */
  lemma GateConsistent(e: Env, acts: seq<Action>, s: Sys)
    requires Lawful(e) && s.proc.Up? && s.proc.serving
    requires
      || (Runs(e, INIT, acts, s) && s.proc.work.Idle? && !s.proc.poisoned && MarkersSettled(acts))
      || (OnTime(e, INIT, acts, s) && !NoHolder(s.proc.readers))
    ensures s.world.disk.provider.Some? && !ReadyDir(s.world.disk) && Whole(e, s.world.disk, s.world.saved)
    ensures e.cachedMk ==> Some(s.proc.cached) == s.world.disk.provider
    ensures forall t | t in s.proc.readers && KnowsMk(s.proc.readers[t]) ::
        Some(s.proc.readers[t].mk) == s.world.disk.provider
  {
    hide Lawful, Runs, OnTime, Whole, SeedInv, ReadyOk, MarkersSettled;
    if Runs(e, INIT, acts, s) && s.proc.work.Idle? && !s.proc.poisoned && MarkersSettled(acts) {
      ReachableInv(e, acts, s);
      InitInv(e);
      RunGated(e, INIT, acts, s);
    } else {
      OnTimeReachable(e, acts, s);
    }
    SettledIsWhole(e, s.world);
    forall t | t in s.proc.readers ensures ReaderInv(e, s.world, s.proc.cached, s.proc.readers[t]) {
    }
  }

  /** Caller `t` has returned with a value for the label `name`. */
  predicate Returned(s: Sys, t: nat, name: Bytes, v: Bytes) {
    s.proc.Up? && t in s.proc.readers && s.proc.readers[t].Done?
    && s.proc.readers[t].req.name == name && s.proc.readers[t].result == Some(v)
  }

  /**
   Any number of callers racing on one label, none of them late, in one process or
   across crashes and rotations: whatever value a caller gets is the one first linked there, so
   a later caller that gets a value gets the same one.
   */
  lemma CallersAgree(e: Env, acts: seq<Action>, s: Sys, more: seq<Action>, s': Sys,
                     t: nat, u: nat, name: Bytes, v: Bytes, v': Bytes)
    requires Lawful(e) && OnTime(e, INIT, acts, s) && OnTime(e, s, more, s')
    requires Returned(s, t, name, v) && Returned(s', u, name, v')
    ensures v' == v && Secret(name) in s.world.saved && s.world.saved[Secret(name)] == v
  {
    hide Lawful, Runs, OnTime, Inv, Quiet;
    OnTimeReachable(e, acts, s);
    OnTimeKeeps(e, s, more, s');
    SavedNeverChanges(e, s, more, s');
  }

  /** A serving, poisoned manager. */
  predicate Shut(s: Sys) {
    s.proc.Up? && s.proc.serving && s.proc.poisoned && !StartWork(s.proc.work)
  }

  lemma ShutStep(e: Env, s: Sys, a: Action)
    requires Shut(s) && Do(e, s, a).Some? && a != Crash
    ensures var s' := Do(e, s, a).value;
      && Shut(s')
      && (forall t | t in s'.proc.readers && t !in s.proc.readers ::
            s'.proc.readers[t].Done? && s'.proc.readers[t].result.None?)
      && (forall t | t in s'.proc.readers && t in s.proc.readers ::
            s.proc.readers[t].Done? ==> s'.proc.readers[t] == s.proc.readers[t])
  {
    hide FindNext, Open32, LoadIdentity, NoHolder;
  }

  /** Poisoning lasts as long as the process, and every call begun after it is refused. */
  lemma {:induction false} PoisonRefuses(e: Env, s: Sys, acts: seq<Action>, s': Sys)
    requires Shut(s) && Exec(e, s, acts) == Some(s') && Crash !in acts
    ensures Shut(s')
    ensures forall t | t in s'.proc.readers && t !in s.proc.readers ::
      s'.proc.readers[t].Done? && s'.proc.readers[t].result.None?
    decreases |acts|
  {
    hide Do, Shut;
    if acts != [] {
      var front := acts[..|acts| - 1];
      var m := Exec(e, s, front).value;
      PoisonRefuses(e, s, front, m);
      ShutStep(e, m, acts[|acts| - 1]);
    }
  }

  // ---------------------------------------------------------------------------
  // What a rotation can come to
  // ---------------------------------------------------------------------------

  /** The process ends, a caller links a file, or the marker is written. */
  predicate Decisive(a: Action) {
    a == Crash || a == Worker(MarkReady) || a == Worker(MarkReadyErr) || (a.Read? && a.r.Link?)
  }

  lemma UntouchedStep(e: Env, s: Sys, a: Action)
    requires Inv(e, s) && Do(e, s, a).Some? && !ReadyDir(s.world.disk) && s.proc.Up? && s.proc.serving
    requires !Decisive(a)
    ensures var s' := Do(e, s, a).value;
      && s'.world.disk.live == s.world.disk.live && s'.world.disk.provider == s.world.disk.provider
      && !ReadyDir(s'.world.disk) && s'.proc.Up? && s'.proc.serving
  {
    hide Inv, FindNext, Open32, LoadIdentity, NoHolder, DoWorker;
    NotApplying(e, s);
    match a
    case Worker(w) => UntouchedWorker(e, s, w);
    case _ =>
  }

  lemma UntouchedWorker(e: Env, s: Sys, w: WorkAction)
    requires s.proc.Up? && DoWorker(e, s, w).Some? && !ReadyDir(s.world.disk) && s.proc.serving
    requires !StartWork(s.proc.work) && !w.MarkReady? && !w.MarkReadyErr?
    requires !s.proc.work.RecApply? && !s.proc.work.RecStore? && !s.proc.work.Commit? && !s.proc.work.CommitStore?
    ensures var s' := DoWorker(e, s, w).value;
      && s'.world.disk.live == s.world.disk.live && s'.world.disk.provider == s.world.disk.provider
      && !ReadyDir(s'.world.disk) && s'.proc.Up? && s'.proc.serving
  {
    hide FindNext, Open32, LoadIdentity, NoHolder;
  }

  lemma NotApplying(e: Env, s: Sys)
    requires Inv(e, s) && !ReadyDir(s.world.disk) && s.proc.Up? && s.proc.serving
    ensures !StartWork(s.proc.work)
    ensures !s.proc.work.RecApply? && !s.proc.work.RecStore? && !s.proc.work.Commit? && !s.proc.work.CommitStore?
  {
    hide StoreInv, SeedInv, ReadersInv;
  }

  /**
   As long as the `ready` marker has not been written, a rotation changes no live
   key file and not the provider, however it ends.
   */
  lemma {:induction false} NoMarkerNoChange(e: Env, s: Sys, acts: seq<Action>, s': Sys)
    requires Lawful(e) && Inv(e, s) && Runs(e, s, acts, s')
    requires !ReadyDir(s.world.disk) && s.proc.Up? && s.proc.serving
    requires forall a | a in acts :: !Decisive(a)
    ensures s'.world.disk.live == s.world.disk.live && s'.world.disk.provider == s.world.disk.provider
    ensures !ReadyDir(s'.world.disk) && s'.proc.Up? && s'.proc.serving
    decreases |acts|
  {
    hide Lawful, Inv, Do, ReadyDir;
    if acts != [] {
      var front, a := acts[..|acts| - 1], acts[|acts| - 1];
      var m := Exec(e, s, front).value;
      NoMarkerNoChange(e, s, front, m);
      RunKeeps(e, s, front, m);
      assert a in acts;
      UntouchedStep(e, m, a);
    }
  }

  /** Inside `commit_rotation`, its fallback recovery included. */
  predicate InCommit(w: Work) {
    w.Commit? || w.CommitStore? || w.CommitClean? || CommitRecovery(w)
  }

  /** The `new_mk` that `commit_rotation` was called with. */
  function CommitKey(w: Work): Bytes
    requires InCommit(w)
  {
    if CommitRecovery(w) then w.k.next else w.next
  }

  /**
   `commit_rotation` ends in one of two ways: Ok, with the provider holding exactly
   `new_mk`, every live file under it and the directory gone, whether the commit or
   its fallback finished; or Err, with the manager poisoned.
   */
  lemma CommitOutcome(e: Env, s: Sys, a: Action)
    requires Lawful(e) && Inv(e, s) && Do(e, s, a).Some? && a != Crash
    requires s.proc.Up? && InCommit(s.proc.work)
    ensures var s' := Do(e, s, a).value;
      && s'.proc.Up?
      && (InCommit(s'.proc.work) ==> CommitKey(s'.proc.work) == CommitKey(s.proc.work))
      && (!InCommit(s'.proc.work) ==>
            || (s'.proc.work.Idle? && s'.proc.poisoned)
            || (&& s'.proc.work.Refresh? && s'.world.disk.rot.None?
                && s'.world.disk.provider == Some(CommitKey(s.proc.work))
                && Whole(e, s'.world.disk, s'.world.saved)))
  {
    hide Lawful, Inv, Do, Whole, StartWork;
    NobodyLinks(e, s, a);
    StepKeeps(e, s, a);
    CommitGoes(e, s, a);
    CommitKeyIsNext(e, s);
    var s' := Do(e, s, a).value;
    if s'.proc.work.Refresh? {
      RefreshSettled(e, s');
    } else if InCommit(s'.proc.work) {
      CommitKeyIsNext(e, s');
    }
  }

  /** While the worker is busy nobody is inside the gate. */
  lemma NobodyLinks(e: Env, s: Sys, a: Action)
    requires Inv(e, s) && s.proc.Up? && !s.proc.work.Idle?
    ensures !Hazard(e, s, a)
  {
    hide StoreInv, SeedInv, WorkInv, ReadersInv, Quiet;
    if a.Read? && a.t in s.proc.readers {
      assert NoHolder(s.proc.readers);
    }
  }

  lemma CommitGoes(e: Env, s: Sys, a: Action)
    requires Do(e, s, a).Some? && a != Crash && s.proc.Up? && InCommit(s.proc.work)
    ensures var s' := Do(e, s, a).value;
      && s'.proc.Up? && s'.world.next == s.world.next
      && (InCommit(s'.proc.work) || s'.proc.work.Refresh? || (s'.proc.work.Idle? && s'.proc.poisoned))
  {
    hide FindNext, Open32, LoadIdentity, NoHolder, DoStart, DoRotate;
    match a
    case Worker(w) => CommitWorkerStays(e, s, w);
    case _ =>
  }

  /** Inside `commit_rotation` only commit and recovery steps are possible. */
  lemma CommitWorkerStays(e: Env, s: Sys, w: WorkAction)
    requires s.proc.Up? && InCommit(s.proc.work) && DoWorker(e, s, w).Some?
    ensures DoRecover(e, s, w).Some? && DoWorker(e, s, w) == DoRecover(e, s, w)
  {
    hide FindNext, Open32, LoadIdentity, NoHolder, DoRecover;
  }

  lemma CommitKeyIsNext(e: Env, s: Sys)
    requires Inv(e, s) && s.proc.Up? && InCommit(s.proc.work)
    ensures CommitKey(s.proc.work) == s.world.next
  {
    hide StoreInv, SeedInv, ReadersInv;
  }

  lemma RefreshSettled(e: Env, s: Sys)
    requires Inv(e, s) && s.proc.Up? && s.proc.work.Refresh?
    ensures s.world.disk.rot.None? && s.world.disk.provider == Some(s.world.next)
    ensures Whole(e, s.world.disk, s.world.saved)
  {
    hide Whole;
    SettledIsWhole(e, s.world);
  }
}
