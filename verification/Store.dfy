/** The ephemeral store: a map with expiry, indexed by a heap that may hold stale entries. */
module Store {
  import opened Wrappers
  import opened ByteStrings

  /** The last representable instant, in nanoseconds. */
  const INSTANT_MAX := 0x7FFF_FFFF_FFFF_FFFF * 1_000_000_000 + 999_999_999

  /** A stored value; sealing it under the store's key is transparent to what is modelled here. */
  datatype Entry = Entry(value: Bytes, expires: nat, version: nat)

  datatype HeapEntry = HeapEntry(expires: nat, version: nat, key: string)

  // ---------------------------------------------------------------------------
  // The heap order
  // ---------------------------------------------------------------------------

  /** The lexicographic order of strings. */
  predicate LexLess(a: string, b: string) {
    b != [] && (a == [] || a[0] < b[0] || (a[0] == b[0] && LexLess(a[1..], b[1..])))
  }

  /** `HeapEntry::cmp`, read as a max-heap does: `x` comes out before `y`. */
  predicate Before(x: HeapEntry, y: HeapEntry) {
    || x.expires < y.expires
    || (x.expires == y.expires && x.version < y.version)
    || (x.expires == y.expires && x.version == y.version && LexLess(x.key, y.key))
  }

  lemma {:induction false} LexTotal(a: string, b: string)
    ensures a == b || LexLess(a, b) || LexLess(b, a)
  {
    if a != [] && b != [] && a[0] == b[0] {
      LexTotal(a[1..], b[1..]);
      assert a == [a[0]] + a[1..] && b == [b[0]] + b[1..];
    }
  }

  lemma {:induction false} LexTransitive(a: string, b: string, c: string)
    requires LexLess(a, b) && LexLess(b, c)
    ensures LexLess(a, c)
  {
    if a != [] && a[0] == b[0] && b[0] == c[0] {
      LexTransitive(a[1..], b[1..], c[1..]);
    }
  }

  lemma {:induction false} LexIrreflexive(a: string)
    ensures !LexLess(a, a)
  {
    if a != [] {
      LexIrreflexive(a[1..]);
    }
  }

  /** The heap order is a strict total order. */
  lemma BeforeIsTotalOrder(x: HeapEntry, y: HeapEntry, z: HeapEntry)
    ensures !Before(x, x)
    ensures x == y || Before(x, y) || Before(y, x)
    ensures Before(x, y) && Before(y, z) ==> Before(x, z)
  {
    LexIrreflexive(x.key);
    LexTotal(x.key, y.key);
    if LexLess(x.key, y.key) && LexLess(y.key, z.key) {
      LexTransitive(x.key, y.key, z.key);
    }
  }

  /** What `peek` returns: nothing in the heap comes out earlier. */
  predicate IsTop(x: HeapEntry, heap: multiset<HeapEntry>) {
    x in heap && forall y | y in heap :: !Before(y, x)
  }

  lemma {:induction false} TopExists(heap: multiset<HeapEntry>) returns (top: HeapEntry)
    requires |heap| > 0
    ensures IsTop(top, heap)
    decreases |heap|
  {
    var x :| x in heap;
    var rest := heap - multiset{x};
    BeforeIsTotalOrder(x, x, x);
    if |rest| == 0 {
      assert heap == rest + multiset{x};
      return x;
    }
    var t := TopExists(rest);
    assert heap == rest + multiset{x};
    top := if Before(x, t) then x else t;
    forall y | y in heap ensures !Before(y, top) {
      BeforeIsTotalOrder(y, x, t);
    }
  }

  // ---------------------------------------------------------------------------
  // The index
  // ---------------------------------------------------------------------------

  /** Every map entry has its heap entry; versions are below the counter and name one heap entry each. */
  ghost predicate Indexed(entries: map<string, Entry>, heap: multiset<HeapEntry>, next: nat) {
    && (forall k | k in entries :: HeapEntry(entries[k].expires, entries[k].version, k) in heap)
    && (forall x | x in heap :: x.version < next)
    && (forall x, y | x in heap && y in heap && x.version == y.version :: x == y)
  }

  /** The entries that have not expired at `now`. */
  function Unexpired(entries: map<string, Entry>, now: nat): map<string, Entry> {
    map k | k in entries && entries[k].expires > now :: entries[k]
  }

  /** Removing one popped heap entry keeps the index, if the map entry it belongs to goes with it. */
  lemma PopKeepsIndex(entries: map<string, Entry>, heap: multiset<HeapEntry>, next: nat, top: HeapEntry)
    requires Indexed(entries, heap, next) && top in heap
    ensures top.key in entries && entries[top.key].version == top.version ==> entries[top.key].expires == top.expires
    ensures var entries' := if top.key in entries && entries[top.key].version == top.version then entries - {top.key}
        else entries;
      Indexed(entries', heap - multiset{top}, next)
  {
    var entries' := if top.key in entries && entries[top.key].version == top.version then entries - {top.key}
        else entries;
    var heap' := heap - multiset{top};
    if top.key in entries && entries[top.key].version == top.version {
      assert HeapEntry(entries[top.key].expires, entries[top.key].version, top.key) in heap;
    }
    forall k | k in entries' ensures HeapEntry(entries'[k].expires, entries'[k].version, k) in heap' {
      var h := HeapEntry(entries[k].expires, entries[k].version, k);
      assert h in heap && h != top;
      assert heap'[h] == heap[h];
    }
    forall x | x in heap' ensures x in heap {
    }
  }

  lemma PushKeepsIndex(entries: map<string, Entry>, heap: multiset<HeapEntry>, next: nat, key: string, value: Bytes,
                       expires: nat)
    requires Indexed(entries, heap, next)
    ensures Indexed(entries[key := Entry(value, expires, next)],
                    heap + multiset{HeapEntry(expires, next, key)}, next + 1)
  {
  }

  // ---------------------------------------------------------------------------
  // What the operations compute
  // ---------------------------------------------------------------------------

  datatype Error = TtlTooLarge | VersionOverflow

  datatype Out = Unit | Flag(b: bool) | Got(v: Option<Bytes>) | Failed(error: Error)

  /** The calls, each with the instant it reads before taking the lock, and the background sweep. */
  datatype Op =
    | Set(key: string, value: Bytes, ttl: nat, now: nat)
    | SetIfAbsent(key: string, value: Bytes, ttl: nat, now: nat)
    | Peek(key: string, now: nat)
    | Take(key: string, now: nat)
    | Del(key: string)
    | Sweep(now: nat)

  datatype State = State(entries: map<string, Entry>, next: nat)

  /** A new entry under the next version; on success the call returns `ok`. */
  function Inserted(s: State, key: string, value: Bytes, expires: nat, ok: Out): (State, Out) {
    if s.next >= U64_MAX then (s, Failed(VersionOverflow))
    else (State(s.entries[key := Entry(value, expires, s.next)], s.next + 1), ok)
  }

  predicate Present(entries: map<string, Entry>, key: string, now: nat) {
    key in entries && entries[key].expires > now
  }

  /** One call on the store. */
  function Step(s: State, op: Op): (State, Out) {
    match op
    case Set(key, value, ttl, now) =>
      if ttl == 0 then (s, Unit)
      else if now + ttl > INSTANT_MAX then (s, Failed(TtlTooLarge))
      else Inserted(s.(entries := Unexpired(s.entries, now)), key, value, now + ttl, Unit)
    case SetIfAbsent(key, value, ttl, now) =>
      if ttl == 0 then (s, Flag(false))
      else if now + ttl > INSTANT_MAX then (s, Failed(TtlTooLarge))
      else
        var swept := s.(entries := Unexpired(s.entries, now));
        if Present(swept.entries, key, now) then (swept, Flag(false))
        else Inserted(swept, key, value, now + ttl, Flag(true))
    case Peek(key, now) =>
      if Present(s.entries, key, now) then (s, Got(Some(s.entries[key].value)))
      else (s.(entries := s.entries - {key}), Got(None))
    case Take(key, now) =>
      (s.(entries := s.entries - {key}), if Present(s.entries, key, now) then Got(Some(s.entries[key].value))
          else Got(None))
    case Del(key) => (s.(entries := s.entries - {key}), Unit)
    case Sweep(now) => (s.(entries := Unexpired(s.entries, now)), Unit)
  }

  /** A call that stores is refused for its time to live exactly if it would end after the last instant there is. */
  lemma TtlLimit(s: State, key: string, value: Bytes, ttl: nat, now: nat)
    ensures var last := 9_223_372_036_854_775_807_999_999_999;
      && (Step(s, Set(key, value, ttl, now)).1 == Failed(TtlTooLarge) <==> ttl > 0 && now + ttl > last)
      && (Step(s, SetIfAbsent(key, value, ttl, now)).1 == Failed(TtlTooLarge) <==> ttl > 0 && now + ttl > last)
  {
  }

  class StoreInner {
    var entries: map<string, Entry>
    var heap: multiset<HeapEntry>
    var nextVersion: nat

    ghost predicate Valid()
      reads this
    {
      Indexed(entries, heap, nextVersion)
    }

    constructor ()
      ensures Valid() && entries == map[] && heap == multiset{} && nextVersion == 0
    {
      entries, heap, nextVersion := map[], multiset{}, 0;
    }

    /** `BinaryHeap::peek`. */
    method PeekHeap() returns (top: Option<HeapEntry>)
      ensures top.None? <==> |heap| == 0
      ensures top.Some? ==> IsTop(top.value, heap)
    {
      if |heap| == 0 {
        return None;
      }
      ghost var t := TopExists(heap);
      var x :| x in heap && IsTop(x, heap);
      top := Some(x);
    }

    /** `sweep_expired`: exactly the entries expired at `now` go, and no heap entry that old stays. */
    method SweepExpired(now: nat)
      requires Valid()
      modifies this`entries, this`heap
      ensures Valid() && entries == Unexpired(old(entries), now)
      ensures forall x | x in heap :: x.expires > now
    {
      hide Indexed, IsTop, Shrunk, Unexpired;
      EmptyShrink(entries, now);
      var top := PeekHeap();
      while top.Some? && top.value.expires <= now
        invariant Valid()
        invariant top.None? <==> |heap| == 0
        invariant top.Some? ==> IsTop(top.value, heap)
        invariant Shrunk(entries, old(entries), now)
        decreases |heap|
      {
        TopIsIn(top.value, heap);
        PopExpired(top.value, now);
        top := PeekHeap();
      }
      NothingExpiredLeft(entries, heap, nextVersion, top, now);
      ShrunkIsUnexpired(entries, old(entries), now);
    }

    /** `next_version`. */
    method NextVersion() returns (r: Option<nat>)
      modifies this`nextVersion
      ensures old(nextVersion) < 0xFFFF_FFFF_FFFF_FFFF ==>
        r == Some(old(nextVersion)) && nextVersion == old(nextVersion) + 1
      ensures old(nextVersion) >= 0xFFFF_FFFF_FFFF_FFFF ==> r.None? && nextVersion == old(nextVersion)
    {
      if nextVersion >= U64_MAX {
        return None;
      }
      r := Some(nextVersion);
      nextVersion := nextVersion + 1;
    }

    /** The common end of `set` and `set_if_absent`. */
    method Insert(key: string, value: Bytes, expires: nat, ok: Out) returns (out: Out)
      requires Valid()
      modifies this
      ensures Valid()
      ensures (State(entries, nextVersion), out)
           == Inserted(State(old(entries), old(nextVersion)), key, value, expires, ok)
    {
      hide Indexed;
      PushKeepsIndex(entries, heap, nextVersion, key, value, expires);
      var v := NextVersion();
      if v.None? {
        return Failed(VersionOverflow);
      }
      entries := entries[key := Entry(value, expires, v.value)];
      heap := heap + multiset{HeapEntry(expires, v.value, key)};
      out := ok;
    }

    method Set(key: string, value: Bytes, ttl: nat, now: nat) returns (out: Out)
      requires Valid()
      modifies this
      ensures Valid()
      ensures (State(entries, nextVersion), out)
           == Step(State(old(entries), old(nextVersion)), Op.Set(key, value, ttl, now))
    {
      hide Indexed, Unexpired;
      if ttl == 0 {
        return Unit;
      }
      if now + ttl > INSTANT_MAX {
        return Failed(TtlTooLarge);
      }
      SweepExpired(now);
      out := Insert(key, value, now + ttl, Unit);
    }

    method SetIfAbsent(key: string, value: Bytes, ttl: nat, now: nat) returns (out: Out)
      requires Valid()
      modifies this
      ensures Valid()
      ensures (State(entries, nextVersion), out)
           == Step(State(old(entries), old(nextVersion)), Op.SetIfAbsent(key, value, ttl, now))
    {
      hide Indexed, Unexpired;
      if ttl == 0 {
        return Flag(false);
      }
      if now + ttl > INSTANT_MAX {
        return Failed(TtlTooLarge);
      }
      SweepExpired(now);
      if key in entries && entries[key].expires > now {
        return Flag(false);
      }
      out := Insert(key, value, now + ttl, Flag(true));
    }

    method Peek(key: string, now: nat) returns (out: Out)
      requires Valid()
      modifies this`entries
      ensures Valid()
      ensures (State(entries, nextVersion), out) == Step(State(old(entries), nextVersion), Op.Peek(key, now))
    {
      if key !in entries {
        assert entries == entries - {key};
        return Got(None);
      }
      if entries[key].expires > now {
        return Got(Some(entries[key].value));
      }
      entries := entries - {key};
      out := Got(None);
    }

    method Take(key: string, now: nat) returns (out: Out)
      requires Valid()
      modifies this`entries
      ensures Valid()
      ensures (State(entries, nextVersion), out) == Step(State(old(entries), nextVersion), Op.Take(key, now))
    {
      if key !in entries {
        assert entries == entries - {key};
        return Got(None);
      }
      var e := entries[key];
      entries := entries - {key};
      out := if e.expires <= now then Got(None) else Got(Some(e.value));
    }

    method Del(key: string) returns (out: Out)
      requires Valid()
      modifies this`entries
      ensures Valid()
      ensures (State(entries, nextVersion), out) == Step(State(old(entries), nextVersion), Op.Del(key))
    {
      entries := entries - {key};
      out := Unit;
    }

    /**
     One round of `cleanup_loop`: sweep, then the instant to wait for.  It is never
     later than the expiry of anything stored, and lies after `now`.
     */
    method CleanupRound(now: nat) returns (deadline: Option<nat>)
      requires Valid()
      modifies this`entries, this`heap
      ensures Valid() && entries == Unexpired(old(entries), now)
      ensures deadline.None? ==> entries == map[] && heap == multiset{}
      ensures deadline.Some? ==> exists x | x in heap :: x.expires == deadline.value
      ensures deadline.Some? ==> forall x | x in heap :: deadline.value <= x.expires
      ensures deadline.Some? ==> deadline.value > now && forall k | k in entries :: deadline.value <= entries[k].expires
    {
      hide Indexed;
      SweepExpired(now);
      var top := PeekHeap();
      deadline := if top.Some? then Some(top.value.expires) else None;
      NothingExpiredLeft(entries, heap, nextVersion, top, now);
    }

    /** The body of the sweeping loop: pop one expired heap entry, and the map entry it still stands for. */
    method PopExpired(t: HeapEntry, now: nat)
      requires Valid() && t in heap && t.expires <= now
      modifies this`entries, this`heap
      ensures Valid() && |heap| == |old(heap)| - 1
      ensures forall before | Shrunk(old(entries), before, now) :: Shrunk(entries, before, now)
    {
      hide Indexed;
      PopKeepsIndex(entries, heap, nextVersion, t);
      heap := heap - multiset{t};
      if t.key in entries && entries[t.key].version == t.version && entries[t.key].expires <= now {
        entries := entries - {t.key};
      }
    }
  }

  /** Some expired entries are gone and nothing else changed. */
  ghost predicate Shrunk(entries: map<string, Entry>, before: map<string, Entry>, now: nat) {
    && (forall k | k in entries :: k in before && entries[k] == before[k])
    && (forall k | k in before && k !in entries :: before[k].expires <= now)
  }

  lemma EmptyShrink(entries: map<string, Entry>, now: nat)
    ensures Shrunk(entries, entries, now)
  {
  }

  lemma ShrunkIsUnexpired(entries: map<string, Entry>, before: map<string, Entry>, now: nat)
    requires Shrunk(entries, before, now) && forall k | k in entries :: entries[k].expires > now
    ensures entries == Unexpired(before, now)
  {
    assert entries.Keys == Unexpired(before, now).Keys;
  }

  lemma TopIsIn(x: HeapEntry, heap: multiset<HeapEntry>)
    requires IsTop(x, heap)
    ensures x in heap
  {
  }

  lemma NothingExpiredLeft(entries: map<string, Entry>, heap: multiset<HeapEntry>, next: nat, top: Option<HeapEntry>,
                           now: nat)
    requires Indexed(entries, heap, next)
    requires if top.Some? then IsTop(top.value, heap) && top.value.expires > now else |heap| == 0
    ensures forall k | k in entries :: entries[k].expires > now && top.Some? && entries[k].expires >= top.value.expires
    ensures forall x | x in heap :: x.expires > now
  {
    forall k | k in entries ensures entries[k].expires > now && top.Some? && entries[k].expires >= top.value.expires {
      assert HeapEntry(entries[k].expires, entries[k].version, k) in heap;
    }
  }

  // ---------------------------------------------------------------------------
  // A plain map with expiry
  // ---------------------------------------------------------------------------

  datatype Item = Item(value: Bytes, expires: nat)

  predicate Alive(p: map<string, Item>, key: string, now: nat) {
    key in p && p[key].expires > now
  }

  /** What the calls mean: a map whose items simply count as absent once expired. */
  function PlainStep(p: map<string, Item>, op: Op): (map<string, Item>, Out) {
    match op
    case Set(key, value, ttl, now) =>
      if ttl == 0 then (p, Unit)
      else if now + ttl > INSTANT_MAX then (p, Failed(TtlTooLarge))
      else (p[key := Item(value, now + ttl)], Unit)
    case SetIfAbsent(key, value, ttl, now) =>
      if ttl == 0 then (p, Flag(false))
      else if now + ttl > INSTANT_MAX then (p, Failed(TtlTooLarge))
      else if Alive(p, key, now) then (p, Flag(false))
      else (p[key := Item(value, now + ttl)], Flag(true))
    case Peek(key, now) => (p, Got(if Alive(p, key, now) then Some(p[key].value) else None))
    case Take(key, now) => (p - {key}, Got(if Alive(p, key, now) then Some(p[key].value) else None))
    case Del(key) => (p - {key}, Unit)
    case Sweep(_) => (p, Unit)
  }

  function Run(s: State, ops: seq<Op>): (State, seq<Out>)
    decreases |ops|
  {
    if ops == [] then (s, [])
    else
      var (s1, out) := Step(s, ops[0]);
      var (s2, outs) := Run(s1, ops[1..]);
      (s2, [out] + outs)
  }

  function PlainRun(p: map<string, Item>, ops: seq<Op>): (map<string, Item>, seq<Out>)
    decreases |ops|
  {
    if ops == [] then (p, [])
    else
      var (p1, out) := PlainStep(p, ops[0]);
      var (p2, outs) := PlainRun(p1, ops[1..]);
      (p2, [out] + outs)
  }

  /** The two hold the same things at every instant from `t` on. */
  ghost predicate Agree(s: State, p: map<string, Item>, t: nat) {
    forall k ::
      && (Present(s.entries, k, t) <==> Alive(p, k, t))
      && (Present(s.entries, k, t) ==> s.entries[k].value == p[k].value && s.entries[k].expires == p[k].expires)
  }

  predicate Timed(op: Op) {
    !op.Del?
  }

  /** Timestamps do not decrease in the order in which the calls take the lock. */
  ghost predicate Ordered(ops: seq<Op>, t: nat) {
    && (forall i | 0 <= i < |ops| && Timed(ops[i]) :: t <= ops[i].now)
    && (forall i, j | 0 <= i < j < |ops| && Timed(ops[i]) && Timed(ops[j]) :: ops[i].now <= ops[j].now)
  }

  function Clock(op: Op, t: nat): nat {
    if Timed(op) then op.now else t
  }

  lemma StepAgrees(s: State, p: map<string, Item>, op: Op, t: nat)
    requires Agree(s, p, t) && s.next < U64_MAX && t <= Clock(op, t)
    ensures Step(s, op).1 == PlainStep(p, op).1
    ensures Agree(Step(s, op).0, PlainStep(p, op).0, Clock(op, t))
    ensures Step(s, op).0.next <= s.next + 1
  {
    assert Agree(s, p, Clock(op, t)) by {
      forall k ensures Present(s.entries, k, Clock(op, t)) ==> Present(s.entries, k, t) {
      }
      forall k ensures Alive(p, k, Clock(op, t)) ==> Alive(p, k, t) {
      }
    }
  }

  /**
   The store refines the plain map: with timestamps that do not decrease in lock
   order and background sweeps anywhere, every call returns what the plain map returns.
   */
  lemma {:induction false} StoreRefinesPlainMap(s: State, p: map<string, Item>, ops: seq<Op>, t: nat)
    requires Agree(s, p, t) && Ordered(ops, t) && s.next + |ops| <= U64_MAX
    ensures Run(s, ops).1 == PlainRun(p, ops).1
    decreases |ops|
  {
    hide Step, PlainStep, Agree;
    if ops != [] {
      StepAgrees(s, p, ops[0], t);
      StoreRefinesPlainMap(Step(s, ops[0]).0, PlainStep(p, ops[0]).0, ops[1..], Clock(ops[0], t));
    }
  }
}
