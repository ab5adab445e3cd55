/**
 Runs of the store with arbitrary timestamps: where every returned value comes
 from, and exactly when the store still answers like a plain map with expiry.
 */
module StoreHistory {
  import opened Wrappers
  import opened ByteStrings
  import opened Store

  /** The store after the first `n` calls. */
  function StateAt(ops: seq<Op>, n: nat): State
    requires n <= |ops|
  {
    Run(State(map[], 0), ops[..n]).0
  }

  /** The plain map after the first `n` calls. */
  function PlainAt(ops: seq<Op>, n: nat): map<string, Item>
    requires n <= |ops|
  {
    PlainRun(map[], ops[..n]).0
  }

  lemma {:induction false} RunAt(s: State, ops: seq<Op>, n: nat)
    requires n < |ops|
    ensures |Run(s, ops).1| == |ops| && Run(s, ops).1[n] == Step(Run(s, ops[..n]).0, ops[n]).1
    ensures Run(s, ops[..n + 1]).0 == Step(Run(s, ops[..n]).0, ops[n]).0
    decreases n
  {
    hide Step;
    RunLength(s, ops);
    assert ops[..n + 1][1..] == ops[1..][..n];
    if n == 0 {
      assert ops[..0] == [] && ops[1..][..0] == [];
    } else {
      assert ops[..n][1..] == ops[1..][..n - 1];
      RunAt(Step(s, ops[0]).0, ops[1..], n - 1);
    }
  }

  lemma {:induction false} RunLength(s: State, ops: seq<Op>)
    ensures |Run(s, ops).1| == |ops|
    decreases |ops|
  {
    hide Step;
    if ops != [] {
      RunLength(Step(s, ops[0]).0, ops[1..]);
    }
  }

  lemma {:induction false} PlainRunAt(p: map<string, Item>, ops: seq<Op>, n: nat)
    requires n < |ops|
    ensures |PlainRun(p, ops).1| == |ops| && PlainRun(p, ops).1[n] == PlainStep(PlainRun(p, ops[..n]).0, ops[n]).1
    ensures PlainRun(p, ops[..n + 1]).0 == PlainStep(PlainRun(p, ops[..n]).0, ops[n]).0
    decreases n
  {
    hide PlainStep;
    PlainRunLength(p, ops);
    assert ops[..n + 1][1..] == ops[1..][..n];
    if n == 0 {
      assert ops[..0] == [] && ops[1..][..0] == [];
    } else {
      assert ops[..n][1..] == ops[1..][..n - 1];
      PlainRunAt(PlainStep(p, ops[0]).0, ops[1..], n - 1);
    }
  }

  lemma {:induction false} PlainRunLength(p: map<string, Item>, ops: seq<Op>)
    ensures |PlainRun(p, ops).1| == |ops|
    decreases |ops|
  {
    hide PlainStep;
    if ops != [] {
      PlainRunLength(PlainStep(p, ops[0]).0, ops[1..]);
    }
  }

  // ---------------------------------------------------------------------------
  // Where a returned value comes from
  // ---------------------------------------------------------------------------

  /** Call `op`, which returned `out`, stored a value under `key`. */
  predicate Wrote(op: Op, out: Out, key: string) {
    || (op.Set? && op.key == key && op.ttl > 0 && out == Unit)
    || (op.SetIfAbsent? && op.key == key && out == Flag(true))
  }

  predicate Drops(op: Op, key: string) {
    (op.Take? || op.Del?) && op.key == key
  }

  /** Of the first `n` calls, `j` is the last to write `key`, and none after it took or deleted it. */
  predicate LastWrite(ops: seq<Op>, outs: seq<Out>, n: nat, key: string, j: nat)
    requires n <= |ops| == |outs|
  {
    && j < n && Wrote(ops[j], outs[j], key)
    && forall i | j < i < n :: !Wrote(ops[i], outs[i], key) && !Drops(ops[i], key)
  }

  /** An entry comes from the latest call or was there before it. */
  lemma EntryStep(s: State, op: Op, key: string)
    requires key in Step(s, op).0.entries
    ensures if Wrote(op, Step(s, op).1, key)
      then Step(s, op).0.entries[key].value == op.value && Step(s, op).0.entries[key].expires == op.now + op.ttl
      else key in s.entries && s.entries[key] == Step(s, op).0.entries[key] && !Drops(op, key)
  {
  }

  /** Every entry of the store is the value of the last write of its key. */
  lemma {:induction false} EntryWritten(ops: seq<Op>, outs: seq<Out>, n: nat, key: string) returns (j: nat)
    requires n <= |ops| == |outs| && outs == Run(State(map[], 0), ops).1 && key in StateAt(ops, n).entries
    ensures LastWrite(ops, outs, n, key, j)
    ensures StateAt(ops, n).entries[key].value == ops[j].value
    ensures StateAt(ops, n).entries[key].expires == ops[j].now + ops[j].ttl
    decreases n
  {
    hide Step;
    if n == 0 {
      assert false;
    } else {
      RunAt(State(map[], 0), ops, n - 1);
      EntryStep(StateAt(ops, n - 1), ops[n - 1], key);
      if Wrote(ops[n - 1], outs[n - 1], key) {
        j := n - 1;
      } else {
        j := EntryWritten(ops, outs, n - 1, key);
      }
    }
  }

  /**
   Whatever the timestamps: a value that call `i` returns was written under that key
   by an earlier call, has not expired at the instant of call `i`, and was neither
   overwritten nor taken nor deleted in between.
   */
  lemma ReturnedWasWritten(ops: seq<Op>, outs: seq<Out>, i: nat, v: Bytes) returns (j: nat)
    requires i < |ops| == |outs| && outs == Run(State(map[], 0), ops).1 && outs[i] == Got(Some(v))
    ensures (ops[i].Peek? || ops[i].Take?) && LastWrite(ops, outs, i, ops[i].key, j)
    ensures ops[j].value == v && ops[j].now + ops[j].ttl > ops[i].now
  {
    RunAt(State(map[], 0), ops, i);
    j := EntryWritten(ops, outs, i, ops[i].key);
  }

  // ---------------------------------------------------------------------------
  // When the store answers like the plain map
  // ---------------------------------------------------------------------------

  /** A call that sweeps before it does its own work. */
  predicate Sweeps(op: Op) {
    op.Sweep? || ((op.Set? || op.SetIfAbsent?) && op.ttl > 0 && op.now + op.ttl <= INSTANT_MAX)
  }

  /** Call `op` removes an item of `key` that expires at `expires`. */
  predicate Evicts(op: Op, key: string, expires: nat) {
    (Sweeps(op) || (op.Peek? && op.key == key)) && op.now >= expires
  }

  /** A call whose result depends on what is stored under its key. */
  predicate Consults(op: Op) {
    op.Peek? || op.Take? || (op.SetIfAbsent? && Sweeps(op))
  }

  /** The plain map takes a new item for `key`. */
  predicate Writes(p: map<string, Item>, op: Op, key: string) {
    (op.Set? || (op.SetIfAbsent? && !Alive(p, key, op.now))) && op.key == key && Sweeps(op)
  }

  /** An item of `key` that the first `n` calls left behind met its expiry in call `m`. */
  predicate EvictedAt(ops: seq<Op>, m: nat, n: nat, key: string)
    requires m < n <= |ops|
  {
    && key in PlainAt(ops, n) && Evicts(ops[m], key, PlainAt(ops, n)[key].expires)
    && forall j | m < j < n :: !Writes(PlainAt(ops, j), ops[j], key)
  }

  /** Some call found the item of `key` expired. */
  predicate Evicted(ops: seq<Op>, n: nat, key: string)
    requires n <= |ops|
  {
    exists m | 0 <= m < n :: EvictedAt(ops, m, n, key)
  }

  /** Call `i` asks for an item that is alive at its instant although an earlier call found it expired. */
  predicate Stale(ops: seq<Op>, i: nat)
    requires i < |ops|
  {
    Consults(ops[i]) && Alive(PlainAt(ops, i), ops[i].key, ops[i].now) && Evicted(ops, i, ops[i].key)
  }

  /** The keys of the plain map that the store has lost, one call further. */
  function LostStep(p: map<string, Item>, lost: set<string>, op: Op): set<string> {
    var p' := PlainStep(p, op).0;
    set k | k in p' && !Writes(p, op, k) && (k in lost || Evicts(op, k, p'[k].expires))
  }

  function Lost(ops: seq<Op>, n: nat): set<string>
    requires n <= |ops|
  {
    if n == 0 then {} else LostStep(PlainAt(ops, n - 1), Lost(ops, n - 1), ops[n - 1])
  }

  /** The store holds exactly the items of the plain map that are not lost. */
  ghost predicate Mirrors(s: State, p: map<string, Item>, lost: set<string>) {
    && (forall k :: k in s.entries <==> k in p && k !in lost)
    && (forall k | k in s.entries :: Item(s.entries[k].value, s.entries[k].expires) == p[k])
  }

  /** One call answers like the plain map exactly if it does not ask for a lost item that is alive. */
  lemma MirrorAnswers(s: State, p: map<string, Item>, lost: set<string>, op: Op)
    requires Mirrors(s, p, lost) && s.next < U64_MAX
    ensures Step(s, op).1 == PlainStep(p, op).1 <==> !(Consults(op) && op.key in lost && Alive(p, op.key, op.now))
    ensures Step(s, op).0.next <= s.next + 1
  {
  }

  /** As long as the answers agree the store mirrors what is not lost. */
  lemma MirrorKeeps(s: State, p: map<string, Item>, lost: set<string>, op: Op)
    requires Mirrors(s, p, lost) && s.next < U64_MAX && Step(s, op).1 == PlainStep(p, op).1
    ensures Mirrors(Step(s, op).0, PlainStep(p, op).0, LostStep(p, lost, op))
  {
    hide Step, PlainStep, LostStep;
    var s', p', lost' := Step(s, op).0, PlainStep(p, op).0, LostStep(p, lost, op);
    forall k
      ensures k in s'.entries <==> k in p' && k !in lost'
      ensures k in s'.entries ==> Item(s'.entries[k].value, s'.entries[k].expires) == p'[k]
    {
      MirrorKey(s, p, lost, op, k);
    }
  }

  lemma MirrorKey(s: State, p: map<string, Item>, lost: set<string>, op: Op, k: string)
    requires Mirrors(s, p, lost) && s.next < U64_MAX && Step(s, op).1 == PlainStep(p, op).1
    ensures k in Step(s, op).0.entries <==> k in PlainStep(p, op).0 && k !in LostStep(p, lost, op)
    ensures k in Step(s, op).0.entries ==>
      Item(Step(s, op).0.entries[k].value, Step(s, op).0.entries[k].expires) == PlainStep(p, op).0[k]
  {
    assert k in s.entries <==> k in p && k !in lost;
  }

  /** Keeping an item is the same as neither writing nor dropping it. */
  lemma PlainKeeps(p: map<string, Item>, op: Op, key: string)
    requires key in PlainStep(p, op).0
    ensures if Writes(p, op, key) then PlainStep(p, op).0[key].expires > op.now
            else key in p && PlainStep(p, op).0[key] == p[key]
  {
  }

  /** One call more: a new item is not evicted, an old one if it was or if it expires now. */
  lemma EvictedNext(ops: seq<Op>, n: nat, key: string)
    requires n < |ops| && key in PlainAt(ops, n + 1)
    requires PlainAt(ops, n + 1) == PlainStep(PlainAt(ops, n), ops[n]).0
    ensures Evicted(ops, n + 1, key) <==>
      && !Writes(PlainAt(ops, n), ops[n], key)
      && (Evicted(ops, n, key) || Evicts(ops[n], key, PlainAt(ops, n + 1)[key].expires))
  {
    hide PlainStep, PlainAt;
    PlainKeeps(PlainAt(ops, n), ops[n], key);
    if Evicted(ops, n + 1, key) {
      var m :| 0 <= m < n + 1 && EvictedAt(ops, m, n + 1, key);
      if m < n {
        assert EvictedAt(ops, m, n, key);
      }
    }
    if !Writes(PlainAt(ops, n), ops[n], key) && Evicted(ops, n, key) {
      var m :| 0 <= m < n && EvictedAt(ops, m, n, key);
      assert EvictedAt(ops, m, n + 1, key);
    }
    if !Writes(PlainAt(ops, n), ops[n], key) && Evicts(ops[n], key, PlainAt(ops, n + 1)[key].expires) {
      assert EvictedAt(ops, n, n + 1, key);
    }
  }

  /** A key is lost exactly if some earlier call found its present item expired. */
  lemma {:induction false} LostExactly(ops: seq<Op>, n: nat, key: string)
    requires n <= |ops|
    ensures key in Lost(ops, n) <==> Evicted(ops, n, key)
    decreases n
  {
    hide PlainStep, Evicts, Writes, PlainAt;
    if n > 0 {
      PlainAtNext(ops, n - 1);
      LostExactly(ops, n - 1, key);
      if key in PlainAt(ops, n) {
        EvictedNext(ops, n - 1, key);
      }
    }
  }

  lemma PlainAtNext(ops: seq<Op>, n: nat)
    requires n < |ops|
    ensures PlainAt(ops, n + 1) == PlainStep(PlainAt(ops, n), ops[n]).0
  {
    hide PlainStep;
    PlainRunAt(map[], ops, n);
  }

  /** The first `n` calls answer like the plain map. */
  predicate SameSoFar(ops: seq<Op>, n: nat)
    requires n <= |ops|
  {
    forall i | 0 <= i < n :: Step(StateAt(ops, i), ops[i]).1 == PlainStep(PlainAt(ops, i), ops[i]).1
  }

  predicate NeverStale(ops: seq<Op>, n: nat)
    requires n <= |ops|
  {
    forall i | 0 <= i < n :: !Stale(ops, i)
  }

  lemma {:induction false} SameExactly(ops: seq<Op>, n: nat)
    requires n <= |ops| <= U64_MAX
    ensures SameSoFar(ops, n) <==> NeverStale(ops, n)
    ensures SameSoFar(ops, n) ==> Mirrors(StateAt(ops, n), PlainAt(ops, n), Lost(ops, n)) && StateAt(ops, n).next <= n
    decreases n
  {
    hide Step, PlainStep, Mirrors, LostStep, Evicted;
    if n == 0 {
      assert ops[..0] == [];
      assert Mirrors(State(map[], 0), map[], {}) by {
        EmptyMirrors();
      }
    } else {
      SameExactly(ops, n - 1);
      var same := Step(StateAt(ops, n - 1), ops[n - 1]).1 == PlainStep(PlainAt(ops, n - 1), ops[n - 1]).1;
      assert SameSoFar(ops, n) <==> SameSoFar(ops, n - 1) && same;
      assert NeverStale(ops, n) <==> NeverStale(ops, n - 1) && !Stale(ops, n - 1);
      if SameSoFar(ops, n - 1) {
        RunAt(State(map[], 0), ops, n - 1);
        PlainRunAt(map[], ops, n - 1);
        MirrorAnswers(StateAt(ops, n - 1), PlainAt(ops, n - 1), Lost(ops, n - 1), ops[n - 1]);
        if same {
          MirrorKeeps(StateAt(ops, n - 1), PlainAt(ops, n - 1), Lost(ops, n - 1), ops[n - 1]);
        }
        if Consults(ops[n - 1]) {
          LostExactly(ops, n - 1, ops[n - 1].key);
        }
        assert same <==> !Stale(ops, n - 1);
      }
    }
  }

  lemma EmptyMirrors()
    ensures Mirrors(State(map[], 0), map[], {})
  {
  }

  /**
   With arbitrary timestamps a fresh store answers every call like the plain map
   exactly if no call asks for an item that is alive at its instant although an
   earlier sweep or peek, at or after the item's expiry, has removed it.
   */
  lemma AgreesExactly(ops: seq<Op>)
    requires |ops| <= U64_MAX
    ensures Run(State(map[], 0), ops).1 == PlainRun(map[], ops).1 <==> NeverStale(ops, |ops|)
  {
    hide Step, PlainStep, NeverStale, Run, PlainRun;
    SameExactly(ops, |ops|);
    var outs, plain := Run(State(map[], 0), ops).1, PlainRun(map[], ops).1;
    RunLength(State(map[], 0), ops);
    PlainRunLength(map[], ops);
    forall i | 0 <= i < |ops|
      ensures outs[i] == plain[i] <==> Step(StateAt(ops, i), ops[i]).1 == PlainStep(PlainAt(ops, i), ops[i]).1
    {
      RunAt(State(map[], 0), ops, i);
      PlainRunAt(map[], ops, i);
    }
  }

  /** Timestamps that do not decrease are one way to be safe. */
  lemma OrderedIsNeverStale(ops: seq<Op>, i: nat)
    requires Ordered(ops, 0) && i < |ops|
    ensures !Stale(ops, i)
  {
  }

  /**
   So from an empty store every call returns what the plain map returns, if
   timestamps do not decrease in lock order.
   */
  lemma FreshStoreRefinesPlainMap(ops: seq<Op>)
    requires Ordered(ops, 0) && |ops| <= U64_MAX
    ensures Run(State(map[], 0), ops).1 == PlainRun(map[], ops).1
  {
    hide Ordered, Stale, Run, PlainRun;
    forall i | 0 <= i < |ops| ensures !Stale(ops, i) {
      OrderedIsNeverStale(ops, i);
    }
    AgreesExactly(ops);
  }

  /** Two runs on which the store and the plain map differ: a stale read after a sweep, and after a peek. */
  lemma StaleReadDiffers()
    ensures var ops := [Set("k", [7], 5, 0), Sweep(10), Peek("k", 3)];
      Run(State(map[], 0), ops).1 == [Unit, Unit, Got(None)] && PlainRun(map[], ops).1 == [Unit, Unit, Got(Some([7]))]
    ensures var ops := [Set("k", [7], 5, 0), Peek("k", 10), Peek("k", 3)];
      Run(State(map[], 0), ops).1 == [Unit, Got(None), Got(None)]
          && PlainRun(map[], ops).1 == [Unit, Got(None), Got(Some([7]))]
  {
    DiffersAfter(Sweep(10), Unit);
    DiffersAfter(Peek("k", 10), Got(None));
  }

  lemma DiffersAfter(op: Op, out: Out)
    requires (op == Sweep(10) && out == Unit) || (op == Peek("k", 10) && out == Got(None))
    ensures var ops := [Set("k", [7], 5, 0), op, Peek("k", 3)];
      Run(State(map[], 0), ops).1 == [Unit, out, Got(None)] && PlainRun(map[], ops).1 == [Unit, out, Got(Some([7]))]
  {
    var s1 := Step(State(map[], 0), Set("k", [7], 5, 0)).0;
    assert s1 == State(map["k" := Entry([7], 5, 0)], 1);
    var s2 := Step(s1, op).0;
    assert s2 == State(map[], 1);
    var ops := [Set("k", [7], 5, 0), op, Peek("k", 3)];
    assert ops[1..] == [op, Peek("k", 3)] && ops[1..][1..] == [Peek("k", 3)] && ops[1..][1..][1..] == [];
    assert Run(s2, [Peek("k", 3)]).1 == [Got(None)];
    assert Run(s1, ops[1..]).1 == [out, Got(None)];
    var p1: map<string, Item> := map["k" := Item([7], 5)];
    assert PlainRun(p1, [Peek("k", 3)]).1 == [Got(Some([7]))];
    assert PlainRun(p1, ops[1..]).1 == [out, Got(Some([7]))];
  }
}
