/** The secret arena: a bump pointer with exact-size free lists over one zeroed region. */
module Arena {
  import opened Wrappers
  import opened ByteStrings

  const ALIGN := 16

  /** `round_up`: the least multiple of `to` that is at least `v`, if it fits a usize. */
  function RoundUp(v: nat, to: nat): (r: Option<nat>)
    requires to > 0
    ensures r.Some? ==> v <= r.value < v + to && r.value <= U64_MAX && exists q: nat :: r.value == q * to
    ensures r.None? ==> forall q: nat | v <= q * to :: q * to > U64_MAX
  {
    var q := (v + to - 1) / to;
    RoundUpBounds(v, to);
    if q * to <= U64_MAX then Some(q * to) else None
  }

  lemma RoundUpBounds(v: nat, to: nat)
    requires to > 0
    ensures v <= (v + to - 1) / to * to < v + to
    ensures forall k: nat | v <= k * to :: (v + to - 1) / to * to <= k * to
  {
    var n, q := v + to - 1, (v + to - 1) / to;
    assert n == q * to + n % to;
    forall k: nat | v <= k * to ensures q * to <= k * to {
      if k < q {
        MulLe(k + 1, q, to);
      } else {
        MulLe(q, k, to);
      }
    }
  }

  lemma MulLe(a: nat, b: nat, c: nat)
    requires a <= b
    ensures a * c <= b * c
  {
    assert b * c == a * c + (b - a) * c;
  }

  // ---------------------------------------------------------------------------
  // Slots, free lists and contents
  // ---------------------------------------------------------------------------

  /** Some slot contains the address `b`. */
  ghost predicate Covered(lens: map<nat, nat>, b: nat) {
    exists o | o in lens :: o <= b < o + lens[o]
  }

  /** The slots (offset to length) are aligned, disjoint, and tile [0, offset) exactly. */
  ghost predicate Tiles(lens: map<nat, nat>, offset: nat) {
    && (forall o | o in lens :: o % ALIGN == 0 && lens[o] % ALIGN == 0 && lens[o] > 0 && o + lens[o] <= offset)
    && (forall o, u | o in lens && u in lens && o < u :: o + lens[o] <= u)
    && (forall b: nat | b < offset :: Covered(lens, b))
    && offset % ALIGN == 0
  }

  /** Where the slot after the `i`-th begins. */
  function NextStart(order: seq<nat>, i: nat, offset: nat): nat {
    if i + 1 < |order| then order[i + 1] else offset
  }

  /** `order` lists the slots by address without gaps. */
  ghost predicate Chain(order: seq<nat>, lens: map<nat, nat>, offset: nat) {
    && |order| == |lens|
    && (forall i | 0 <= i < |order| :: order[i] in lens)
    && (forall i | 0 <= i < |order| :: order[i] + lens[order[i]] == NextStart(order, i, offset))
    && (if |order| == 0 then offset == 0 else order[0] == 0)
  }

  ghost predicate Distinct(s: seq<nat>) {
    forall i, j | 0 <= i < j < |s| :: s[i] != s[j]
  }

  /** The free lists hold every slot without a live handle, once, under its length. */
  ghost predicate FreeOk(free: map<nat, seq<nat>>, lens: map<nat, nat>, handles: map<nat, nat>) {
    && (forall k | k in free :: Distinct(free[k]))
    && (forall k, i | k in free && 0 <= i < |free[k]| ::
          free[k][i] in lens && lens[free[k][i]] == k && free[k][i] !in handles)
    && (forall o | o in lens && o !in handles :: lens[o] in free && o in free[lens[o]])
  }

  /** A live handle is a slot and asks for no more than its length. */
  ghost predicate HandlesOk(handles: map<nat, nat>, lens: map<nat, nat>) {
    forall o | o in handles :: o in lens && handles[o] <= lens[o]
  }

  /** The address `b` can be seen through a live handle. */
  ghost predicate Visible(handles: map<nat, nat>, b: nat) {
    exists o | o in handles :: o <= b < o + handles[o]
  }

  /** Every byte that no live handle shows is zero. */
  ghost predicate Clean(m: Bytes, handles: map<nat, nat>) {
    forall b | 0 <= b < |m| && m[b] != 0 :: Visible(handles, b)
  }

  predicate HasFree(free: map<nat, seq<nat>>, k: nat) {
    k in free && free[k] != []
  }

  lemma BumpTiles(lens: map<nat, nat>, offset: nat, len: nat)
    requires Tiles(lens, offset) && len > 0 && len % ALIGN == 0
    ensures offset !in lens && Tiles(lens[offset := len], offset + len)
  {
    var lens' := lens[offset := len];
    forall b: nat | b < offset + len ensures Covered(lens', b) {
      if b < offset {
        assert Covered(lens, b);
        var o :| o in lens && o <= b < o + lens[o];
        assert o in lens' && lens'[o] == lens[o];
      } else {
        assert offset in lens';
      }
    }
  }

  lemma BumpChain(lens: map<nat, nat>, offset: nat, len: nat, order: seq<nat>)
    requires Chain(order, lens, offset) && offset !in lens
    ensures Chain(order + [offset], lens[offset := len], offset + len)
  {
    var lens', order' := lens[offset := len], order + [offset];
    assert lens'.Keys == lens.Keys + {offset};
    forall i | 0 <= i < |order'|
      ensures order'[i] in lens' && order'[i] + lens'[order'[i]] == NextStart(order', i, offset + len)
    {
      if i < |order| {
        assert order'[i] == order[i] && order[i] in lens && lens'[order[i]] == lens[order[i]];
        if i + 1 < |order| {
          assert order'[i + 1] == order[i + 1];
        } else {
          assert order'[i + 1] == offset;
        }
      } else {
        assert order'[i] == offset && lens'[offset] == len;
      }
    }
  }

  /** Taking the last free slot of a class, or a new slot, for a handle. */
  lemma TakeFree(free: map<nat, seq<nat>>, lens: map<nat, nat>, handles: map<nat, nat>, k: nat, len: nat)
    requires FreeOk(free, lens, handles) && HandlesOk(handles, lens) && HasFree(free, k) && len <= k
    ensures var off := free[k][|free[k]| - 1];
      && off in lens && lens[off] == k && off !in handles
      && FreeOk(free[k := free[k][..|free[k]| - 1]], lens, handles[off := len]) && HandlesOk(handles[off := len], lens)
  {
    var s := free[k];
    var off := s[|s| - 1];
    var free', handles' := free[k := s[..|s| - 1]], handles[off := len];
    forall j, i | j in free' && 0 <= i < |free'[j]|
      ensures free'[j][i] in lens && lens[free'[j][i]] == j && free'[j][i] !in handles'
    {
      assert j in free && free'[j][i] == free[j][i];
    }
    forall o | o in lens && o !in handles' ensures lens[o] in free' && o in free'[lens[o]] {
      assert o in free[lens[o]];
      if lens[o] == k {
        var i :| 0 <= i < |s| && s[i] == o;
        assert i != |s| - 1;
        assert s[..|s| - 1][i] == o;
      }
    }
  }

  /** Returning a slot to its class. */
  lemma PutFree(free: map<nat, seq<nat>>, lens: map<nat, nat>, handles: map<nat, nat>, off: nat)
    requires FreeOk(free, lens, handles) && HandlesOk(handles, lens) && off in handles
    ensures var k := lens[off];
      var s := if k in free then free[k] else [];
      FreeOk(free[k := s + [off]], lens, handles - {off}) && HandlesOk(handles - {off}, lens)
  {
    var k := lens[off];
    var s := if k in free then free[k] else [];
    var free', handles' := free[k := s + [off]], handles - {off};
    assert Distinct(s);
    forall i | 0 <= i < |s| ensures s[i] != off {
      assert s[i] == free[k][i];
    }
    forall j, i | j in free' && 0 <= i < |free'[j]|
      ensures free'[j][i] in lens && lens[free'[j][i]] == j && free'[j][i] !in handles'
    {
      if j != k || i < |s| {
        assert j in free && free'[j][i] == free[j][i];
      }
    }
    forall o | o in lens && o !in handles' ensures lens[o] in free' && o in free'[lens[o]] {
      if o == off {
        assert (s + [off])[|s|] == off;
      } else if lens[o] == k {
        assert o in s;
        assert o in s + [off];
      }
    }
  }

  lemma ChainLink(order: seq<nat>, lens: map<nat, nat>, offset: nat, i: nat)
    requires Chain(order, lens, offset) && i < |order|
    ensures order[i] in lens && order[i] + lens[order[i]] == NextStart(order, i, offset)
    ensures |order| == |lens| && (i == 0 ==> order[i] == 0)
  {
    hide NextStart;
  }

  /** With a single class `c` in use, the `i`-th slot begins at `i * c`. */
  lemma {:induction false} ChainOfOneClass(order: seq<nat>, lens: map<nat, nat>, offset: nat, c: nat, i: nat)
    requires Chain(order, lens, offset) && (forall o | o in lens :: lens[o] == c) && i < |order|
    ensures order[i] == i * c
  {
    hide Chain;
    ChainLink(order, lens, offset, i);
    if i > 0 {
      ChainLink(order, lens, offset, i - 1);
      ChainOfOneClass(order, lens, offset, c, i - 1);
      assert i * c == (i - 1) * c + c;
    }
  }

  lemma ChainCount(order: seq<nat>, lens: map<nat, nat>, offset: nat)
    requires Chain(order, lens, offset)
    ensures |order| == |lens| && (|order| == 0 ==> offset == 0)
  {
    hide NextStart;
  }

  /** With a single class `c` in use, the slots fill `|lens| * c` bytes. */
  lemma ChainLength(order: seq<nat>, lens: map<nat, nat>, offset: nat, c: nat)
    requires Chain(order, lens, offset) && (forall o | o in lens :: lens[o] == c)
    ensures offset == |lens| * c
  {
    hide Chain;
    ChainCount(order, lens, offset);
    if |order| > 0 {
      var last := |order| - 1;
      ChainLink(order, lens, offset, last);
      ChainOfOneClass(order, lens, offset, c, last);
      assert (last + 1) * c == last * c + c;
    }
  }

  // ---------------------------------------------------------------------------
  // The arena as a map from handles to bytes
  // ---------------------------------------------------------------------------

  /** Every handle lies inside the region. */
  ghost predicate Inside(m: Bytes, handles: map<nat, nat>) {
    forall o | o in handles :: o + handles[o] <= |m|
  }

  /** What the live handles show. */
  ghost function View(m: Bytes, handles: map<nat, nat>): map<nat, Bytes>
    requires Inside(m, handles)
  {
    map o | o in handles :: m[o..o + handles[o]]
  }

  /** Slots in order, handles within them, and nothing left behind in memory. */
  ghost predicate MemOk(m: Bytes, offset: nat, lens: map<nat, nat>, handles: map<nat, nat>) {
    offset <= |m| && Tiles(lens, offset) && HandlesOk(handles, lens) && Clean(m, handles)
  }

  lemma HandlesInside(m: Bytes, offset: nat, lens: map<nat, nat>, handles: map<nat, nat>)
    requires MemOk(m, offset, lens, handles)
    ensures Inside(m, handles)
  {
    forall o | o in handles ensures o + handles[o] <= |m| {
      assert o in lens;
    }
  }

  lemma Apart(m: Bytes, offset: nat, lens: map<nat, nat>, handles: map<nat, nat>, o: nat, off: nat)
    requires MemOk(m, offset, lens, handles) && o in handles && off in lens && o != off
    ensures o + handles[o] <= off || off + lens[off] <= o
  {
    assert o in lens && (o < off || off < o);
  }

  lemma SlotIsZero(m: Bytes, offset: nat, lens: map<nat, nat>, handles: map<nat, nat>, off: nat)
    requires MemOk(m, offset, lens, handles) && off in lens && off !in handles
    ensures off + lens[off] <= |m| && m[off..off + lens[off]] == Zeros(lens[off])
  {
    assert off + lens[off] <= |m|;
    forall b | off <= b < off + lens[off] ensures m[b] == 0 {
      if m[b] != 0 {
        assert Visible(handles, b);
        var o :| o in handles && o <= b < o + handles[o];
        Apart(m, offset, lens, handles, o, off);
        assert false;
      }
    }
  }

  /** A new handle on a free slot starts as zeros and leaves what the others show. */
  lemma ClaimView(m: Bytes, offset: nat, lens: map<nat, nat>, handles: map<nat, nat>, off: nat, len: nat)
    requires MemOk(m, offset, lens, handles) && off in lens && off !in handles && len <= lens[off]
    ensures var handles' := handles[off := len];
      MemOk(m, offset, lens, handles') && Inside(m, handles) && Inside(m, handles')
      && View(m, handles') == View(m, handles)[off := Zeros(len)]
  {
    hide Tiles;
    var handles' := handles[off := len];
    forall b | 0 <= b < |m| && m[b] != 0 ensures Visible(handles', b) {
      assert Visible(handles, b);
      var o :| o in handles && o <= b < o + handles[o];
      assert o in handles' && handles'[o] == handles[o];
    }
    HandlesInside(m, offset, lens, handles);
    HandlesInside(m, offset, lens, handles');
    SlotIsZero(m, offset, lens, handles, off);
    assert m[off..off + len] == m[off..off + lens[off]][..len] == Zeros(len);
  }

  lemma OthersUnchanged(m: Bytes, m': Bytes, offset: nat, lens: map<nat, nat>, handles: map<nat, nat>, off: nat, o: nat)
    requires MemOk(m, offset, lens, handles) && |m'| == |m| && off in lens && o in handles && o != off
    requires forall b | 0 <= b < |m| && !(off <= b < off + lens[off]) :: m'[b] == m[b]
    ensures o + handles[o] <= |m| && m'[o..o + handles[o]] == m[o..o + handles[o]]
  {
    hide Tiles, Clean;
    HandlesInside(m, offset, lens, handles);
    Apart(m, offset, lens, handles, o, off);
  }

  /** Writing through one handle changes what that handle shows and nothing else. */
  lemma WriteView(m: Bytes, m': Bytes, offset: nat, lens: map<nat, nat>, handles: map<nat, nat>, off: nat)
    requires MemOk(m, offset, lens, handles) && |m'| == |m| && off in handles
    requires forall b | 0 <= b < |m| && !(off <= b < off + handles[off]) :: m'[b] == m[b]
    ensures MemOk(m', offset, lens, handles) && Inside(m, handles) && Inside(m', handles)
    ensures View(m', handles) == View(m, handles)[off := m'[off..off + handles[off]]]
  {
    hide Tiles;
    forall b | 0 <= b < |m| && m'[b] != 0 ensures Visible(handles, b) {
      if !(off <= b < off + handles[off]) {
        assert m[b] != 0;
      }
    }
    HandlesInside(m, offset, lens, handles);
    forall o | o in handles && o != off ensures m'[o..o + handles[o]] == m[o..o + handles[o]] {
      OthersUnchanged(m, m', offset, lens, handles, off, o);
    }
  }

  /** A freed slot is wiped; the other handles keep showing what they showed. */
  lemma FreeView(m: Bytes, m': Bytes, offset: nat, lens: map<nat, nat>, handles: map<nat, nat>, off: nat)
    requires MemOk(m, offset, lens, handles) && |m'| == |m| && off in handles && off in lens
    requires forall b | 0 <= b < |m| :: m'[b] == if off <= b < off + lens[off] then 0 else m[b]
    ensures MemOk(m', offset, lens, handles - {off}) && Inside(m, handles) && Inside(m', handles - {off})
    ensures View(m', handles - {off}) == View(m, handles) - {off}
  {
    hide Tiles;
    forall b | 0 <= b < |m| && m'[b] != 0 ensures Visible(handles - {off}, b) {
      assert Visible(handles, b);
      var o :| o in handles && o <= b < o + handles[o];
      assert o in handles - {off};
    }
    HandlesInside(m, offset, lens, handles);
    forall o | o in handles && o != off ensures m'[o..o + handles[o]] == m[o..o + handles[o]] {
      OthersUnchanged(m, m', offset, lens, handles, off, o);
    }
  }

  // ---------------------------------------------------------------------------
  // The allocator
  // ---------------------------------------------------------------------------

  datatype Error = SizeOverflow | Exhausted | LockPoisoned | InvalidLen(want: nat, got: nat)

  /** What `claim` hands out: `len` bytes at `off`, in a slot of `alignedLen`. */
  datatype Region = Region(off: nat, len: nat, alignedLen: nat)

  /** The size class of a request. */
  function Class(len: nat): Option<nat> {
    RoundUp(if len == 0 then 1 else len, ALIGN)
  }

  lemma ClassAligned(len: nat)
    requires Class(len).Some?
    ensures Class(len).value % ALIGN == 0 && Class(len).value > 0 && len <= Class(len).value
  {
    var q: nat :| Class(len).value == q * ALIGN;
  }

  class ArenaInner {
    const mem: array<byte>
    var offset: nat
    var free: map<nat, seq<nat>>
    /** The mutex around the arena has been poisoned by a panicking thread. */
    var lockPoisoned: bool

    /** Every slot ever handed out, and the length of each. */
    ghost var lens: map<nat, nat>
    /** The same slots by address. */
    ghost var order: seq<nat>
    /** The live handles and the length each asked for. */
    ghost var handles: map<nat, nat>

    ghost predicate Valid()
      reads this, mem
    {
      mem.Length <= U64_MAX && MemOk(mem[..], offset, lens, handles) && FreeOk(free, lens, handles)
          && Chain(order, lens, offset)
    }

    /** What the live handles show. */
    ghost function Shown(): map<nat, Bytes>
      reads this, mem
      requires Valid()
    {
      HandlesInside(mem[..], offset, lens, handles);
      View(mem[..], handles)
    }

    constructor (size: nat)
      requires size <= U64_MAX
      ensures Valid() && fresh(mem) && mem.Length == size && handles == map[] && lens == map[] && !lockPoisoned
    {
      mem := new byte[size](_ => 0);
      offset, free, lockPoisoned := 0, map[], false;
      lens, order, handles := map[], [], map[];
    }

    /**
     `alloc`: the slot is disjoint from every live one and all zero.  It fails only
     when no slot of the class is free and a new one does not fit.
     */
    method Alloc(len: nat) returns (r: Result<(nat, nat), Error>)
      requires Valid()
      modifies this`offset, this`free, this`lens, this`order, this`handles
      ensures Valid()
      ensures r.Err? <==>
        || Class(len).None?
        || (!HasFree(old(free), Class(len).value) && old(offset) + Class(len).value > mem.Length)
      ensures r.Err? ==> unchanged(this)
      ensures r.Err? ==> (r == Err(SizeOverflow) || r == Err(Exhausted))
      ensures r == Err(SizeOverflow) <==>
        || Class(len).None?
        || (!HasFree(old(free), Class(len).value) && old(offset) + Class(len).value > 0xFFFF_FFFF_FFFF_FFFF)
      ensures r.Ok? ==> Class(len) == Some(r.value.1) && r.value.0 !in old(handles) && r.value.0 % 16 == 0
      ensures r.Ok? ==> r.value.1 % 16 == 0 && (if len == 0 then r.value.1 == 16 else len <= r.value.1 < len + 16)
      ensures r.Ok? ==> handles == old(handles)[r.value.0 := len] && r.value.0 in lens && lens[r.value.0] == r.value.1
      ensures r.Ok? ==> Shown() == old(Shown())[r.value.0 := Zeros(len)]
      ensures r.Ok? ==> r.value.0 + r.value.1 <= mem.Length && mem[r.value.0..r.value.0 + r.value.1] == Zeros(r.value.1)
      ensures r.Ok? && HasFree(old(free), r.value.1) ==> offset == old(offset) && lens == old(lens)
    {
      hide Clean, FreeOk, Chain, Tiles, HandlesOk, Inside, View;
      if Class(len).None? {
        return Err(SizeOverflow);
      }
      var k := Class(len).value;
      ClassAligned(len);
      if HasFree(free, k) {
        var s := free[k];
        var off := s[|s| - 1];
        TakeFree(free, lens, handles, k, len);
        SlotIsZero(mem[..], offset, lens, handles, off);
        SlotAligned(lens, offset, off);
        ClaimView(mem[..], offset, lens, handles, off, len);
        free := free[k := s[..|s| - 1]];
        handles := handles[off := len];
        return Ok((off, k));
      }
      if offset + k > U64_MAX {
        return Err(SizeOverflow);
      }
      if offset + k > mem.Length {
        return Err(Exhausted);
      }
      var off := offset;
      BumpTiles(lens, offset, k);
      BumpChain(lens, offset, k, order);
      NewSlotIsFree(free, lens, handles, off, k, len);
      SlotIsZero(mem[..], offset + k, lens[off := k], handles, off);
      SlotAligned(lens[off := k], offset + k, off);
      ClaimView(mem[..], offset + k, lens[off := k], handles, off, len);
      lens, order, handles := lens[off := k], order + [off], handles[off := len];
      offset := offset + k;
      return Ok((off, k));
    }

    /** `dealloc`, as a dropped region calls it, whether or not the lock is poisoned. */
    method Dealloc(off: nat, alignedLen: nat)
      requires Valid() && off in handles && off in lens && lens[off] == alignedLen
      modifies this`free, this`handles, mem
      ensures Valid() && handles == old(handles) - {off} && HasFree(free, alignedLen)
      ensures Shown() == old(Shown()) - {off}
    {
      hide Clean, FreeOk, Chain, Tiles, HandlesOk, Inside, View;
      ghost var before := mem[..];
      SlotAligned(lens, offset, off);
      var i := 0;
      while i < alignedLen
        invariant 0 <= i <= alignedLen && off + alignedLen <= mem.Length
        invariant forall b | 0 <= b < mem.Length :: mem[b] == if off <= b < off + i then 0 else before[b]
        invariant unchanged(this)
      {
        mem[off + i] := 0;
        i := i + 1;
      }
      FreeView(before, mem[..], offset, lens, handles, off);
      PutFree(free, lens, handles, off);
      free := free[alignedLen := (if alignedLen in free then free[alignedLen] else []) + [off]];
      handles := handles - {off};
    }

    /** `claim`: refused on a poisoned lock, otherwise a zeroed region of `len` bytes. */
    method Claim(len: nat) returns (r: Result<Region, Error>)
      requires Valid()
      modifies this`offset, this`free, this`lens, this`order, this`handles
      ensures Valid() && (lockPoisoned ==> r == Err(LockPoisoned)) && (r.Err? ==> unchanged(this))
      ensures r.Err? <==>
        || lockPoisoned
        || Class(len).None?
        || (!HasFree(old(free), Class(len).value) && old(offset) + Class(len).value > mem.Length)
      ensures r.Err? && !lockPoisoned ==> (r == Err(SizeOverflow) || r == Err(Exhausted))
      ensures r == Err(SizeOverflow) <==>
        && !lockPoisoned
        && (|| Class(len).None?
            || (!HasFree(old(free), Class(len).value) && old(offset) + Class(len).value > 0xFFFF_FFFF_FFFF_FFFF))
      ensures r.Ok? ==> r.value.len == len && r.value.off !in old(handles)
      ensures r.Ok? ==> handles == old(handles)[r.value.off := len]
      ensures r.Ok? ==> r.value.off in lens && lens[r.value.off] == r.value.alignedLen
      ensures r.Ok? ==> Shown() == old(Shown())[r.value.off := Zeros(len)]
    {
      if lockPoisoned {
        return Err(LockPoisoned);
      }
      var slot := Alloc(len);
      if slot.Err? {
        return Err(slot.error);
      }
      return Ok(Region(slot.value.0, len, slot.value.1));
    }

    /** `as_mut_slice().copy_from_slice(data)` on a live region. */
    method Write(region: Region, data: Bytes)
      requires Valid() && region.off in handles && handles[region.off] == region.len == |data|
      modifies mem
      ensures Valid() && Shown() == old(Shown())[region.off := data]
    {
      hide Clean, FreeOk, Chain, Tiles, HandlesOk, View;
      ghost var before := mem[..];
      var off := region.off;
      HandlesInside(before, offset, lens, handles);
      var i := 0;
      while i < |data|
        invariant 0 <= i <= |data|
        invariant forall b | 0 <= b < mem.Length :: mem[b] == if off <= b < off + i then data[b - off] else before[b]
      {
        mem[off + i] := data[i];
        i := i + 1;
      }
      WriteView(before, mem[..], offset, lens, handles, off);
      assert mem[..][off..off + |data|] == data;
    }

    /** `store_slice_fixed` and, for a source of the right length, `store_fixed`: a region holding the secret. */
    method StoreSliceFixed(n: nat, secret: Bytes) returns (r: Result<Region, Error>)
      requires Valid()
      modifies this`offset, this`free, this`lens, this`order, this`handles, mem
      ensures Valid() && (|secret| != n ==> r == Err(InvalidLen(n, |secret|)))
      ensures (r.Err? ==> unchanged(this) && unchanged(mem))
      ensures r.Err? <==>
        || |secret| != n
        || lockPoisoned
        || Class(n).None?
        || (!HasFree(old(free), Class(n).value) && old(offset) + Class(n).value > mem.Length)
      ensures r.Ok? ==> r.value.len == n && handles == old(handles)[r.value.off := n]
      ensures r.Ok? ==> r.value.off in lens && lens[r.value.off] == r.value.alignedLen
      ensures r.Ok? ==> r.value.off !in old(handles) && Shown() == old(Shown())[r.value.off := secret]
    {
      hide MemOk, FreeOk, Chain, View, Inside, Zeros, HasFree, Class;
      if |secret| != n {
        return Err(InvalidLen(n, |secret|));
      }
      r := Claim(n);
      if r.Ok? {
        Write(r.value, secret);
      }
    }

    /**
     If only one size class is ever used, allocation fails only when all the slots
     that fit into the region are live.
     */
    lemma SingleClassExhausted(c: nat)
      requires Valid() && c > 0 && (forall o | o in lens :: lens[o] == c)
      requires !HasFree(free, c) && offset + c > mem.Length
      ensures |handles| == mem.Length / c
    {
      hide Clean, Tiles;
      assert handles.Keys == lens.Keys by {
        forall o | o in lens ensures o in handles {
          if o !in handles {
            assert false;
          }
        }
      }
      var n := |lens|;
      assert |handles.Keys| == |lens.Keys|;
      ChainLength(order, lens, offset, c);
      assert n * c <= mem.Length < n * c + c;
      QuotientIs(mem.Length, c, n);
    }
  }

  lemma QuotientIs(m: nat, c: nat, n: nat)
    requires c > 0 && n * c <= m < n * c + c
    ensures m / c == n
  {
    var q := m / c;
    assert m == q * c + m % c;
    if q < n {
      MulLe(q + 1, n, c);
    } else if n < q {
      MulLe(n + 1, q, c);
    }
  }

  lemma SlotAligned(lens: map<nat, nat>, offset: nat, off: nat)
    requires Tiles(lens, offset) && off in lens
    ensures off % ALIGN == 0 && off + lens[off] <= offset
  {
  }

  lemma NewSlotIsFree(free: map<nat, seq<nat>>, lens: map<nat, nat>, handles: map<nat, nat>, off: nat, k: nat, len: nat)
    requires FreeOk(free, lens, handles) && HandlesOk(handles, lens) && off !in lens
    ensures off !in handles
    ensures HandlesOk(handles, lens[off := k]) && FreeOk(free, lens[off := k], handles[off := len])
  {
    var lens', handles' := lens[off := k], handles[off := len];
    forall o | o in lens' && o !in handles' ensures lens'[o] in free && o in free[lens'[o]] {
      assert o in lens && o !in handles;
    }
  }
}
