/**
 Trapping do_fork: `init_do_fork` moves the first LENGTH bytes of the function to a trampoline,
 jumps back from there, and overwrites the function's first bytes with a jump to the wrapper;
 `cleanup_do_fork` copies the bytes back.  Memory is bytes; a displacement is stored through a
 `long *`, which is eight bytes on x86_64 although the instruction reads four.
 */
module Patch {

  type Byte = x: int | 0 <= x < 256

  const LONG: nat := 8
  const JMP: Byte := 0xE9
  const PAGE_RW: bv64 := 2

  function Pow256(i: nat): (r: int)
    ensures r > 0
  {
    if i == 0 then 1 else 256 * Pow256(i - 1)
  }

  /** The low `n` bytes of `v` in two's complement, least significant first. */
  function Le(v: int, n: nat): (r: seq<Byte>)
    ensures |r| == n
  {
    seq(n, i requires 0 <= i < n => (v / Pow256(i)) % 256)
  }

  function Unsigned(bs: seq<Byte>): nat
  {
    if bs == [] then 0 else bs[0] + 256 * Unsigned(bs[1..])
  }

  function Signed32(u: nat): int
  {
    if u >= 0x8000_0000 then u - 0x1_0000_0000 else u
  }

  /** JMP rel32: where control goes from the instruction at `a`. */
  function Target(m: seq<Byte>, a: nat): int
    requires a + 5 <= |m|
  {
    a + 5 + Signed32(Unsigned(m[a + 1..a + 5]))
  }

  predicate Fits32(v: int) {
    -0x8000_0000 <= v < 0x8000_0000
  }

  function WriteAt(m: seq<Byte>, a: nat, bs: seq<Byte>): (r: seq<Byte>)
    requires a + |bs| <= |m|
    ensures |r| == |m|
  {
    seq(|m|, i requires 0 <= i < |m| => if a <= i < a + |bs| then bs[i - a] else m[i])
  }

  /** Addresses: the function, the trampoline, the placeholder code and the wrapper. */
  datatype Layout = Layout(start: nat, length: nat, jumper: nat, filler: nat, wrapper: int)

  function End(lay: Layout): nat
  {
    lay.start + lay.length
  }

  /** The bytes of the function that patching can touch. */
  function Touched(lay: Layout): nat
  {
    if lay.length < 1 + LONG then 1 + LONG else lay.length
  }

  ghost predicate Apart(a: nat, n: nat, b: nat, k: nat) {
    a + n <= b || b + k <= a
  }

  ghost predicate Fitting(lay: Layout, size: nat) {
    && lay.start + Touched(lay) <= size
    && lay.jumper + lay.length + 1 + LONG <= size
    && lay.filler + lay.length <= size
    && Apart(lay.start, Touched(lay), lay.jumper, lay.length + 1 + LONG)
    && Apart(lay.filler, lay.length, lay.jumper, lay.length + 1 + LONG)
  }

  /** Displacement of the jump from the end of the trampoline to the rest of the function. */
  function Back(lay: Layout): int
  {
    End(lay) - (lay.jumper + lay.length + 5)
  }

  /** Displacement of the jump from the function to the wrapper. */
  function Away(lay: Layout): int
  {
    lay.wrapper - (lay.start + 5)
  }

  /** The jump at the end of the trampoline, with its displacement or without. */
  function Tail(lay: Layout, near: bool): (r: seq<Byte>)
    ensures 0 < |r| <= 1 + LONG
  {
    if near then [JMP] + Le(Back(lay), LONG) else [JMP]
  }

  ghost function Moved(m: seq<Byte>, lay: Layout, tail: seq<Byte>): (r: seq<Byte>)
    requires Fitting(lay, |m|) && |tail| <= 1 + LONG
    ensures |r| == |m|
  {
    WriteAt(m, lay.jumper, m[lay.start..End(lay)] + tail)
  }

  /** Memory after a successful init_do_fork. */
  ghost function Patched(m: seq<Byte>, lay: Layout): (r: seq<Byte>)
    requires Fitting(lay, |m|)
    ensures |r| == |m|
  {
    WriteAt(Moved(m, lay, [JMP] + Le(Back(lay), LONG)), lay.start, [JMP] + Le(Away(lay), LONG))
  }

  /** Memory after cleanup_do_fork. */
  ghost function Restored(m: seq<Byte>, lay: Layout): (r: seq<Byte>)
    requires Fitting(lay, |m|)
    ensures |r| == |m|
  {
    WriteAt(m, lay.start, m[lay.jumper..lay.jumper + lay.length])
  }

  predicate Matches(m: seq<Byte>, lay: Layout, opcode: seq<Byte>)
    requires End(lay) <= |m| && lay.length <= |opcode|
  {
    m[lay.start..End(lay)] == opcode[..lay.length]
  }

  class Kernel {
    const mem: array<Byte>
    const lay: Layout
    var pte: bv64

    constructor (mem: array<Byte>, lay: Layout, pte: bv64)
      requires Fitting(lay, mem.Length)
      ensures Valid() && this.mem == mem && this.lay == lay && this.pte == pte
    {
      this.mem, this.lay, this.pte := mem, lay, pte;
    }

    ghost predicate Valid()
      reads this, mem
    {
      Fitting(lay, mem.Length)
    }

    /** The page of the function may be written only while its entry says so. */
    ghost predicate Writable(a: nat)
      reads this
    {
      lay.start <= a < lay.start + Touched(lay) ==> pte & PAGE_RW != 0
    }

    /** set_pteval */
    method SetPteval(pteval: bv64) returns (oldPte: bv64)
      modifies `pte
      ensures oldPte == old(pte)
      ensures pte == if pteval == PAGE_RW then old(pte) | PAGE_RW else pteval
    {
      oldPte := pte;
      if pteval == PAGE_RW {
        if pte & PAGE_RW == 0 {
          pte := pte | PAGE_RW;
        }
      } else {
        if pte != pteval {
          pte := pteval;
        }
      }
    }

    method Poke(a: nat, b: Byte)
      requires a < mem.Length && Writable(a)
      modifies mem
      ensures mem[..] == WriteAt(old(mem[..]), a, [b])
    {
      mem[a] := b;
    }

    /** Copy forwards between places that do not overlap. */
    method CopyBytes(dst: nat, src: nat, n: nat)
      requires dst + n <= mem.Length && src + n <= mem.Length && Apart(dst, n, src, n)
      requires forall i :: dst <= i < dst + n ==> Writable(i)
      modifies mem
      ensures mem[..] == WriteAt(old(mem[..]), dst, old(mem[..])[src..src + n])
    {
      ghost var m := mem[..];
      for i := 0 to n
        invariant forall j {:trigger mem[j]} :: 0 <= j < mem.Length ==>
                    mem[j] == if dst <= j < dst + i then m[src + (j - dst)] else m[j]
      {
        assert mem[src + i] == m[src + i];
        mem[dst + i] := mem[src + i];
      }
    }

    /** Store the bytes of a `long` one after the other. */
    method StoreBytes(a: nat, bytes: seq<Byte>)
      requires a + |bytes| <= mem.Length && forall i :: a <= i < a + |bytes| ==> Writable(i)
      modifies mem
      ensures mem[..] == WriteAt(old(mem[..]), a, bytes)
    {
      ghost var m := mem[..];
      for i := 0 to |bytes|
        invariant forall j {:trigger mem[j]} :: 0 <= j < mem.Length ==>
                    mem[j] == if a <= j < a + i then bytes[j - a] else m[j]
      {
        mem[a + i] := bytes[i];
      }
    }

    method CheckCode(opcode: seq<Byte>) returns (same: bool)
      requires Valid() && lay.length <= |opcode|
      ensures same <==> Matches(mem[..], lay, opcode)
    {
      for i := 0 to lay.length
        invariant mem[lay.start..lay.start + i] == opcode[..i]
      {
        if mem[lay.start + i] != opcode[i] {
          assert mem[..][lay.start..End(lay)][i] != opcode[..lay.length][i];
          return false;
        }
      }
      return true;
    }

    /** The memcpy of the placeholder and the loop that copies the function over it. */
    method MoveCode()
      requires Valid()
      modifies mem
      ensures mem[..] == WriteAt(old(mem[..]), lay.jumper, old(mem[..])[lay.start..End(lay)])
    {
      ghost var m, filler := mem[..], mem[..][lay.filler..lay.filler + lay.length];
      CopyBytes(lay.jumper, lay.filler, lay.length);
      assert mem[..] == WriteAt(m, lay.jumper, filler);
      CopyBytes(lay.jumper, lay.start, lay.length);
      OverFiller(m, lay.jumper, filler, lay.start, lay.length);
    }

    /** The first half of init_do_fork: the trampoline, and the jump back if it is near enough. */
    method BuildTrampoline() returns (oldPteval: bv64, near: bool)
      requires Valid()
      modifies this`pte, mem
      ensures oldPteval == old(pte) && pte == old(pte) | PAGE_RW
      ensures near <==> Back(lay) < 0xffffff
      ensures mem[..] == Moved(old(mem[..]), lay, Tail(lay, near))
    {
      ghost var m := mem[..];
      MoveCode();
      oldPteval := SetPteval(PAGE_RW);
      near := JumpBack();
      MovedParts(m, lay, Tail(lay, near));
    }

    /** The jump at the end of the trampoline; its displacement is written only if small enough. */
    method JumpBack() returns (near: bool)
      requires Valid()
      modifies mem
      ensures near <==> Back(lay) < 0xffffff
      ensures mem[..] == WriteAt(old(mem[..]), lay.jumper + lay.length, Tail(lay, near))
    {
      ghost var m := mem[..];
      var newptr := lay.jumper + lay.length;
      Poke(newptr, JMP);
      var diff := End(lay) - (newptr + 5);
      near := diff < 0xffffff;
      if near {
        StoreBytes(newptr + 1, Le(diff, LONG));
        WriteMore(m, newptr, [JMP], Le(Back(lay), LONG));
      }
    }

    /** The second half: the jump to the wrapper over the first bytes of the function. */
    method HookFunction()
      requires Valid() && pte & PAGE_RW != 0
      modifies mem
      ensures mem[..] == WriteAt(old(mem[..]), lay.start, [JMP] + Le(Away(lay), LONG))
    {
      ghost var m := mem[..];
      Poke(lay.start, JMP);
      StoreBytes(lay.start + 1, Le(lay.wrapper - (lay.start + 5), LONG));
      WriteMore(m, lay.start, [JMP], Le(Away(lay), LONG));
    }

    /** init_do_fork */
    method InitDoFork(opcode: seq<Byte>) returns (ret: int)
      requires Valid() && lay.length <= |opcode|
      modifies this`pte, mem
      ensures ret == 0 || ret == -1
      ensures ret == 0 <==> Matches(old(mem[..]), lay, opcode) && Back(lay) < 0xffffff
      ensures ret == 0 ==> mem[..] == Patched(old(mem[..]), lay) && pte == old(pte)
      ensures ret != 0 && !Matches(old(mem[..]), lay, opcode) ==> mem[..] == old(mem[..]) && pte == old(pte)
      ensures ret != 0 && Matches(old(mem[..]), lay, opcode) ==>
                mem[..] == Moved(old(mem[..]), lay, [JMP]) && pte == old(pte) | PAGE_RW
    {
      var same := CheckCode(opcode);
      if !same {
        return -1;
      }
      var oldPteval, near := BuildTrampoline();
      if !near {
        return -1;
      }
      SetRw(old(pte));
      HookFunction();
      var _ := SetPteval(oldPteval);
      return 0;
    }

    /** cleanup_do_fork */
    method CleanupDoFork()
      requires Valid()
      modifies this`pte, mem
      ensures mem[..] == Restored(old(mem[..]), lay) && pte == old(pte)
    {
      var oldPteval := SetPteval(PAGE_RW);
      SetRw(old(pte));
      CopyBytes(lay.start, lay.jumper, lay.length);
      var _ := SetPteval(oldPteval);
    }

    /**
     Loading the module and unloading it again: outside the trampoline everything is as it was
     unless the hook was installed over fewer bytes than it stores and those past END differ.
     */
    method LoadAndUnload(opcode: seq<Byte>) returns (wrapped: bool)
      requires Valid() && lay.length <= |opcode|
      modifies this`pte, mem
      ensures wrapped <==> Matches(old(mem[..]), lay, opcode) && Back(lay) < 0xffffff
      ensures (forall i :: 0 <= i < mem.Length && !InTrampoline(lay, i) ==> mem[..][i] == old(mem[..])[i])
         <==> (wrapped ==> Undone(old(mem[..]), lay))
      ensures pte == if wrapped || !Matches(old(mem[..]), lay, opcode) then old(pte) else old(pte) | PAGE_RW
    {
      ghost var m := mem[..];
      var ret := InitDoFork(opcode);
      wrapped := ret == 0;
      if wrapped {
        CleanupDoFork();
        RoundTripIff(m, lay);
      } else if Matches(m, lay, opcode) {
        forall i | 0 <= i < mem.Length && !InTrampoline(lay, i) ensures mem[..][i] == m[i] {
          FailureLeavesFunction(m, lay, i);
        }
      }
    }
  }

  lemma SetRw(p: bv64)
    ensures (p | PAGE_RW) & PAGE_RW != 0
    ensures p == PAGE_RW ==> (p | PAGE_RW) | PAGE_RW == p
  {
  }

  lemma WriteOver(m: seq<Byte>, a: nat, x: seq<Byte>, y: seq<Byte>)
    requires a + |x| <= |m| && |x| == |y|
    ensures WriteAt(WriteAt(m, a, x), a, y) == WriteAt(m, a, y)
  {
  }

  /** A write is not seen by a read elsewhere. */
  lemma WriteApart(m: seq<Byte>, a: nat, x: seq<Byte>, b: nat, n: nat)
    requires a + |x| <= |m| && b + n <= |m| && Apart(a, |x|, b, n)
    ensures WriteAt(m, a, x)[b..b + n] == m[b..b + n]
  {
  }

  lemma WriteSeen(m: seq<Byte>, a: nat, x: seq<Byte>, b: nat, n: nat)
    requires a + |x| <= |m| && b + n <= |x|
    ensures WriteAt(m, a, x)[a + b..a + b + n] == x[b..b + n]
  {
  }

  lemma WriteByte(m: seq<Byte>, a: nat, x: seq<Byte>, i: nat)
    requires a + |x| <= |m| && i < |m|
    ensures WriteAt(m, a, x)[i] == if a <= i < a + |x| then x[i - a] else m[i]
  {
  }

  /** Copying `n` bytes from `b` over something else copied to `a` before. */
  lemma OverFiller(m: seq<Byte>, a: nat, x: seq<Byte>, b: nat, n: nat)
    requires a + |x| <= |m| && b + n <= |m| && |x| == n && Apart(a, n, b, n)
    ensures WriteAt(WriteAt(m, a, x), a, WriteAt(m, a, x)[b..b + n]) == WriteAt(m, a, m[b..b + n])
  {
    WriteApart(m, a, x, b, n);
    WriteOver(m, a, x, m[b..b + n]);
  }

  lemma WriteMore(m: seq<Byte>, a: nat, x: seq<Byte>, y: seq<Byte>)
    requires a + |x| + |y| <= |m|
    ensures WriteAt(WriteAt(m, a, x), a + |x|, y) == WriteAt(m, a, x + y)
  {
  }

  lemma MovedParts(m: seq<Byte>, lay: Layout, tail: seq<Byte>)
    requires Fitting(lay, |m|) && |tail| <= 1 + LONG
    ensures WriteAt(WriteAt(m, lay.jumper, m[lay.start..End(lay)]), lay.jumper + lay.length, tail) == Moved(m, lay, tail)
  {
    WriteMore(m, lay.jumper, m[lay.start..End(lay)], tail);
  }

  // ----- what the patch means -----

  lemma LowBytes(v: int)
    ensures Unsigned(Le(v, LONG)[..4]) < 0x1_0000_0000
    ensures exists q :: v == Unsigned(Le(v, LONG)[..4]) + 0x1_0000_0000 * q
  {
    var q1, q2, q3 := v / 0x100, v / 0x1_0000, v / 0x100_0000;
    assert Pow256(0) == 1 && Pow256(1) == 0x100 && Pow256(2) == 0x1_0000 && Pow256(3) == 0x100_0000;
    var bytes := Le(v, LONG)[..4];
    assert bytes == [v % 256, q1 % 256, q2 % 256, q3 % 256];
    UnsignedOfFour(bytes);
    assert q2 == q1 / 256 && q3 == q2 / 256;
    assert v == Unsigned(bytes) + 0x1_0000_0000 * (q3 / 256);
  }

  lemma UnsignedOfFour(bs: seq<Byte>)
    requires |bs| == 4
    ensures var b0: int, b1: int, b2: int, b3: int := bs[0], bs[1], bs[2], bs[3];
            Unsigned(bs) == b0 + 0x100 * b1 + 0x1_0000 * b2 + 0x100_0000 * b3
  {
    var b1: int, b2: int, b3: int := bs[1], bs[2], bs[3];
    assert Unsigned(bs[1..][1..][1..]) == b3;
    assert Unsigned(bs[1..][1..]) == b2 + 256 * b3;
    assert Unsigned(bs[1..]) == b1 + 256 * (b2 + 256 * b3);
  }

  lemma DivisionIs(v: int, d: int, q: int, r: int)
    requires v == d * q + r && 0 <= r < d
    ensures v / d == q && v % d == r
  {
    var q', r' := v / d, v % d;
    SmallMultiple(d, q, q', r' - r);
  }

  lemma SmallMultiple(d: int, q: int, q': int, small: int)
    requires d * q == d * q' + small && -d < small < d
    ensures q == q'
  {
    if q > q' {
      Monotone(d, q' + 1, q);
    } else if q < q' {
      Monotone(d, q + 1, q');
    }
  }

  lemma Monotone(d: int, a: int, b: int)
    requires 0 <= d && a <= b
    ensures d * a <= d * b
  {
  }

  /** Dividing by 256 first changes nothing. */
  lemma DivDiv(v: int, p: int)
    requires p > 0
    ensures v / (256 * p) == v / 256 / p
    ensures v % (256 * p) == 256 * (v / 256 % p) + v % 256
  {
    var q, r := v / 256 / p, v / 256 % p;
    assert v / 256 == p * q + r;
    assert v == 256 * p * q + (256 * r + v % 256);
    DivisionIs(v, 256 * p, q, 256 * r + v % 256);
  }

  /** All bytes of the stored number count: read together they are the number modulo 256 to the n. */
  lemma {:induction false} LeMeaning(v: int, n: nat)
    ensures Unsigned(Le(v, n)) == v % Pow256(n)
    decreases n
  {
    if n > 0 {
      var low, high := Le(v, n), Le(v / 256, n - 1);
      assert low[0] == v % 256 by {
        assert Pow256(0) == 1;
      }
      forall i | 0 <= i < n - 1 ensures low[1..][i] == high[i] {
        DivDiv(v, Pow256(i));
      }
      assert low[1..] == high;
      LeMeaning(v / 256, n - 1);
      DivDiv(v, Pow256(n - 1));
    }
  }

  /** The `long` that is stored reads back as the displacement in two's complement of 64 bits. */
  lemma LongMeaning(v: int)
    ensures Unsigned(Le(v, LONG)) == v % 0x1_0000_0000_0000_0000
  {
    LeMeaning(v, LONG);
    assert Pow256(4) == 0x1_0000_0000;
    assert Pow256(8) == 256 * (256 * (256 * (256 * Pow256(4))));
  }

  /** The four bytes the instruction reads give back the displacement iff it fits in 32 bits. */
  lemma DecodeIff(v: int)
    ensures Signed32(Unsigned(Le(v, LONG)[..4])) == v <==> Fits32(v)
  {
    LowBytes(v);
  }

  lemma JumpAt(m: seq<Byte>, a: nat, v: int)
    requires a + 1 + LONG <= |m| && m[a..a + 1 + LONG] == [JMP] + Le(v, LONG)
    ensures m[a] == JMP
    ensures Target(m, a) == a + 5 + v <==> Fits32(v)
  {
    var bytes := [JMP] + Le(v, LONG);
    assert m[a..a + 1 + LONG][0] == bytes[0];
    var low := m[a + 1..a + 5];
    forall k | 0 <= k < 4 ensures low[k] == Le(v, LONG)[k] {
      assert m[a..a + 1 + LONG][1 + k] == m[a + 1 + k] && bytes[1 + k] == Le(v, LONG)[k];
    }
    assert low == Le(v, LONG)[..4];
    DecodeIff(v);
  }

  /**
   The patched function: entry at the start jumps to the wrapper; the trampoline holds the
   original bytes and then jumps to the rest of the function.  Each jump goes where it should
   exactly when its displacement fits in 32 bits.
   */
  lemma TrampolineMeaning(m: seq<Byte>, lay: Layout)
    requires Fitting(lay, |m|)
    ensures var p := Patched(m, lay);
            && p[lay.start] == JMP && (Target(p, lay.start) == lay.wrapper <==> Fits32(Away(lay)))
            && p[lay.jumper..lay.jumper + lay.length] == m[lay.start..End(lay)]
            && p[lay.jumper + lay.length] == JMP
            && (Target(p, lay.jumper + lay.length) == End(lay) <==> Fits32(Back(lay)))
  {
    var p, moved, j := Patched(m, lay), Moved(m, lay, [JMP] + Le(Back(lay), LONG)), lay.jumper + lay.length;
    var away := [JMP] + Le(Away(lay), LONG);
    WriteSeen(moved, lay.start, away, 0, 1 + LONG);
    JumpAt(p, lay.start, Away(lay));
    TrampolineBytes(m, lay);
    JumpAt(p, j, Back(lay));
  }

  lemma TrampolineBytes(m: seq<Byte>, lay: Layout)
    requires Fitting(lay, |m|)
    ensures var p, j := Patched(m, lay), lay.jumper + lay.length;
            && p[lay.jumper..j] == m[lay.start..End(lay)]
            && p[j..j + 1 + LONG] == [JMP] + Le(Back(lay), LONG)
  {
    var code, back, away := m[lay.start..End(lay)], [JMP] + Le(Back(lay), LONG), [JMP] + Le(Away(lay), LONG);
    var moved, j := Moved(m, lay, back), lay.jumper + lay.length;
    WriteApart(moved, lay.start, away, lay.jumper, lay.length);
    WriteApart(moved, lay.start, away, j, 1 + LONG);
    BothSeen(m, lay.jumper, code, back);
  }

  lemma BothSeen(m: seq<Byte>, a: nat, x: seq<Byte>, y: seq<Byte>)
    requires a + |x| + |y| <= |m|
    ensures WriteAt(m, a, x + y)[a..a + |x|] == x
    ensures WriteAt(m, a, x + y)[a + |x|..a + |x| + |y|] == y
  {
    WriteSeen(m, a, x + y, 0, |x|);
    WriteSeen(m, a, x + y, |x|, |y|);
    assert (x + y)[0..|x|] == x && (x + y)[|x|..|x| + |y|] == y;
  }

  ghost predicate InTrampoline(lay: Layout, i: int) {
    lay.jumper <= i < lay.jumper + lay.length + 1 + LONG
  }

  /** The stored jump lies within the bytes copied back, or equals what it overwrote past them. */
  ghost predicate Undone(m: seq<Byte>, lay: Layout)
    requires Fitting(lay, |m|)
  {
    lay.length >= 1 + LONG || m[End(lay)..lay.start + 1 + LONG] == ([JMP] + Le(Away(lay), LONG))[lay.length..]
  }

  /**
   Round trip.  Patching and restoring gives back every byte outside the trampoline if and
   only if the stored jump lies within the bytes copied back, or what it overwrote past them
   happened to be the same.
   */
  lemma RoundTripIff(m: seq<Byte>, lay: Layout)
    requires Fitting(lay, |m|)
    ensures (forall i :: 0 <= i < |m| && !InTrampoline(lay, i) ==> Restored(Patched(m, lay), lay)[i] == m[i])
       <==> Undone(m, lay)
  {
    var jump, r := [JMP] + Le(Away(lay), LONG), Restored(Patched(m, lay), lay);
    forall i | 0 <= i < |m| && !InTrampoline(lay, i)
      ensures r[i] == if End(lay) <= i < lay.start + 1 + LONG then jump[i - lay.start] else m[i]
    {
      RestoredByte(m, lay, i);
    }
    SameBytesIff(m, lay, jump, r);
  }

  /** Byte by byte the two memories differ only where the jump sticks out. */
  lemma SameBytesIff(m: seq<Byte>, lay: Layout, jump: seq<Byte>, r: seq<Byte>)
    requires Fitting(lay, |m|) && |r| == |m| && |jump| == 1 + LONG
    requires forall i :: 0 <= i < |m| && !InTrampoline(lay, i) ==>
               r[i] == if End(lay) <= i < lay.start + 1 + LONG then jump[i - lay.start] else m[i]
    ensures (forall i :: 0 <= i < |m| && !InTrampoline(lay, i) ==> r[i] == m[i])
       <==> (lay.length >= 1 + LONG || m[End(lay)..lay.start + 1 + LONG] == jump[lay.length..])
  {
    if lay.length < 1 + LONG {
      var past, over := m[End(lay)..lay.start + 1 + LONG], jump[lay.length..];
      if past == over {
        forall i | End(lay) <= i < lay.start + 1 + LONG ensures r[i] == m[i] {
          assert past[i - End(lay)] == over[i - End(lay)];
        }
      } else {
        var k :| 0 <= k < |past| && past[k] != over[k];
        assert !InTrampoline(lay, End(lay) + k) && r[End(lay) + k] != m[End(lay) + k];
      }
    }
  }

  lemma RestoredByte(m: seq<Byte>, lay: Layout, i: nat)
    requires Fitting(lay, |m|) && i < |m| && !InTrampoline(lay, i)
    ensures Restored(Patched(m, lay), lay)[i] ==
            if End(lay) <= i < lay.start + 1 + LONG then ([JMP] + Le(Away(lay), LONG))[i - lay.start] else m[i]
  {
    var back, away := [JMP] + Le(Back(lay), LONG), [JMP] + Le(Away(lay), LONG);
    var p, moved := Patched(m, lay), Moved(m, lay, back);
    TrampolineBytes(m, lay);
    WriteByte(p, lay.start, p[lay.jumper..lay.jumper + lay.length], i);
    WriteByte(moved, lay.start, away, i);
    WriteByte(m, lay.jumper, m[lay.start..End(lay)] + back, i);
  }

  /** The failing exit after the trampoline was built: the function, and all else outside it, is as it was. */
  lemma FailureLeavesFunction(m: seq<Byte>, lay: Layout, i: nat)
    requires Fitting(lay, |m|) && i < |m| && (lay.start <= i < lay.start + Touched(lay) || !InTrampoline(lay, i))
    ensures Moved(m, lay, [JMP])[i] == m[i]
  {
    WriteByte(m, lay.jumper, m[lay.start..End(lay)] + [JMP], i);
  }
}
