/** The burst engine of the debug unit (pulp/adv_dbg_unit/adv_dbg_unit_impl.cpp): bursts are shifted
    bit by bit through the data register, least significant bit first, and closed by a CRC. Words are
    sequences of bits, bit 0 first; memory holds bytes of 8 bits. */
module DebugBurst {
  import opened Bits

  type BitString = seq<bool>
  type Memory = map<int, BitString>

  const ADDRESSES := 0x1_0000_0000

  function Zeros(n: nat): (r: BitString)
    ensures |r| == n && forall k :: 0 <= k < n ==> !r[k]
  {
    if n == 0 then [] else Zeros(n - 1) + [false]
  }

  /** Bitwise exclusive or. */
  function XorBits(a: BitString, b: BitString): (r: BitString)
    requires |a| == |b|
    ensures |r| == |a|
  {
    if a == [] then [] else XorBits(a[..|a| - 1], b[..|b| - 1]) + [a[|a| - 1] != b[|b| - 1]]
  }

  function ToBits(v: int, n: nat): (r: BitString)
    ensures |r| == n
    decreases n
  {
    if n == 0 then [] else [v % 2 == 1] + ToBits(v / 2, n - 1)
  }

  /** The reflected CRC-32 polynomial of section 3.2.9 of IEEE 802.3, and its initial value. */
  const POLY := ToBits(0xedb88320, 32)
  const CRC_INIT := ToBits(0xffffffff, 32)

  /** `crc >> 1`, with the polynomial added when the data bit differs from the bit shifted out. */
  function CrcBit(crc: BitString, d: bool): (r: BitString)
    requires |crc| == 32
    ensures |r| == 32
  {
    var shifted := crc[1..] + [false];
    if d != crc[0] then XorBits(shifted, POLY) else shifted
  }

  function Crc(crc: BitString, data: BitString): (r: BitString)
    requires |crc| == 32
    ensures |r| == 32
    decreases |data|
  {
    if data == [] then crc else Crc(CrcBit(crc, data[0]), data[1..])
  }

  /** `adbg_compute_crc`: over the low bits of a word. */
  method ComputeCrc(crcIn: BitString, data: BitString, length: nat) returns (crc: BitString)
    requires |crcIn| == 32 && length <= |data|
    ensures |crc| == 32 && crc == Crc(crcIn, data[..length])
  {
    crc := crcIn;
    for i := 0 to length
      invariant |crc| == 32 && Crc(crc, data[i..length]) == Crc(crcIn, data[..length])
    {
      assert data[i..length][1..] == data[i + 1..length];
      var d := data[i];
      var c := crc[0];
      var shifted := crc[1..] + [false];
      crc := if d != c then XorBits(shifted, POLY) else shifted;
    }
  }

  /** The CRC of a sequence of words is the CRC of the bit stream they make up. */
  lemma {:induction false} CrcOfStream(crc: BitString, a: BitString, b: BitString)
    requires |crc| == 32
    ensures Crc(crc, a + b) == Crc(Crc(crc, a), b)
    decreases |a|
  {
    if a == [] {
      assert a + b == b;
    } else {
      assert (a + b)[1..] == a[1..] + b;
      CrcOfStream(CrcBit(crc, a[0]), a[1..], b);
    }
  }

  lemma {:induction false} XorAt(a: BitString, b: BitString, k: nat)
    requires |a| == |b| && k < |a|
    ensures XorBits(a, b)[k] == (a[k] != b[k])
  {
    if k < |a| - 1 {
      XorAt(a[..|a| - 1], b[..|b| - 1], k);
    }
  }

  lemma {:induction false} TopBit(v: int, n: nat)
    requires n > 0 && Pow2(n - 1) <= v < Pow2(n)
    ensures ToBits(v, n)[n - 1]
  {
    if n > 1 {
      TopBit(v / 2, n - 1);
    }
  }

  lemma PolyTop()
    ensures POLY[31]
  {
    assert Pow2(8) == 0x100 && Pow2(16) == 0x10000;
    assert Pow2(24) == 0x1000000 && Pow2(31) == 0x80000000;
    TopBit(0xedb88320, 32);
  }

  /** The bit fed back into the register. */
  predicate Feedback(crc: BitString, d: bool)
    requires |crc| == 32
  {
    d != crc[0]
  }

  lemma CrcBitAt(crc: BitString, d: bool, k: nat)
    requires |crc| == 32 && k < 32
    ensures CrcBit(crc, d)[k] == (if k < 31 then crc[k + 1] != (Feedback(crc, d) && POLY[k]) else Feedback(crc, d))
  {
    PolyTop();
    if Feedback(crc, d) {
      XorAt(crc[1..] + [false], POLY, k);
    }
  }

  /** The registers agree from bit `k` on. */
  predicate AgreeFrom(a: BitString, b: BitString, k: nat) {
    |a| == |b| == 32 && forall j :: k <= j < 32 ==> a[j] == b[j]
  }

  /** The top of the register tells what was fed back, and so all but one bit of the register before. */
  lemma OneBitBack(a: BitString, x: bool, b: BitString, y: bool, k: nat)
    requires |a| == |b| == 32 && k < 32 && AgreeFrom(CrcBit(a, x), CrcBit(b, y), k)
    ensures Feedback(a, x) == Feedback(b, y) && AgreeFrom(a, b, k + 1)
  {
    CrcBitAt(a, x, 31);
    CrcBitAt(b, y, 31);
    forall j | k + 1 <= j < 32 ensures a[j] == b[j] {
      CrcBitAt(a, x, j - 1);
      CrcBitAt(b, y, j - 1);
    }
  }

  lemma {:induction false} BitsBack(a: BitString, p: BitString, b: BitString, q: BitString)
    requires |a| == |b| == 32 && |p| == |q| <= 32 && Crc(a, p) == Crc(b, q)
    ensures AgreeFrom(a, b, |p|)
    ensures p != [] ==> Feedback(a, p[0]) == Feedback(b, q[0])
    decreases |p|
  {
    if p != [] {
      BitsBack(CrcBit(a, p[0]), p[1..], CrcBit(b, q[0]), q[1..]);
      OneBitBack(a, p[0], b, q[0], |p| - 1);
    }
  }

  /** From one register, different streams of at most 32 bits lead to different CRCs. */
  lemma {:induction false} ShortStreamsDiffer(crc: BitString, p: BitString, q: BitString)
    requires |crc| == 32 && |p| == |q| <= 32 && Crc(crc, p) == Crc(crc, q)
    ensures p == q
    decreases |p|
  {
    if p != [] {
      BitsBack(crc, p, crc, q);
      ShortStreamsDiffer(CrcBit(crc, p[0]), p[1..], q[1..]);
      assert p == [p[0]] + p[1..] && q == [q[0]] + q[1..];
    }
  }

  /** Equal bits never make different registers equal again. */
  lemma {:induction false} SameStreamKeepsApart(a: BitString, b: BitString, p: BitString)
    requires |a| == |b| == 32 && Crc(a, p) == Crc(b, p)
    ensures a == b
    decreases |p|
  {
    if p != [] {
      SameStreamKeepsApart(CrcBit(a, p[0]), CrcBit(b, p[0]), p[1..]);
      OneBitBack(a, p[0], b, p[0], 0);
    }
  }

  /** The CRC detects every change within 32 bits in a row, one wrong bit included. */
  lemma DamageChangesCrc(crc: BitString, before: BitString, p: BitString, q: BitString, after: BitString)
    requires |crc| == 32 && |p| == |q| <= 32 && p != q
    ensures Crc(crc, before + p + after) != Crc(crc, before + q + after)
  {
    var c := Crc(crc, before);
    CrcOfStream(crc, before, p);
    CrcOfStream(crc, before, q);
    CrcOfStream(crc, before + p, after);
    CrcOfStream(crc, before + q, after);
    if Crc(Crc(c, p), after) == Crc(Crc(c, q), after) {
      SameStreamKeepsApart(Crc(c, p), Crc(c, q), after);
      ShortStreamsDiffer(c, p, q);
    }
  }

  function Byte(m: Memory, a: int): (r: BitString)
    ensures |r| == 8
  {
    if a in m && |m[a]| == 8 then m[a] else Zeros(8)
  }

  function WordAt(m: Memory, a: int, n: nat): (r: BitString)
    ensures |r| == 8 * n
  {
    if n == 0 then [] else WordAt(m, a, n - 1) + Byte(m, a + n - 1)
  }

  function WriteWord(m: Memory, a: int, n: nat, w: BitString): Memory
    requires |w| == 8 * n
  {
    m + map b | a <= b < a + n :: ByteOf(w, a, b)
  }

  /** The byte of `w` for address `b`, when `w` starts at `a`. */
  function ByteOf(w: BitString, a: int, b: int): BitString
    requires 0 <= 8 * (b - a) && 8 * (b - a) + 8 <= |w|
  {
    w[8 * (b - a)..8 * (b - a) + 8]
  }

  lemma {:induction false} WordElsewhere(m: Memory, a: int, n: nat, w: BitString, b: int, k: nat)
    requires |w| == 8 * n && (b + k <= a || b >= a + n)
    ensures WordAt(WriteWord(m, a, n, w), b, k) == WordAt(m, b, k)
  {
    if k > 0 {
      WordElsewhere(m, a, n, w, b, k - 1);
    }
  }

  predicate ByteIs(m: Memory, a: int, w: BitString, k: int) {
    0 <= 8 * k && 8 * k + 8 <= |w| && Byte(m, a + k) == w[8 * k..8 * k + 8]
  }

  lemma Chunk(w: BitString, i: int, j: int)
    requires 0 <= i <= j <= |w|
    ensures w[..j] == w[..i] + w[i..j]
  {
  }

  lemma {:induction false} WordOfBytes(m: Memory, a: int, n: nat, w: BitString)
    requires |w| >= 8 * n && forall k :: 0 <= k < n ==> ByteIs(m, a, w, k)
    ensures WordAt(m, a, n) == w[..8 * n]
  {
    if n > 0 {
      WordOfBytes(m, a, n - 1, w);
      assert ByteIs(m, a, w, n - 1);
      Chunk(w, 8 * (n - 1), 8 * n);
    }
  }

  lemma ReadBack(m: Memory, a: int, n: nat, w: BitString)
    requires |w| == 8 * n
    ensures WordAt(WriteWord(m, a, n, w), a, n) == w
  {
    var after := WriteWord(m, a, n, w);
    forall k | 0 <= k < n ensures ByteIs(after, a, w, k) {
      assert after[a + k] == ByteOf(w, a, a + k);
    }
    WordOfBytes(after, a, n, w);
    assert w[..8 * n] == w;
  }

  /** The burst state of the device, and the memory it accesses. `phase` is `do_burst`. */
  datatype Dev = Dev(phase: int, isRead: bool, addr: int, count: int, wordCount: int, wordBytes: nat,
                     word: BitString, crc: BitString, mem: Memory)
  {
    predicate Valid() {
      && |word| == 32 && |crc| == 32 && 1 <= wordBytes <= 4 && 0 <= phase <= 4 && 0 <= wordCount
    }
  }

  function NextAddr(a: int, n: int): int { (a + n) % ADDRESSES }

  function NextCount(c: int): int { (c - 1) % ADDRESSES }

  /** `word >> 1`, with a bit put at position `at`. */
  function ShiftIn(w: BitString, at: int, b: bool): (r: BitString)
    requires |w| == 32 && 0 <= at < 32
    ensures |r| == 32
  {
    var s := w[1..] + [false];
    s[at := s[at] || b]
  }

  /** One word read from memory into the low bytes of the shift register. */
  function Fetch(d: Dev): (r: Dev)
    requires d.Valid()
    ensures r.Valid() && r.wordCount > 0
  {
    if d.wordCount != 0 then d
    else
      var w := WordAt(d.mem, d.addr, d.wordBytes);
      d.(word := w + d.word[8 * d.wordBytes..], crc := Crc(d.crc, w), wordCount := 8 * d.wordBytes)
  }

  /** A shift of the data register during a read burst, and the bit put on TDO. */
  function ReadShift(d: Dev): (r: (Dev, bool))
    requires d.Valid()
    ensures r.0.Valid()
  {
    if d.phase == 1 then (d.(phase := 2, crc := CRC_INIT), true)
    else if d.phase == 2 then
      var f := Fetch(d);
      var s := f.(word := f.word[1..] + [false], wordCount := f.wordCount - 1);
      if s.wordCount != 0 then (s, f.word[0])
      else
        var e := s.(addr := NextAddr(s.addr, s.wordBytes), count := NextCount(s.count));
        (if e.count == 0 then e.(phase := 3, wordCount := 32, word := e.crc) else e, f.word[0])
    else if d.phase == 3 then
      var n := if d.wordCount > 0 then d.wordCount - 1 else ADDRESSES - 1;
      (d.(word := d.word[1..] + [false], wordCount := n, phase := if n == 0 then 4 else 3), d.word[0])
    else (d.(phase := 0), false)
  }

  /** A whole word has been received. */
  function Store(d: Dev): (r: Dev)
    requires d.Valid()
    ensures r.Valid()
  {
    var w := d.word[..8 * d.wordBytes];
    var e := d.(mem := WriteWord(d.mem, d.addr, d.wordBytes, w), crc := Crc(d.crc, w),
                addr := NextAddr(d.addr, d.wordBytes), count := NextCount(d.count));
    if e.count == 0 then e.(phase := 3, wordCount := 32) else e
  }

  /** A shift of the data register during a write burst; TDO tells in the end whether the CRC matches. */
  function WriteShift(d: Dev, tdi: bool): (r: (Dev, bool))
    requires d.Valid()
    ensures r.0.Valid()
  {
    if d.phase == 1 then (if tdi then d.(phase := 2, crc := CRC_INIT) else d, false)
    else if d.phase == 2 then
      var bits := 8 * d.wordBytes;
      var n := (if d.wordCount == 0 then bits else d.wordCount) - 1;
      var s := d.(word := ShiftIn(d.word, bits - 1, tdi), wordCount := n);
      (if n != 0 then s else Store(s), false)
    else if d.phase == 3 then
      var n := if d.wordCount > 0 then d.wordCount - 1 else ADDRESSES - 1;
      (d.(word := ShiftIn(d.word, 31, tdi), wordCount := n, phase := if n == 0 then 4 else 3), false)
    else (d.(phase := 0), d.crc == d.word)
  }

  function Shift(d: Dev, tdi: bool): (r: (Dev, bool))
    requires d.Valid()
    ensures r.0.Valid()
  {
    if d.isRead then ReadShift(d) else WriteShift(d, tdi)
  }

  /** `burst_cmd` */
  function Setup(mem: Memory, crc: BitString, isRead: bool, addr: int, count: int, bytes: nat): Dev {
    Dev(1, isRead, addr, count, 0, bytes, Zeros(32), crc, mem)
  }

  /** `adv_dbg_unit`, module 0 selected and the USER instruction loaded; memory accesses succeed. */
  class DebugUnit {
    var phase: int
    var isRead: bool
    var addr: int
    var count: int
    var wordCount: int
    var wordBytes: nat
    var word: BitString
    var crc: BitString
    var mem: Memory

    function View(): Dev
      reads this
    {
      Dev(phase, isRead, addr, count, wordCount, wordBytes, word, crc, mem)
    }

    constructor (mem: Memory)
      ensures View() == Dev(0, false, 0, 0, 0, 1, Zeros(32), CRC_INIT, mem)
    {
      this.mem := mem;
      phase, isRead, addr, count, wordCount, wordBytes := 0, false, 0, 0, 0, 1;
      word, crc := Zeros(32), CRC_INIT;
    }

    method BurstCmd(bytes: nat, read: bool, address: int, words: int)
      requires View().Valid() && 1 <= bytes <= 4
      modifies this
      ensures View() == Setup(old(mem), old(crc), read, address, words, bytes) && View().Valid()
    {
      phase, isRead, wordBytes, word := 1, read, bytes, Zeros(32);
      addr, count, wordCount := address, words, 0;
    }

    method ShiftRead() returns (tdo: bool)
      requires View().Valid()
      modifies this
      ensures (View(), tdo) == ReadShift(old(View()))
    {
      tdo := false;
      if phase == 1 {
        tdo := true;
        phase := 2;
        crc := CRC_INIT;
      } else if phase == 2 {
        if wordCount == 0 {
          word := WordAt(mem, addr, wordBytes) + word[8 * wordBytes..];
          assert word[..8 * wordBytes] == WordAt(mem, addr, wordBytes);
          crc := ComputeCrc(crc, word, 8 * wordBytes);
          wordCount := 8 * wordBytes;
        }
        tdo := word[0];
        word := word[1..] + [false];
        wordCount := wordCount - 1;
        if wordCount == 0 {
          addr := (addr + wordBytes) % ADDRESSES;
          count := (count - 1) % ADDRESSES;
          if count == 0 {
            phase := 3;
            wordCount := 32;
            word := crc;
          }
        }
      } else if phase == 3 {
        tdo := word[0];
        word := word[1..] + [false];
        wordCount := if wordCount > 0 then wordCount - 1 else ADDRESSES - 1;
        if wordCount == 0 {
          phase := 4;
        }
      } else {
        phase := 0;
      }
    }

    method StoreWord()
      requires View().Valid()
      modifies this
      ensures View() == Store(old(View()))
    {
      var bits := 8 * wordBytes;
      mem := WriteWord(mem, addr, wordBytes, word[..bits]);
      crc := ComputeCrc(crc, word, bits);
      addr := (addr + wordBytes) % ADDRESSES;
      count := (count - 1) % ADDRESSES;
      if count == 0 {
        phase := 3;
        wordCount := 32;
      }
    }

    /** A data bit of a write burst. */
    method WriteData(tdi: bool)
      requires View().Valid() && phase == 2
      modifies this
      ensures View() == WriteShift(old(View()), tdi).0
    {
      var bits := 8 * wordBytes;
      if wordCount == 0 {
        wordCount := bits;
      }
      word := ShiftIn(word, bits - 1, tdi);
      wordCount := wordCount - 1;
      if wordCount == 0 {
        StoreWord();
      }
    }

    method ShiftWrite(tdi: bool) returns (tdo: bool)
      requires View().Valid()
      modifies this
      ensures (View(), tdo) == WriteShift(old(View()), tdi)
    {
      tdo := false;
      if phase == 1 {
        if tdi {
          phase := 2;
          crc := CRC_INIT;
        }
      } else if phase == 2 {
        WriteData(tdi);
      } else if phase == 3 {
        word := ShiftIn(word, 31, tdi);
        wordCount := if wordCount > 0 then wordCount - 1 else ADDRESSES - 1;
        if wordCount == 0 {
          phase := 4;
        }
      } else {
        tdo := crc == word;
        phase := 0;
      }
    }

    /** `shift_dr` during a burst. */
    method ShiftDr(tdi: bool) returns (tdo: bool)
      requires View().Valid()
      modifies this
      ensures (View(), tdo) == Shift(old(View()), tdi)
    {
      if isRead {
        tdo := ShiftRead();
      } else {
        tdo := ShiftWrite(tdi);
      }
    }
  }

  /** Feeds a machine bit by bit: its state after them, and the bits it put out. */
  function Feed<S>(step: (S, bool) -> (S, bool), s: S, tdi: BitString): (r: (S, BitString))
    ensures |r.1| == |tdi|
  {
    if tdi == [] then (s, [])
    else
      var (e, out) := Feed(step, s, tdi[..|tdi| - 1]);
      var (f, b) := step(e, tdi[|tdi| - 1]);
      (f, out + [b])
  }

  lemma {:induction false} FeedConcat<S>(step: (S, bool) -> (S, bool), s: S, a: BitString, b: BitString)
    ensures
      var (e, x) := Feed(step, s, a);
      var (f, y) := Feed(step, e, b);
      Feed(step, s, a + b) == (f, x + y)
    decreases |b|
  {
    var (e, x) := Feed(step, s, a);
    if b == [] {
      assert a + b == a && x + [] == x;
    } else {
      var n := |b| - 1;
      FeedConcat(step, s, a, b[..n]);
      assert (a + b)[..|a| + n] == a + b[..n];
      var (f, y) := Feed(step, e, b[..n]);
      var (g, z) := step(f, b[n]);
      assert x + (y + [z]) == x + y + [z];
    }
  }

  /** A shift of the data register; anything but a valid device stays as it is. */
  function Tick(d: Dev, tdi: bool): (Dev, bool) {
    if d.Valid() then Shift(d, tdi) else (d, false)
  }

  /** A sequence of shifts: the device after them, and the bits put on TDO. */
  function Shifts(d: Dev, tdi: BitString): (r: (Dev, BitString))
    requires d.Valid()
    ensures r.0.Valid() && |r.1| == |tdi|
  {
    StaysValid(d, tdi);
    Feed(Tick, d, tdi)
  }

  lemma {:induction false} StaysValid(d: Dev, tdi: BitString)
    requires d.Valid()
    ensures Feed(Tick, d, tdi).0.Valid()
    decreases |tdi|
  {
    if tdi != [] {
      StaysValid(d, tdi[..|tdi| - 1]);
    }
  }

  lemma ShiftsConcat(d: Dev, a: BitString, b: BitString)
    requires d.Valid()
    ensures
      var (e, x) := Shifts(d, a);
      var (f, y) := Shifts(e, b);
      Shifts(d, a + b) == (f, x + y)
  {
    FeedConcat(Tick, d, a, b);
  }

  /** The read engine `j` bits into a word. */
  ghost predicate ReadingAt(d: Dev, e: Dev, j: int)
    requires d.Valid()
  {
    var bits := 8 * d.wordBytes;
    var w := WordAt(d.mem, d.addr, d.wordBytes);
    0 < j < bits && e == d.(word := w[j..] + Zeros(32 - bits + j), crc := Crc(d.crc, w), wordCount := bits - j)
  }

  ghost predicate BetweenWords(d: Dev) {
    d.Valid() && d.phase == 2 && d.wordCount == 0 && 0 < d.count < ADDRESSES
  }

  /** One shift of a word of which `j` bits have gone already. */
  lemma ShiftWord(w: BitString, j: int)
    requires 0 <= j < |w| <= 32
    ensures (w[j..] + Zeros(32 - |w| + j))[0] == w[j]
    ensures (w[j..] + Zeros(32 - |w| + j))[1..] + [false] == w[j + 1..] + Zeros(32 - |w| + j + 1)
  {
  }

  lemma ZerosTail(k: nat)
    requires k <= 32
    ensures Zeros(32)[k..] == Zeros(32 - k)
  {
  }

  lemma ReadFirst(d: Dev)
    requires BetweenWords(d) && d.word == Zeros(32)
    ensures ReadingAt(d, ReadShift(d).0, 1) && ReadShift(d).1 == WordAt(d.mem, d.addr, d.wordBytes)[0]
  {
    var w := WordAt(d.mem, d.addr, d.wordBytes);
    ZerosTail(|w|);
    assert w[0..] == w;
    ShiftWord(w, 0);
  }

  lemma ReadNext(d: Dev, e: Dev, j: int)
    requires d.Valid() && d.phase == 2 && e.Valid() && ReadingAt(d, e, j) && j + 1 < 8 * d.wordBytes
    ensures ReadingAt(d, ReadShift(e).0, j + 1) && ReadShift(e).1 == WordAt(d.mem, d.addr, d.wordBytes)[j]
  {
    ShiftWord(WordAt(d.mem, d.addr, d.wordBytes), j);
  }

  /** The last shift of several. */
  lemma ShiftsLast(d: Dev, tdi: BitString, n: int)
    requires d.Valid() && n == |tdi| - 1 && n >= 0
    ensures
      var (e, out) := Shifts(d, tdi[..n]);
      Shifts(d, tdi).0 == Shift(e, tdi[n]).0 && Shifts(d, tdi).1 == out + [Shift(e, tdi[n]).1]
  {
  }

  lemma NoShifts(d: Dev)
    requires d.Valid()
    ensures Shifts(d, []) == (d, [])
  {
  }

  lemma Extend(w: BitString, j: int)
    requires 0 <= j < |w|
    ensures w[..j] + [w[j]] == w[..j + 1]
  {
  }

  lemma {:induction false} ReadBits(d: Dev, tdi: BitString)
    requires BetweenWords(d) && d.isRead && d.word == Zeros(32) && 0 < |tdi| < 8 * d.wordBytes
    ensures ReadingAt(d, Shifts(d, tdi).0, |tdi|)
    ensures Shifts(d, tdi).1 == WordAt(d.mem, d.addr, d.wordBytes)[..|tdi|]
    decreases |tdi|
  {
    var j := |tdi| - 1;
    var w := WordAt(d.mem, d.addr, d.wordBytes);
    ShiftsLast(d, tdi, j);
    if j == 0 {
      assert tdi[..0] == [];
      NoShifts(d);
      ReadFirst(d);
    } else {
      ReadBits(d, tdi[..j]);
      ReadNext(d, Shifts(d, tdi[..j]).0, j);
      Extend(w, j);
    }
  }

  /** The device after a whole word has been read. */
  function AfterWord(d: Dev): Dev
    requires d.Valid()
  {
    var w := WordAt(d.mem, d.addr, d.wordBytes);
    var e := d.(addr := NextAddr(d.addr, d.wordBytes), count := NextCount(d.count), crc := Crc(d.crc, w));
    if e.count == 0 then e.(phase := 3, wordCount := 32, word := e.crc) else e
  }

  lemma AfterWordIs(d: Dev)
    requires BetweenWords(d) && d.count > 1
    ensures BetweenWords(AfterWord(d)) && AfterWord(d).count == d.count - 1
    ensures AfterWord(d).wordBytes == d.wordBytes && AfterWord(d).word == d.word && AfterWord(d).isRead == d.isRead
  {
  }

  lemma ReadLast(d: Dev, e: Dev)
    requires BetweenWords(d) && e.Valid() && ReadingAt(d, e, 8 * d.wordBytes - 1) && d.word == Zeros(32)
    ensures ReadShift(e) == (AfterWord(d), WordAt(d.mem, d.addr, d.wordBytes)[8 * d.wordBytes - 1])
  {
    var n := 8 * d.wordBytes - 1;
    var w := WordAt(d.mem, d.addr, d.wordBytes);
    assert w[n..] == [w[n]];
    assert ([w[n]] + Zeros(31))[1..] + [false] == Zeros(32);
  }

  lemma ReadOneWord(d: Dev, tdi: BitString)
    requires BetweenWords(d) && d.isRead && d.word == Zeros(32) && |tdi| == 8 * d.wordBytes
    ensures Shifts(d, tdi) == (AfterWord(d), WordAt(d.mem, d.addr, d.wordBytes))
  {
    var n := |tdi| - 1;
    var w := WordAt(d.mem, d.addr, d.wordBytes);
    ReadBits(d, tdi[..n]);
    ReadLast(d, Shifts(d, tdi[..n]).0);
    ShiftsLast(d, tdi, n);
    Extend(w, n);
    assert w[..n + 1] == w;
  }

  /** The `n` words from an address on, as one bit stream. */
  function Payload(m: Memory, a: int, bytes: nat, n: nat): BitString
    decreases n
  {
    if n == 0 then [] else WordAt(m, a, bytes) + Payload(m, NextAddr(a, bytes), bytes, n - 1)
  }

  lemma {:induction false} PayloadLength(m: Memory, a: int, bytes: nat, n: nat)
    ensures |Payload(m, a, bytes, n)| == 8 * bytes * n
    decreases n
  {
    if n > 0 {
      PayloadLength(m, NextAddr(a, bytes), bytes, n - 1);
      assert 8 * bytes * n == 8 * bytes + 8 * bytes * (n - 1);
    }
  }

  /** What a read burst does between its start bit and its CRC. */
  ghost predicate ReadsAll(d: Dev, r: (Dev, BitString))
    requires d.Valid()
  {
    d.count >= 0 &&
    var p := Payload(d.mem, d.addr, d.wordBytes, d.count);
    r.1 == p && r.0.phase == 3 && r.0.wordCount == 32 && r.0.isRead && r.0.word == Crc(d.crc, p)
  }

  lemma ReadsOneMore(d: Dev, r: (Dev, BitString))
    requires BetweenWords(d) && d.count > 1 && ReadsAll(AfterWord(d), r)
    ensures ReadsAll(d, (r.0, WordAt(d.mem, d.addr, d.wordBytes) + r.1))
  {
    var w, rest := WordAt(d.mem, d.addr, d.wordBytes), r.1;
    NextWord(d);
    assert Payload(d.mem, d.addr, d.wordBytes, d.count) == w + rest;
    CrcOfStream(d.crc, w, rest);
  }

  lemma NextWord(d: Dev)
    requires BetweenWords(d) && d.count > 1
    ensures
      var e := AfterWord(d);
      && e.Valid() && e.count == d.count - 1 && e.crc == Crc(d.crc, WordAt(d.mem, d.addr, d.wordBytes))
      && Payload(d.mem, d.addr, d.wordBytes, d.count)
         == WordAt(d.mem, d.addr, d.wordBytes) + Payload(e.mem, e.addr, e.wordBytes, e.count)
  {
  }

  lemma ReadsLast(d: Dev)
    requires BetweenWords(d) && d.count == 1 && d.isRead
    ensures ReadsAll(d, (AfterWord(d), WordAt(d.mem, d.addr, d.wordBytes)))
  {
    var w := WordAt(d.mem, d.addr, d.wordBytes);
    assert Payload(d.mem, NextAddr(d.addr, d.wordBytes), d.wordBytes, 0) == [];
    assert w + [] == w;
  }

  lemma {:induction false} ReadWords(d: Dev, tdi: BitString, bits: int, n: nat)
    requires BetweenWords(d) && d.isRead && d.word == Zeros(32) && d.count == n
    requires bits == 8 * d.wordBytes && |tdi| == bits * n
    ensures ReadsAll(d, Shifts(d, tdi))
    decreases n
  {
    Split(bits, n);
    if n == 1 {
      ReadOneWord(d, tdi);
      ReadsLast(d);
    } else {
      var e, now, rest := AfterWord(d), tdi[..bits], tdi[bits..];
      assert tdi == now + rest;
      ShiftsConcat(d, now, rest);
      ReadOneWord(d, now);
      AfterWordIs(d);
      ReadWords(e, rest, bits, n - 1);
      ReadsOneMore(d, Shifts(e, rest));
    }
  }

  lemma Split(bits: int, n: int)
    requires bits > 0 && n >= 1
    ensures bits * n == bits + bits * (n - 1) && bits * (n - 1) >= 0
  {
  }

  lemma {:induction false} ReadCrc(d: Dev, tdi: BitString)
    requires d.Valid() && d.isRead && d.phase == 3 && d.wordCount == 32 && |tdi| <= 32
    ensures
      var (e, out) := Shifts(d, tdi);
      && out == d.word[..|tdi|] && e.wordCount == 32 - |tdi| && e.word == d.word[|tdi|..] + Zeros(|tdi|)
      && e.phase == (if |tdi| == 32 then 4 else 3) && e.isRead
    decreases |tdi|
  {
    if tdi != [] {
      ReadCrc(d, tdi[..|tdi| - 1]);
    }
  }

  /** The bit stream of a read burst: a start bit, the words, and their CRC. */
  function Stream(m: Memory, a: int, bytes: nat, n: nat): BitString {
    var p := Payload(m, a, bytes, n);
    [true] + p + Crc(CRC_INIT, p)
  }

  lemma StartBit(d: Dev, tdi: BitString)
    requires d.Valid() && d.phase == 1 && |tdi| == 1 && (d.isRead || tdi[0])
    ensures Shifts(d, tdi) == (d.(phase := 2, crc := CRC_INIT), [d.isRead])
  {
    assert tdi[..0] == [];
    NoShifts(d);
    assert [] + [d.isRead] == [d.isRead];
  }

  /** A read burst puts exactly its stream on TDO; `k` is the length of the words. */
  lemma ReadBurst(m: Memory, crc: BitString, a: int, n: int, bytes: nat, k: nat, tdi: BitString)
    requires |crc| == 32 && 1 <= bytes <= 4 && 0 < n < ADDRESSES && k == 8 * bytes * n && |tdi| == 1 + k + 32
    ensures Shifts(Setup(m, crc, true, a, n, bytes), tdi).1 == Stream(m, a, bytes, n)
    ensures Shifts(Setup(m, crc, true, a, n, bytes), tdi).0.phase == 4
  {
    var t0, t1, t2 := tdi[..1], tdi[1..1 + k], tdi[1 + k..];
    assert tdi == t0 + t1 + t2;
    ReadBurstParts(Setup(m, crc, true, a, n, bytes), t0, t1, t2);
  }

  lemma ReadBurstParts(d: Dev, t0: BitString, t1: BitString, t2: BitString)
    requires d.Valid() && d.phase == 1 && d.isRead && d.word == Zeros(32) && d.wordCount == 0 && 0 < d.count < ADDRESSES
    requires |t0| == 1 && |t1| == 8 * d.wordBytes * d.count && |t2| == 32
    ensures Shifts(d, t0 + t1 + t2).1 == Stream(d.mem, d.addr, d.wordBytes, d.count)
    ensures Shifts(d, t0 + t1 + t2).0.phase == 4
  {
    var e := d.(phase := 2, crc := CRC_INIT);
    StartBit(d, t0);
    ShiftsConcat(d, t0, t1);
    ReadWords(e, t1, 8 * d.wordBytes, d.count);
    ShiftsConcat(d, t0 + t1, t2);
    var f := Shifts(e, t1).0;
    ReadCrc(f, t2);
    assert f.word[..32] == f.word;
  }

  /** The write engine between two words: nothing above the word's bits in the shift register. */
  ghost predicate WritesNext(d: Dev) {
    BetweenWords(d) && !d.isRead && d.word[8 * d.wordBytes..] == Zeros(32 - 8 * d.wordBytes)
  }

  lemma ShiftInLow(w: BitString, bits: int, b: bool)
    requires |w| == 32 && 0 < bits <= 32 && w[bits..] == Zeros(32 - bits)
    ensures ShiftIn(w, bits - 1, b) == w[1..bits] + [b] + Zeros(32 - bits)
  {
    forall k | bits <= k < 32 ensures !w[k] {
      assert w[k] == w[bits..][k - bits];
    }
  }

  /** The shift register after some bits of a word: the last bits in, with the older ones before them. */
  function Window(d: Dev, tdi: BitString): BitString
    requires d.Valid() && |tdi| <= 8 * d.wordBytes
  {
    var bits := 8 * d.wordBytes;
    (d.word[..bits] + tdi)[|tdi|..] + Zeros(32 - bits)
  }

  lemma WindowShift(d: Dev, tdi: BitString, b: bool)
    requires d.Valid() && |tdi| < 8 * d.wordBytes
    ensures |Window(d, tdi)| == 32 && ShiftIn(Window(d, tdi), 8 * d.wordBytes - 1, b) == Window(d, tdi + [b])
  {
    var bits := 8 * d.wordBytes;
    var w := Window(d, tdi);
    assert w[bits..] == Zeros(32 - bits);
    ShiftInLow(w, bits, b);
    assert w[1..bits] + [b] == (d.word[..bits] + (tdi + [b]))[|tdi| + 1..];
  }

  /** The write engine after some bits of a word. */
  ghost predicate WritingAt(d: Dev, tdi: BitString, e: Dev)
    requires d.Valid() && |tdi| <= 8 * d.wordBytes
  {
    e == d.(word := Window(d, tdi), wordCount := 8 * d.wordBytes - |tdi|)
  }

  lemma WriteFirst(d: Dev, b: bool)
    requires WritesNext(d)
    ensures WritingAt(d, [b], Shift(d, b).0)
  {
    WindowShift(d, [], b);
    assert Window(d, []) == d.word;
    assert [] + [b] == [b];
  }

  lemma WriteNext(d: Dev, tdi: BitString, b: bool, e: Dev)
    requires WritesNext(d) && 0 < |tdi| < 8 * d.wordBytes - 1 && e.Valid() && WritingAt(d, tdi, e)
    ensures WritingAt(d, tdi + [b], Shift(e, b).0)
  {
    WindowShift(d, tdi, b);
  }

  lemma {:induction false} WriteBits(d: Dev, tdi: BitString)
    requires WritesNext(d) && 0 < |tdi| < 8 * d.wordBytes
    ensures WritingAt(d, tdi, Shifts(d, tdi).0)
    decreases |tdi|
  {
    var j := |tdi| - 1;
    ShiftsLast(d, tdi, j);
    assert tdi[..j] + [tdi[j]] == tdi;
    if j == 0 {
      assert tdi[..0] == [] && tdi == [tdi[0]];
      NoShifts(d);
      WriteFirst(d, tdi[0]);
    } else {
      WriteBits(d, tdi[..j]);
      WriteNext(d, tdi[..j], tdi[j], Shifts(d, tdi[..j]).0);
    }
  }

  function AfterWrite(d: Dev, w: BitString): Dev
    requires d.Valid() && |w| == 8 * d.wordBytes
  {
    Store(d.(word := w + Zeros(32 - |w|), wordCount := 0))
  }

  lemma WriteLast(d: Dev, w: BitString, e: Dev)
    requires WritesNext(d) && |w| == 8 * d.wordBytes
    requires e == d.(word := Window(d, w[..|w| - 1]), wordCount := 1) && e.Valid()
    ensures WriteShift(e, w[|w| - 1]).0 == AfterWrite(d, w)
  {
    var n := |w| - 1;
    assert w[..n] + [w[n]] == w;
    WindowShift(d, w[..n], w[n]);
    assert (d.word[..|w|] + w)[|w|..] == w;
  }

  lemma WriteOneWord(d: Dev, w: BitString)
    requires WritesNext(d) && |w| == 8 * d.wordBytes
    ensures Shifts(d, w).0 == AfterWrite(d, w)
  {
    var n := |w| - 1;
    WriteBits(d, w[..n]);
    WriteLast(d, w, Shifts(d, w[..n]).0);
    ShiftsLast(d, w, n);
  }

  /** The memory after a write burst of the words in `p`. */
  function StoreAll(m: Memory, a: int, bytes: nat, n: nat, p: BitString): Memory
    decreases n
  {
    if n == 0 || |p| < 8 * bytes then m
    else StoreAll(WriteWord(m, a, bytes, p[..8 * bytes]), NextAddr(a, bytes), bytes, n - 1, p[8 * bytes..])
  }

  ghost predicate WritesAll(d: Dev, p: BitString, e: Dev)
    requires d.Valid()
  {
    && d.count >= 0 && e.Valid() && e.phase == 3 && e.wordCount == 32 && !e.isRead
    && e.crc == Crc(d.crc, p) && e.mem == StoreAll(d.mem, d.addr, d.wordBytes, d.count, p)
  }

  lemma AfterWriteIs(d: Dev, w: BitString)
    requires WritesNext(d) && |w| == 8 * d.wordBytes
    ensures
      var e := AfterWrite(d, w);
      && e.crc == Crc(d.crc, w) && e.mem == WriteWord(d.mem, d.addr, d.wordBytes, w)
      && e.addr == NextAddr(d.addr, d.wordBytes) && e.wordBytes == d.wordBytes && e.count == d.count - 1
      && if d.count == 1 then e.phase == 3 && e.wordCount == 32 && !e.isRead else WritesNext(e)
  {
    var v := w + Zeros(32 - |w|);
    assert v[..|w|] == w && v[|w|..] == Zeros(32 - |w|);
    CountsDown(d.count);
  }

  lemma CountsDown(c: int)
    requires 0 < c < ADDRESSES
    ensures NextCount(c) == c - 1
  {
  }

  lemma WritesOneMore(d: Dev, w: BitString, rest: BitString, e: Dev)
    requires WritesNext(d) && |w| == 8 * d.wordBytes && d.count > 1 && WritesAll(AfterWrite(d, w), rest, e)
    ensures WritesAll(d, w + rest, e)
  {
    AfterWriteIs(d, w);
    CrcOfStream(d.crc, w, rest);
    assert (w + rest)[..|w|] == w && (w + rest)[|w|..] == rest;
  }

  lemma WritesLast(d: Dev, w: BitString)
    requires WritesNext(d) && |w| == 8 * d.wordBytes && d.count == 1
    ensures WritesAll(d, w, AfterWrite(d, w))
  {
    AfterWriteIs(d, w);
    assert w[..|w|] == w && w[|w|..] == [];
  }

  lemma {:induction false} WriteWords(d: Dev, p: BitString, bits: int, n: nat)
    requires WritesNext(d) && bits == 8 * d.wordBytes && |p| == bits * n && d.count == n
    ensures WritesAll(d, p, Shifts(d, p).0)
    decreases n
  {
    Split(bits, n);
    if n == 1 {
      WriteOneWord(d, p);
      WritesLast(d, p);
    } else {
      var w, rest := p[..bits], p[bits..];
      assert p == w + rest;
      ShiftsConcat(d, w, rest);
      WriteOneWord(d, w);
      AfterWriteIs(d, w);
      var e := AfterWrite(d, w);
      WriteWords(e, rest, bits, n - 1);
      WritesOneMore(d, w, rest, Shifts(e, rest).0);
    }
  }

  /** The write engine `j` bits into the CRC. */
  ghost predicate CrcAt(d: Dev, q: BitString, e: Dev)
    requires d.Valid() && |q| <= 32
  {
    e == d.(word := d.word[|q|..] + q, wordCount := 32 - |q|, phase := if |q| == 32 then 4 else 3)
  }

  lemma WriteCrcBit(d: Dev, q: BitString, b: bool, e: Dev)
    requires d.Valid() && !d.isRead && d.phase == 3 && |q| < 32 && e.Valid() && CrcAt(d, q, e)
    ensures CrcAt(d, q + [b], Shift(e, b).0)
  {
    ShiftInLow(e.word, 32, b);
    assert e.word[1..32] + [b] + Zeros(0) == d.word[|q| + 1..] + (q + [b]);
  }

  lemma {:induction false} WriteCrc(d: Dev, q: BitString)
    requires d.Valid() && !d.isRead && d.phase == 3 && d.wordCount == 32 && |q| <= 32
    ensures CrcAt(d, q, Shifts(d, q).0)
    decreases |q|
  {
    if q == [] {
      assert d.word[0..] + [] == d.word;
    } else {
      var j := |q| - 1;
      WriteCrc(d, q[..j]);
      WriteCrcBit(d, q[..j], q[j], Shifts(d, q[..j]).0);
      assert q[..j] + [q[j]] == q;
    }
  }

  /** The device after the CRC tells whether it was right. */
  predicate Reports(e: Dev, crc: BitString, q: BitString, mem: Memory)
    requires e.Valid()
  {
    e.phase == 4 && e.mem == mem && Shift(e, false).1 == (crc == q) && Shift(e, false).0.phase == 0
  }

  lemma CrcReported(d: Dev, q: BitString)
    requires d.Valid() && !d.isRead && d.phase == 3 && d.wordCount == 32 && |q| == 32
    ensures Reports(Shifts(d, q).0, d.crc, q, d.mem)
  {
    WriteCrc(d, q);
    assert d.word[32..] + q == q;
  }

  lemma IdleBit(d: Dev)
    requires d.Valid() && d.phase == 1 && !d.isRead
    ensures Shifts(d, [false]) == (d, [false])
  {
    assert [false][..0] == [];
    NoShifts(d);
    assert [] + [false] == [false];
  }

  /** A write burst waits for its start bit: idle bits before it change nothing, and answer nothing. */
  lemma {:induction false} WaitsForStart(d: Dev, n: nat, s: BitString)
    requires d.Valid() && d.phase == 1 && !d.isRead
    ensures Shifts(d, Zeros(n) + s) == (Shifts(d, s).0, Zeros(n) + Shifts(d, s).1)
    decreases n
  {
    if n == 0 {
      assert Zeros(0) + s == s && Zeros(0) + Shifts(d, s).1 == Shifts(d, s).1;
    } else {
      var t := [false] + s;
      assert Zeros(n) + s == Zeros(n - 1) + t;
      WaitsForStart(d, n - 1, t);
      IdleBit(d);
      ShiftsConcat(d, [false], s);
      assert Zeros(n - 1) + ([false] + Shifts(d, s).1) == Zeros(n) + Shifts(d, s).1;
    }
  }

  /** The words of a write burst, after its start bit. */
  lemma WriteStart(d: Dev, p: BitString, bits: int)
    requires d.Valid() && d.phase == 1 && !d.isRead && d.word == Zeros(32) && d.wordCount == 0 && 0 < d.count < ADDRESSES
    requires bits == 8 * d.wordBytes && |p| == bits * d.count
    ensures WritesAll(d.(phase := 2, crc := CRC_INIT), p, Shifts(d, [true] + p).0)
  {
    var e := d.(phase := 2, crc := CRC_INIT);
    StartBit(d, [true]);
    ShiftsConcat(d, [true], p);
    ZerosTail(bits);
    WriteWords(e, p, bits, d.count);
  }

  /** A write burst stores its words, and reports in the end whether the CRC it received is theirs. */
  lemma WriteBurst(d: Dev, p: BitString, q: BitString, bits: int)
    requires d.Valid() && d.phase == 1 && !d.isRead && d.word == Zeros(32) && d.wordCount == 0 && 0 < d.count < ADDRESSES
    requires bits == 8 * d.wordBytes && |p| == bits * d.count && |q| == 32
    ensures Reports(Shifts(d, [true] + p + q).0, Crc(CRC_INIT, p), q, StoreAll(d.mem, d.addr, d.wordBytes, d.count, p))
  {
    WriteStart(d, p, bits);
    ShiftsConcat(d, [true] + p, q);
    CrcReported(Shifts(d, [true] + p).0, q);
  }

  /** A write burst that arrives with wrong bits, all within 32 bits in a row, is reported as wrong. */
  lemma DamageIsReported(d: Dev, before: BitString, p: BitString, q: BitString, after: BitString, bits: int)
    requires d.Valid() && d.phase == 1 && !d.isRead && d.word == Zeros(32) && d.wordCount == 0 && 0 < d.count < ADDRESSES
    requires bits == 8 * d.wordBytes && |before + p + after| == bits * d.count && |p| == |q| <= 32 && p != q
    ensures
      var e := Shifts(d, [true] + (before + p + after) + Crc(CRC_INIT, before + q + after)).0;
      e.Valid() && !Shift(e, false).1
  {
    WriteBurst(d, before + p + after, Crc(CRC_INIT, before + q + after), bits);
    DamageChangesCrc(CRC_INIT, before, p, q, after);
  }

  /** The address of the `k`-th word of a burst. */
  function AddrAt(a: int, bytes: nat, k: nat): int
    decreases k
  {
    if k == 0 then a else AddrAt(NextAddr(a, bytes), bytes, k - 1)
  }

  lemma NextAddrIs(a: int, n: int)
    requires 0 <= a < ADDRESSES && 0 <= n <= ADDRESSES
    ensures NextAddr(a, n) == if a + n < ADDRESSES then a + n else a + n - ADDRESSES
  {
  }

  lemma Times(k: int, n: int)
    requires k > 0 && n >= 0
    ensures k * n == n + (k - 1) * n && (k - 1) * n >= 0
  {
  }

  lemma {:induction false} AddrAtIs(a: int, bytes: nat, k: nat, d: int)
    requires 0 <= a < ADDRESSES && d == k * bytes && d < ADDRESSES
    ensures AddrAt(a, bytes, k) == if a + d < ADDRESSES then a + d else a + d - ADDRESSES
    decreases k
  {
    if k > 0 {
      Times(k, bytes);
      NextAddrIs(a, bytes);
      AddrAtIs(NextAddr(a, bytes), bytes, k - 1, d - bytes);
    }
  }

  /** The `k`-th word of a burst does not overlap the word at `x`. */
  predicate Apart(a: int, bytes: nat, k: nat, x: int) {
    AddrAt(a, bytes, k) + bytes <= x || AddrAt(a, bytes, k) >= x + bytes
  }

  /** Writing a burst elsewhere keeps a word. */
  lemma {:induction false} StoreElsewhere(m: Memory, a: int, bytes: nat, n: nat, p: BitString, x: int)
    requires forall k: nat :: k < n ==> Apart(a, bytes, k, x)
    ensures WordAt(StoreAll(m, a, bytes, n, p), x, bytes) == WordAt(m, x, bytes)
    decreases n
  {
    if n > 0 && |p| >= 8 * bytes {
      assert Apart(a, bytes, 0, x);
      WordElsewhere(m, a, bytes, p[..8 * bytes], x, bytes);
      var next := NextAddr(a, bytes);
      forall k: nat | k < n - 1 ensures Apart(next, bytes, k, x) {
        assert Apart(a, bytes, k + 1, x);
      }
      StoreElsewhere(WriteWord(m, a, bytes, p[..8 * bytes]), NextAddr(a, bytes), bytes, n - 1, p[8 * bytes..], x);
    }
  }

  lemma Between(k: int, n: int, b: int)
    requires 1 <= k <= n && b > 0
    ensures b <= k * b <= n * b
  {
    assert (n - k) * b >= 0 && (k - 1) * b >= 0;
    assert (n - k) * b == n * b - k * b && (k - 1) * b == k * b - b;
  }

  /** The words of a burst do not overlap, even where the address wraps around. */
  lemma WordsApart(a: int, bytes: nat, n: nat, k: nat)
    requires 0 <= a < ADDRESSES && bytes > 0 && k < n && n * bytes + bytes <= ADDRESSES
    ensures Apart(NextAddr(a, bytes), bytes, k, a)
  {
    assert AddrAt(a, bytes, k + 1) == AddrAt(NextAddr(a, bytes), bytes, k);
    Between(k + 1, n, bytes);
    AddrAtIs(a, bytes, k + 1, (k + 1) * bytes);
  }

  /** The rest of a burst leaves its first word alone. */
  lemma FirstWordStays(m: Memory, a: int, bytes: nat, n: nat, next: int, rest: BitString)
    requires 0 <= a < ADDRESSES && 0 < bytes && n * bytes + bytes <= ADDRESSES && next == NextAddr(a, bytes)
    ensures WordAt(StoreAll(m, next, bytes, n, rest), a, bytes) == WordAt(m, a, bytes)
  {
    forall k: nat | k < n ensures Apart(next, bytes, k, a) {
      WordsApart(a, bytes, n, k);
    }
    StoreElsewhere(m, next, bytes, n, rest, a);
  }

  /** Reading a written burst back gives the same words. */
  lemma {:induction false} PayloadReadBack(m: Memory, a: int, bytes: nat, n: nat, p: BitString, bits: int)
    requires 0 <= a < ADDRESSES && bytes > 0 && n * bytes <= ADDRESSES && bits == 8 * bytes && |p| == bits * n
    ensures Payload(StoreAll(m, a, bytes, n, p), a, bytes, n) == p
    decreases n
  {
    if n > 0 {
      Split(bits, n);
      Times(n, bytes);
      var w, rest := p[..bits], p[bits..];
      assert p == w + rest;
      NextAddrIs(a, bytes);
      PayloadReadBack(WriteWord(m, a, bytes, w), NextAddr(a, bytes), bytes, n - 1, rest, bits);
      FirstWordStays(WriteWord(m, a, bytes, w), a, bytes, n - 1, NextAddr(a, bytes), rest);
      ReadBack(m, a, bytes, w);
    }
  }

  /** Round trip: what a read burst puts on TDO, fed to a write burst, stores the same words and ends
      with a CRC match. */
  lemma RoundTrip(m1: Memory, a1: int, m2: Memory, a2: int, bytes: nat, n: int, crc: BitString)
    requires (bytes == 1 || bytes == 2 || bytes == 4) && 0 < n <= 0xffff && 0 <= a2 < ADDRESSES && |crc| == 32
    ensures
      var (e, _) := Shifts(Setup(m2, crc, false, a2, n, bytes), Stream(m1, a1, bytes, n));
      && Payload(e.mem, a2, bytes, n) == Payload(m1, a1, bytes, n)
      && Shift(e, false).1 && Shift(e, false).0.phase == 0
  {
    var p := Payload(m1, a1, bytes, n);
    PayloadLength(m1, a1, bytes, n);
    WriteBurst(Setup(m2, crc, false, a2, n, bytes), p, Crc(CRC_INIT, p), 8 * bytes);
    PayloadReadBack(m2, a2, bytes, n, p, 8 * bytes);
  }
}
