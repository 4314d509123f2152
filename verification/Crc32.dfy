/** The CRC-32 of apps/api/src/market/krakenBook.ts: the byte-table loop against the
    bit-serial shift register of section 8 of RFC 1952, and what the checksum detects.

    Exclusive-or facts are carried as the predicate IsXor, so that an induction passes them
    along by name and only the one-bit steps are decided on bits. */
module Crc32 {

  const ALL_ONES: bv32 := 0xffff_ffff

  // ---------- the shift register ----------

  /** One clock of the reflected shift register. */
  function Step(c: bv32): bv32 {
    if c & 1 == 1 then 0xedb8_8320 ^ (c >> 1) else c >> 1
  }

  function Steps(c: bv32, n: nat): bv32
    decreases n
  {
    if n == 0 then c else Steps(Step(c), n - 1)
  }

  function FeedBit(c: bv32, bit: bv32): bv32 { Step(c ^ bit) }

  /** Feed the low `n` bits of `x` into the register, least significant first, one clock a bit. */
  function FeedBits(c: bv32, x: bv32, n: nat): bv32
    decreases n
  {
    if n == 0 then c else FeedBits(FeedBit(c, x & 1), x >> 1, n - 1)
  }

  function Code(ch: char): bv32 { ch as bv32 }

  /** The byte a character contributes: the source masks the rest of its code away. */
  function LowByte(ch: char): bv32 { Code(ch) & 0xff }

  function FeedText(c: bv32, s: string): bv32
    decreases |s|
  {
    if s == "" then c else FeedText(FeedBits(c, LowByte(s[0]), 8), s[1..])
  }

  /** The bit-serial CRC-32: preset to ones, feed every bit, complement. */
  function BitSerial(s: string): bv32 {
    Complement(FeedText(ALL_ONES, s))
  }

  function Complement(c: bv32): bv32 { c ^ ALL_ONES }

  lemma EightBits(c: bv32, x: bv32)
    ensures var c4 := FeedBit(FeedBit(FeedBit(FeedBit(c, x & 1), (x >> 1) & 1), (x >> 1 >> 1) & 1), (x >> 1 >> 1 >> 1) & 1);
      var y := x >> 1 >> 1 >> 1 >> 1;
      FeedBits(c, x, 8) == FeedBit(FeedBit(FeedBit(FeedBit(c4, y & 1), (y >> 1) & 1), (y >> 1 >> 1) & 1), (y >> 1 >> 1 >> 1) & 1)
  {
    assert FeedBits(c, x, 8) == FeedBits(FeedBit(c, x & 1), x >> 1, 7);
  }

  /** The CRC-32 of one character, as a fixed point of the definition. */
  lemma KnownValue()
    ensures BitSerial("a") == 0xe8b7_be43
  {
    EightBits(ALL_ONES, 0x61);
    assert "a"[1..] == "";
    assert LowByte('a') == 0x61;
  }

  // ---------- the source's loops ----------

  /** The register holding i after eight clocks. */
  function Entry(i: nat): bv32
    requires i < 256
  {
    Steps(i as bv32, 8)
  }

  ghost predicate IsTable(t: seq<bv32>) {
    |t| == 256 && forall i :: 0 <= i < 256 ==> t[i] == Entry(i)
  }

  /** `CRC_TABLE`: entry n is the register holding n after eight clocks. */
  method BuildTable() returns (t: seq<bv32>)
    ensures IsTable(t)
  {
    hide Entry;
    t := [];
    while |t| < 256
      invariant |t| <= 256
      invariant forall i :: 0 <= i < |t| ==> t[i] == Entry(i)
    {
      var c := EightClocks(|t|);
      t := t + [c];
    }
  }

  method EightClocks(n: nat) returns (c: bv32)
    requires n < 256
    ensures c == Entry(n)
  {
    c := n as bv32;
    var k := 0;
    while k < 8
      invariant 0 <= k <= 8
      invariant Steps(c, 8 - k) == Entry(n)
    {
      c := Step(c);
      k := k + 1;
    }
    assert Steps(c, 0) == c;
  }

  /** The table index for one character: the low byte of register and code combined. */
  function Index(c: bv32, code: bv32): nat { ((c ^ code) & 0xff) as nat }

  lemma IndexBack(x: bv32)
    ensures (x as nat) as bv32 == x
  {
  }

  lemma IndexInTable(c: bv32, code: bv32)
    ensures Index(c, code) < 256
    ensures Index(c, code) as bv32 == (c ^ code) & 0xff
  {
    IndexBack((c ^ code) & 0xff);
  }

  lemma EntryIsEightClocks(c: bv32, code: bv32, index: nat, entry: bv32)
    requires index == Index(c, code) && index < 256
    requires entry == Entry(index)
    ensures FeedBits(c, code & 0xff, 8) == Combine(entry, c)
  {
    IndexInTable(c, code);
    LookUpIsEightClocks(c, code, index as bv32);
  }

  lemma EntryFeedsByte(c: bv32, ch: char, index: nat, entry: bv32)
    requires index == Index(c, Code(ch)) && index < 256
    requires entry == Entry(index)
    ensures FeedBits(c, LowByte(ch), 8) == Combine(entry, c)
  {
    EntryIsEightClocks(c, Code(ch), index, entry);
  }

  function Combine(entry: bv32, c: bv32): bv32 { entry ^ (c >> 8) }

  /** The look-up made for one character is eight clocks with its bits fed in. */
  function LookUp(c: bv32, ch: char, table: seq<bv32>): (next: bv32)
    requires IsTable(table)
    ensures next == FeedBits(c, LowByte(ch), 8)
  {
    hide Entry, Index;
    IndexInTable(c, Code(ch));
    var index := Index(c, Code(ch));
    EntryFeedsByte(c, ch, index, table[index]);
    Combine(table[index], c)
  }

  /** `crc32`: one table look-up a character. */
  method Compute(s: string, table: seq<bv32>) returns (crc: bv32)
    requires IsTable(table)
    ensures crc == BitSerial(s)
  {
    var c := ALL_ONES;
    var i := 0;
    while i < |s|
      invariant 0 <= i <= |s|
      invariant FeedText(c, s[i..]) == FeedText(ALL_ONES, s)
    {
      c := LookUp(c, s[i], table);
      i := i + 1;
    }
    crc := Complement(c);
  }

  // ---------- linearity ----------

  predicate IsXor(z: bv32, x: bv32, y: bv32) { z == x ^ y }

  lemma StepLinear(z: bv32, x: bv32, y: bv32)
    requires IsXor(z, x, y)
    ensures IsXor(Step(z), Step(x), Step(y))
  {
    if x & 1 == 1 {
      if y & 1 == 1 {} else {}
    } else {
      if y & 1 == 1 {} else {}
    }
  }

  /** Clocking is linear over exclusive-or. */
  lemma {:induction false} StepsLinear(z: bv32, x: bv32, y: bv32, n: nat)
    requires IsXor(z, x, y)
    ensures IsXor(Steps(z, n), Steps(x, n), Steps(y, n))
    decreases n
  {
    if n > 0 {
      StepLinear(z, x, y);
      StepsLinear(Step(z), Step(x), Step(y), n - 1);
    }
  }

  // ---------- feeding bits is combining them first ----------

  function ShiftRight(x: bv32, n: nat): bv32
    decreases n
  {
    if n == 0 then x else ShiftRight(x >> 1, n - 1)
  }

  lemma SplitLowBit(z: bv32, c: bv32, x: bv32, high: bv32)
    requires IsXor(z, c, x) && high == x & 0xffff_fffe
    ensures IsXor(z, c ^ (x & 1), high)
    ensures Step(high) == x >> 1
  {
  }

  lemma FeedOneBit(z: bv32, c: bv32, x: bv32)
    requires IsXor(z, c, x)
    ensures IsXor(Step(z), FeedBit(c, x & 1), x >> 1)
  {
    var high := x & 0xffff_fffe;
    SplitLowBit(z, c, x, high);
    StepLinear(z, c ^ (x & 1), high);
  }

  /** Clocking a register combined with `x` is feeding x's bits, up to the bits not yet fed. */
  lemma {:induction false} FeedIsSteps(z: bv32, c: bv32, x: bv32, n: nat)
    requires IsXor(z, c, x)
    ensures IsXor(Steps(z, n), FeedBits(c, x, n), ShiftRight(x, n))
    decreases n
  {
    if n > 0 {
      FeedOneBit(z, c, x);
      FeedIsSteps(Step(z), FeedBit(c, x & 1), x >> 1, n - 1);
    }
  }

  lemma XorZero(a: bv32, b: bv32, z: bv32)
    requires IsXor(a, b, z) && z == 0
    ensures a == b
  {
  }

  lemma ShiftRightEight(x: bv32)
    ensures ShiftRight(x, 8) == x >> 8
  {
    assert ShiftRight(x, 8) == ShiftRight(x >> 1, 7);
    assert ShiftRight(x >> 1, 7) == ShiftRight(x >> 2, 6);
    assert ShiftRight(x >> 2, 6) == ShiftRight(x >> 3, 5);
    assert ShiftRight(x >> 3, 5) == ShiftRight(x >> 4, 4);
    assert ShiftRight(x >> 4, 4) == ShiftRight(x >> 5, 3);
    assert ShiftRight(x >> 5, 3) == ShiftRight(x >> 6, 2);
    assert ShiftRight(x >> 6, 2) == ShiftRight(x >> 7, 1);
  }

  /** x's low `n` bits are zero. */
  predicate LowClear(x: bv32, n: nat)
    decreases n
  {
    n == 0 || (x & 1 == 0 && LowClear(x >> 1, n - 1))
  }

  lemma {:induction false} ClearBitsShift(x: bv32, n: nat)
    requires LowClear(x, n)
    ensures Steps(x, n) == ShiftRight(x, n)
    decreases n
  {
    if n > 0 {
      ClearBitsShift(x >> 1, n - 1);
    }
  }

  lemma ClearByte(x: bv32)
    requires x & 0xff == 0
    ensures LowClear(x, 8)
  {
    assert LowClear(x >> 8, 0);
    assert LowClear(x >> 7, 1);
    assert LowClear(x >> 6, 2);
    assert LowClear(x >> 5, 3);
    assert LowClear(x >> 4, 4);
    assert LowClear(x >> 3, 5);
    assert LowClear(x >> 2, 6);
    assert LowClear(x >> 1, 7);
  }

  lemma SplitRegister(c: bv32, code: bv32)
    ensures IsXor(c ^ (code & 0xff), (c ^ code) & 0xff, c & 0xffff_ff00)
    ensures IsXor(c ^ (code & 0xff), c, code & 0xff)
    ensures (code & 0xff) >> 8 == 0
    ensures (c & 0xffff_ff00) & 0xff == 0 && (c & 0xffff_ff00) >> 8 == c >> 8
  {
  }

  lemma LookUpIsEightClocks(c: bv32, code: bv32, index: bv32)
    requires index == (c ^ code) & 0xff
    ensures index < 256
    ensures IsXor(FeedBits(c, code & 0xff, 8), Steps(index, 8), c >> 8)
  {
    var z, x, hi := c ^ (code & 0xff), code & 0xff, c & 0xffff_ff00;
    SplitRegister(c, code);
    FeedIsSteps(z, c, x, 8);
    ShiftRightEight(x);
    XorZero(Steps(z, 8), FeedBits(c, x, 8), ShiftRight(x, 8));
    StepsLinear(z, index, hi, 8);
    ClearByte(hi);
    ClearBitsShift(hi, 8);
    ShiftRightEight(hi);
  }

  // ---------- what the checksum detects ----------

  lemma StepInjective(x: bv32, y: bv32)
    requires Step(x) == Step(y)
    ensures x == y
  {
    if x & 1 == 1 {
      if y & 1 == 1 {} else {}
    } else {
      if y & 1 == 1 {} else {}
    }
  }

  lemma {:induction false} StepsInjective(x: bv32, y: bv32, n: nat)
    requires Steps(x, n) == Steps(y, n)
    ensures x == y
    decreases n
  {
    if n > 0 {
      StepsInjective(Step(x), Step(y), n - 1);
      StepInjective(x, y);
    }
  }

  lemma XorCancels(z: bv32, c: bv32, d: bv32, x: bv32)
    requires IsXor(z, c, x) && IsXor(z, d, x)
    ensures c == d
  {
  }

  lemma FeedBitInjective(c: bv32, d: bv32, bit: bv32)
    requires FeedBit(c, bit) == FeedBit(d, bit)
    ensures c == d
  {
    StepInjective(c ^ bit, d ^ bit);
    XorCancels(c ^ bit, c, d, bit);
  }

  lemma {:induction false} FeedBitsInjective(c: bv32, d: bv32, x: bv32, n: nat)
    requires FeedBits(c, x, n) == FeedBits(d, x, n)
    ensures c == d
    decreases n
  {
    if n > 0 {
      FeedBitsInjective(FeedBit(c, x & 1), FeedBit(d, x & 1), x >> 1, n - 1);
      FeedBitInjective(c, d, x & 1);
    }
  }

  /** After a common tail, registers agree only if they agreed before it. */
  lemma {:induction false} FeedTextInjective(c: bv32, d: bv32, s: string)
    ensures FeedText(c, s) == FeedText(d, s) <==> c == d
    decreases |s|
  {
    if s != "" {
      FeedTextInjective(FeedBits(c, LowByte(s[0]), 8), FeedBits(d, LowByte(s[0]), 8), s[1..]);
      if FeedBits(c, LowByte(s[0]), 8) == FeedBits(d, LowByte(s[0]), 8) {
        FeedBitsInjective(c, d, LowByte(s[0]), 8);
      }
    }
  }

  lemma {:induction false} FeedTextConcat(c: bv32, s: string, t: string)
    ensures FeedText(c, s + t) == FeedText(FeedText(c, s), t)
    decreases |s|
  {
    if s == "" {
      assert s + t == t;
    } else {
      assert (s + t)[1..] == s[1..] + t;
      FeedTextConcat(FeedBits(c, LowByte(s[0]), 8), s[1..], t);
    }
  }

  /** Up to four characters as one word, the first in the low byte. */
  function Word(s: string): bv32
    decreases |s|
  {
    if s == "" then 0 else Pack(LowByte(s[0]), Word(s[1..]))
  }

  function Pack(low: bv32, rest: bv32): bv32 { low | (rest << 8) }

  function PackedLow(w: bv32): bv32 { w & 0xff }

  function PackedRest(w: bv32): bv32 { w >> 8 }

  /** x and y agree on their low `n` bits. */
  predicate SameLow(x: bv32, y: bv32, n: nat)
    decreases n
  {
    n == 0 || (x & 1 == y & 1 && SameLow(x >> 1, y >> 1, n - 1))
  }

  lemma {:induction false} FeedSameLow(c: bv32, x: bv32, y: bv32, n: nat)
    requires SameLow(x, y, n)
    ensures FeedBits(c, x, n) == FeedBits(c, y, n)
    decreases n
  {
    if n > 0 {
      FeedSameLow(FeedBit(c, x & 1), x >> 1, y >> 1, n - 1);
    }
  }

  lemma SameByte(x: bv32, y: bv32)
    requires PackedLow(x) == PackedLow(y)
    ensures SameLow(x, y, 8)
  {
    assert SameLow(x >> 8, y >> 8, 0);
    assert SameLow(x >> 7, y >> 7, 1);
    assert SameLow(x >> 6, y >> 6, 2);
    assert SameLow(x >> 5, y >> 5, 3);
    assert SameLow(x >> 4, y >> 4, 4);
    assert SameLow(x >> 3, y >> 3, 5);
    assert SameLow(x >> 2, y >> 2, 6);
    assert SameLow(x >> 1, y >> 1, 7);
  }

  lemma {:induction false} FeedBitsConcat(c: bv32, x: bv32, m: nat, n: nat)
    ensures FeedBits(c, x, m + n) == FeedBits(FeedBits(c, x, m), ShiftRight(x, m), n)
    decreases m
  {
    if m > 0 {
      FeedBitsConcat(FeedBit(c, x & 1), x >> 1, m - 1, n);
    }
  }

  lemma {:induction false} ShiftRightConcat(x: bv32, m: nat, n: nat)
    ensures ShiftRight(x, m + n) == ShiftRight(ShiftRight(x, m), n)
    decreases m
  {
    if m > 0 {
      ShiftRightConcat(x >> 1, m - 1, n);
    }
  }

  lemma SplitWord(b: bv32, rest: bv32)
    requires b & 0xff == b && rest & 0xff00_0000 == 0
    ensures PackedLow(Pack(b, rest)) == b
    ensures PackedRest(Pack(b, rest)) == rest
  {
  }

  /** A word of n characters has nothing above bit 8n. */
  lemma {:induction false} WordFits(s: string)
    requires |s| <= 4
    ensures |s| <= 3 ==> Word(s) & 0xff00_0000 == 0
    ensures |s| <= 2 ==> Word(s) & 0xffff_0000 == 0
    ensures |s| <= 1 ==> Word(s) & 0xffff_ff00 == 0
    decreases |s|
  {
    if s != "" {
      WordFits(s[1..]);
    }
  }

  lemma FeedPacked(c: bv32, w: bv32, b: bv32, rest: bv32)
    requires b & 0xff == b && rest & 0xff00_0000 == 0 && w == Pack(b, rest)
    ensures FeedBits(c, w, 8) == FeedBits(c, b, 8)
    ensures ShiftRight(w, 8) == rest
  {
    SplitWord(b, rest);
    ShiftRightEight(w);
    assert PackedLow(b) == b;
    SameByte(w, b);
    FeedSameLow(c, w, b, 8);
  }

  lemma LowByteIsByte(ch: char)
    ensures LowByte(ch) & 0xff == LowByte(ch)
  {
  }

  lemma FirstCharacter(c: bv32, s: string)
    requires 1 <= |s| <= 4
    ensures FeedBits(c, Word(s), 8) == FeedBits(c, LowByte(s[0]), 8)
    ensures ShiftRight(Word(s), 8) == Word(s[1..])
  {
    WordFits(s[1..]);
    LowByteIsByte(s[0]);
    FeedPacked(c, Word(s), LowByte(s[0]), Word(s[1..]));
  }

  lemma ThenRest(c: bv32, w: bv32, d: bv32, v: bv32, n: nat)
    requires FeedBits(c, w, 8) == d && ShiftRight(w, 8) == v
    ensures FeedBits(c, w, 8 + n) == FeedBits(d, v, n)
    ensures ShiftRight(w, 8 + n) == ShiftRight(v, n)
  {
    FeedBitsConcat(c, w, 8, n);
    ShiftRightConcat(w, 8, n);
    hide FeedBits, ShiftRight;
  }

  lemma FeedNothing(c: bv32)
    ensures FeedText(c, "") == FeedBits(c, Word(""), 0) && UsedUp(Word(""), 0)
  {
  }

  predicate UsedUp(w: bv32, n: nat) { ShiftRight(w, n) == 0 }

  lemma NextCharacter(c: bv32, s: string, n: nat)
    requires 1 <= |s| <= 4
    ensures var d := FeedBits(c, LowByte(s[0]), 8);
      && FeedText(c, s) == FeedText(d, s[1..])
      && FeedBits(c, Word(s), 8 + n) == FeedBits(d, Word(s[1..]), n)
      && UsedUp(Word(s), 8 + n) == UsedUp(Word(s[1..]), n)
  {
    hide FeedBits, ShiftRight, Word, LowByte;
    FirstCharacter(c, s);
    ThenRest(c, Word(s), FeedBits(c, LowByte(s[0]), 8), Word(s[1..]), n);
  }

  /** Feeding up to four characters is feeding the bits of their word, and uses it up. */
  lemma {:induction false} FeedWord(c: bv32, s: string)
    requires |s| <= 4
    ensures FeedText(c, s) == FeedBits(c, Word(s), 8 * |s|) && UsedUp(Word(s), 8 * |s|)
    decreases |s|
  {
    hide FeedBits, FeedText, ShiftRight, Word, LowByte, UsedUp;
    if s == "" {
      FeedNothing(c);
    } else {
      var n := 8 * |s[1..]|;
      NextCharacter(c, s, n);
      FeedWord(FeedBits(c, LowByte(s[0]), 8), s[1..]);
      assert 8 + n == 8 * |s|;
    }
  }

  predicate SameLowBytes(a: string, b: string) {
    |a| == |b| && forall i :: 0 <= i < |a| ==> LowByte(a[i]) == LowByte(b[i])
  }

  lemma SameLowBytesFirst(a: string, b: string)
    requires 1 <= |a| == |b|
    ensures SameLowBytes(a, b) <==> LowByte(a[0]) == LowByte(b[0]) && SameLowBytes(a[1..], b[1..])
  {
    assert a == [a[0]] + a[1..] && b == [b[0]] + b[1..];
  }

  lemma JoinInjective(x: bv32, xs: bv32, y: bv32, ys: bv32)
    requires x & 0xff == x && xs & 0xff00_0000 == 0
    requires y & 0xff == y && ys & 0xff00_0000 == 0
    ensures Pack(x, xs) == Pack(y, ys) <==> x == y && xs == ys
  {
    SplitWord(x, xs);
    SplitWord(y, ys);
  }

  lemma WordFirst(a: string, b: string)
    requires 1 <= |a| == |b| <= 4
    ensures Word(a) == Word(b) <==> LowByte(a[0]) == LowByte(b[0]) && Word(a[1..]) == Word(b[1..])
  {
    WordFits(a[1..]);
    WordFits(b[1..]);
    LowByteIsByte(a[0]);
    LowByteIsByte(b[0]);
    JoinInjective(LowByte(a[0]), Word(a[1..]), LowByte(b[0]), Word(b[1..]));
  }

  lemma {:induction false} WordDeterminesBytes(a: string, b: string)
    requires |a| == |b| <= 4
    ensures Word(a) == Word(b) <==> SameLowBytes(a, b)
    decreases |a|
  {
    if a != "" {
      WordFirst(a, b);
      WordDeterminesBytes(a[1..], b[1..]);
      SameLowBytesFirst(a, b);
    }
  }

  lemma WordsGiveRegisters(c: bv32, x: bv32, y: bv32, n: nat)
    requires ShiftRight(x, n) == 0 && ShiftRight(y, n) == 0
    ensures FeedBits(c, x, n) == FeedBits(c, y, n) <==> x == y
  {
    if FeedBits(c, x, n) == FeedBits(c, y, n) {
      var zx, zy := c ^ x, c ^ y;
      FeedIsSteps(zx, c, x, n);
      FeedIsSteps(zy, c, y, n);
      XorZero(Steps(zx, n), FeedBits(c, x, n), ShiftRight(x, n));
      XorZero(Steps(zy, n), FeedBits(c, y, n), ShiftRight(y, n));
      StepsInjective(zx, zy, n);
      XorCancels(zx, x, y, c);
    }
  }

  lemma BurstInRegister(c: bv32, a: string, b: string, after: string)
    requires |a| == |b| <= 4
    ensures FeedText(c, a + after) == FeedText(c, b + after) <==> SameLowBytes(a, b)
  {
    FeedTextConcat(c, a, after);
    FeedTextConcat(c, b, after);
    FeedTextInjective(FeedText(c, a), FeedText(c, b), after);
    FeedWord(c, a);
    FeedWord(c, b);
    WordsGiveRegisters(c, Word(a), Word(b), 8 * |a|);
    WordDeterminesBytes(a, b);
  }

  /** Two texts of one length that differ only inside a window of at most four characters (a
      32-bit burst) get one checksum exactly when the bytes in the window agree. */
  lemma BurstDetected(before: string, a: string, b: string, after: string)
    requires |a| == |b| <= 4
    ensures BitSerial(before + (a + after)) == BitSerial(before + (b + after)) <==> SameLowBytes(a, b)
  {
    var c := FeedText(ALL_ONES, before);
    FeedTextConcat(ALL_ONES, before, a + after);
    FeedTextConcat(ALL_ONES, before, b + after);
    BurstInRegister(c, a, b, after);
    ComplementInjective(FeedText(c, a + after), FeedText(c, b + after));
  }

  lemma ComplementInjective(x: bv32, y: bv32)
    ensures Complement(x) == Complement(y) <==> x == y
  {
  }
}
