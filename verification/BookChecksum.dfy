/** What comparing checksums catches: a corrupted price or quantity among the top ten levels of
    a side changes the book's checksum (apps/api/src/market/krakenBook.ts). */
module BookChecksum {
  import opened DecimalText
  import opened BookSide
  import opened KrakenBook
  import opened Crc32

  lemma {:induction false} FlattenSplit(texts: seq<string>, i: nat)
    requires i < |texts|
    ensures Flatten(texts) == Flatten(texts[..i]) + (texts[i] + Flatten(texts[i + 1..]))
  {
    if i == 0 {
      EmptyConcat(Flatten(texts));
    } else {
      FlattenSplit(texts[1..], i - 1);
      assert texts[..i][1..] == texts[1..][..i - 1];
      assert texts[1..][i..] == texts[i + 1..];
      ConcatAssoc(texts[0], Flatten(texts[1..][..i - 1]), texts[i] + Flatten(texts[i + 1..]));
    }
  }

  lemma DigitByte(c: char)
    requires IsDigit(c)
    ensures LowByte(c) as nat == c as nat
  {
    if c == '0' {
    } else if c == '1' {
    } else if c == '2' {
    } else if c == '3' {
    } else if c == '4' {
    } else if c == '5' {
    } else if c == '6' {
    } else if c == '7' {
    } else if c == '8' {
    } else {
      assert c == '9';
    }
  }

  lemma DigitBytesDiffer(c: char, d: char)
    requires IsDigit(c) && IsDigit(d)
    ensures LowByte(c) == LowByte(d) <==> c == d
  {
    DigitByte(c);
    DigitByte(d);
  }

  lemma DigitTextsDiffer(x: string, y: string)
    requires Digits(x) && Digits(y) && |x| == |y| && x != y
    ensures !SameLowBytes(x, y)
  {
    var i :| 0 <= i < |x| && x[i] != y[i];
    DigitBytesDiffer(x[i], y[i]);
  }

  /** A corruption of at most four adjacent digits anywhere in the checksum text. */
  lemma CorruptionDetected(before: string, x: string, y: string, after: string)
    requires Digits(x) && Digits(y) && |x| == |y| <= 4 && x != y
    ensures BitSerial(before + (x + after)) != BitSerial(before + (y + after))
  {
    DigitTextsDiffer(x, y);
    BurstDetected(before, x, y, after);
  }

  lemma Regroup(a: string, u: string, x: string, v: string, b: string)
    ensures a + ((u + (x + v)) + b) == (a + u) + (x + (v + b))
  {
  }

  /** The corrupted text sits somewhere in `before` ++ texts ++ `after`. */
  lemma CorruptedTextDetected(before: string, texts: seq<string>, i: nat, t: string,
                              u: string, x: string, y: string, v: string, after: string)
    requires i < |texts| && texts[i] == u + (x + v) && t == u + (y + v)
    requires Digits(x) && Digits(y) && |x| == |y| <= 4 && x != y
    ensures BitSerial(before + (Flatten(texts) + after)) != BitSerial(before + (Flatten(texts[i := t]) + after))
  {
    var other := texts[i := t];
    FlattenSplit(texts, i);
    FlattenSplit(other, i);
    assert other[..i] == texts[..i] && other[i + 1..] == texts[i + 1..];
    var front, back := Flatten(texts[..i]), Flatten(texts[i + 1..]);
    RegroupAround(before, front, u + (x + v), back, after);
    RegroupAround(before, front, u + (y + v), back, after);
    Regroup(before + front, u, x, v, back + after);
    Regroup(before + front, u, y, v, back + after);
    CorruptionDetected((before + front) + u, x, y, v + (back + after));
  }

  lemma RegroupAround(a: string, f: string, t: string, b: string, z: string)
    ensures a + ((f + (t + b)) + z) == (a + f) + (t + (b + z))
  {
  }

  lemma TopWith(levels: seq<Level>, i: nat, l: Level, precision: Precision)
    requires i < |levels| && i < CHECKSUM_LEVELS
    ensures TopTexts(levels[i := l], precision) == TopTexts(levels, precision)[i := LevelText(l, precision)]
  {
  }

  /** A wrong price or quantity among the ten best asks, off in at most four adjacent digits of
      its checksum fields, gives the book another checksum ... */
  lemma CorruptedAskDetected(b: Book, i: nat, l: Level, precision: Precision,
                             u: string, x: string, y: string, v: string)
    requires i < CHECKSUM_LEVELS && i < |b.asks|
    requires LevelText(b.asks[i], precision) == u + (x + v) && LevelText(l, precision) == u + (y + v)
    requires Digits(x) && Digits(y) && |x| == |y| <= 4 && x != y
    ensures Checksum(b, precision) != Checksum(Book(b.bids, b.asks[i := l]), precision)
  {
    var asks, bids := TopTexts(b.asks, precision), Flatten(TopTexts(b.bids, precision));
    TopWith(b.asks, i, l, precision);
    CorruptedTextDetected("", asks, i, LevelText(l, precision), u, x, y, v, bids);
    EmptyConcat(Flatten(asks) + bids);
    EmptyConcat(Flatten(asks[i := LevelText(l, precision)]) + bids);
  }

  /** ... and so does one among the ten best bids. */
  lemma CorruptedBidDetected(b: Book, i: nat, l: Level, precision: Precision,
                             u: string, x: string, y: string, v: string)
    requires i < CHECKSUM_LEVELS && i < |b.bids|
    requires LevelText(b.bids[i], precision) == u + (x + v) && LevelText(l, precision) == u + (y + v)
    requires Digits(x) && Digits(y) && |x| == |y| <= 4 && x != y
    ensures Checksum(b, precision) != Checksum(Book(b.bids[i := l], b.asks), precision)
  {
    var asks, bids := Flatten(TopTexts(b.asks, precision)), TopTexts(b.bids, precision);
    TopWith(b.bids, i, l, precision);
    CorruptedTextDetected(asks, bids, i, LevelText(l, precision), u, x, y, v, "");
    ConcatEmpty(Flatten(bids));
    ConcatEmpty(Flatten(bids[i := LevelText(l, precision)]));
  }

  lemma ConcatEmpty(a: string)
    ensures a + "" == a
  {
  }

  // ---------- one checksum in figures ----------

  lemma OneCharacter(c: bv32, ch: char, x: bv32, rest: string)
    requires LowByte(ch) == x
    ensures FeedText(c, [ch] + rest) == FeedText(FeedBits(c, x, 8), rest)
  {
    assert ([ch] + rest)[1..] == rest;
  }

  lemma NothingFed(c: bv32)
    ensures FeedText(c, "") == c
  {
  }

  lemma KnownCodes()
    ensures LowByte('3') == 0x33 && LowByte('2') == 0x32 && LowByte('1') == 0x31 && LowByte('4') == 0x34
  {
  }

  lemma KnownBytes()
    ensures FeedBits(ALL_ONES, 0x33, 8) == 0x922d_7164 && FeedBits(0x922d_7164, 0x32, 8) == 0x829a_d9b0
    ensures FeedBits(0x829a_d9b0, 0x31, 8) == 0x9a3d_296f && FeedBits(0x9a3d_296f, 0x34, 8) == 0xfc23_b555
    ensures Complement(0xfc23_b555) == 0x03dc_4aaa
  {
    EightBits(ALL_ONES, 0x33);
    EightBits(0x922d_7164, 0x32);
    EightBits(0x829a_d9b0, 0x31);
    EightBits(0x9a3d_296f, 0x34);
  }

  /** Four digits, fed one by one. */
  lemma KnownText(text: string)
    requires text == ['3'] + (['2'] + (['1'] + (['4'] + "")))
    ensures BitSerial(text) == 0x03dc_4aaa
  {
    hide FeedText, FeedBits, LowByte, Complement;
    KnownCodes();
    KnownBytes();
    OneCharacter(ALL_ONES, '3', 0x33, ['2'] + (['1'] + (['4'] + "")));
    OneCharacter(0x922d_7164, '2', 0x32, ['1'] + (['4'] + ""));
    OneCharacter(0x829a_d9b0, '1', 0x31, ['4'] + "");
    OneCharacter(0x9a3d_296f, '4', 0x34, "");
    NothingFed(0xfc23_b555);
  }

  lemma OneDigitField(c: char)
    requires '1' <= c <= '9'
    ensures ChecksumField([c], 0) == [c]
  {
    assert [c][1..] == "";
    assert DotIndex([c]) == 1;
    assert IntPart([c]) == [c] && FracPart([c]) == "" && PadZeros("", 0) == "";
    assert [c] + "" == [c];
  }

  /** The text of a side with one level of one-digit fields. */
  lemma OneLevelText(price: char, qty: char, numeric: Numeric)
    requires '1' <= price <= '9' && '1' <= qty <= '9'
    ensures Flatten(TopTexts([Level([price], [qty], numeric)], Precision(0, 0))) == [price] + [qty]
  {
    OneDigitField(price);
    OneDigitField(qty);
    hide ChecksumField;
    var l := Level([price], [qty], numeric);
    assert LevelText(l, Precision(0, 0)) == [price] + [qty];
    hide LevelText;
    assert TopTexts([l], Precision(0, 0)) == [LevelText(l, Precision(0, 0))];
    FlattenOne(LevelText(l, Precision(0, 0)));
  }

  /** An ask of 2 at 3 and a bid of 4 at 1: the CRC of 3214, asks before bids and prices before
      quantities. */
  lemma KnownChecksum()
    ensures var ask, bid := Level("3", "2", Numeric(3.0, 2.0)), Level("1", "4", Numeric(1.0, 4.0));
      Checksum(Book([bid], [ask]), Precision(0, 0)) == 0x03dc_4aaa
  {
    hide TopTexts, Flatten, BitSerial;
    OneLevelText('3', '2', Numeric(3.0, 2.0));
    OneLevelText('1', '4', Numeric(1.0, 4.0));
    assert ['3'] == "3" && ['2'] == "2" && ['1'] == "1" && ['4'] == "4";
    var text := ['3'] + ['2'] + (['1'] + ['4']);
    assert text == ['3'] + (['2'] + (['1'] + (['4'] + "")));
    KnownText(text);
  }
}
