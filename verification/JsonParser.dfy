/** A reader for canonical JSON text (RFC 8259 without insignificant white space), and the proof
    that it reads back the meaning of whatever the canonical printer prints, with the keys of every
    object in order. */
module JsonParser {
  import opened Wrappers
  import opened CanonicalJson

  // ---------- what is read ----------

  /** A JSON text as it stands: an object's members in the order of the text. */
  datatype Tree =
    | TNull
    | TBool(b: bool)
    | TNumber(text: Text)
    | TString(s: Text)
    | TArray(items: seq<Tree>)
    | TObject(members: seq<Entry>)

  datatype Entry = Entry(key: Text, value: Tree)

  /** What the text denotes, the order of members left out. */
  function Denotes(tree: Tree): Value {
    match tree
    case TNull => VNull
    case TBool(b) => VBool(b)
    case TNumber(text) => VNumber(text)
    case TString(s) => VString(s)
    case TArray(items) => VArray(AllDenote(items))
    case TObject(members) => VObject(EntryMap(members))
  }

  function AllDenote(items: seq<Tree>): (r: seq<Value>)
    ensures |r| == |items|
  {
    if items == [] then [] else [Denotes(items[0])] + AllDenote(items[1..])
  }

  function EntryMap(members: seq<Entry>): map<Text, Value> {
    if members == [] then map[] else EntryMap(members[1..])[members[0].key := Denotes(members[0].value)]
  }

  /** The texts are the same up to i, and there a has the smaller code unit, or ends and b goes on. */
  predicate DecidedAt(a: Text, b: Text, i: int) {
    && 0 <= i <= |a| && i < |b| && (i == |a| || a[i] < b[i])
    && forall j :: 0 <= j < i ==> a[j] == b[j]
  }

  ghost predicate Precedes(a: Text, b: Text) { exists i :: DecidedAt(a, b, i) }

  /** In every object, at every depth, each key precedes all that come after it. */
  ghost predicate KeysIncrease(tree: Tree) {
    match tree
    case TArray(items) => forall item :: item in items ==> KeysIncrease(item)
    case TObject(members) =>
      && (forall i, j :: 0 <= i < j < |members| ==> Precedes(members[i].key, members[j].key))
      && forall m :: m in members ==> KeysIncrease(m.value)
    case _ => true
  }

  // ---------- the reader ----------

  function HexValue(c: CodeUnit): int {
    if 48 <= c <= 57 then c - 48
    else if 97 <= c <= 102 then c - 87
    else if 65 <= c <= 70 then c - 55
    else -1
  }

  function Unescape(c: CodeUnit): CodeUnit {
    if c == 98 then 8
    else if c == 116 then 9
    else if c == 110 then 10
    else if c == 102 then 12
    else if c == 114 then 13
    else if c in {QUOTE, BACKSLASH, 47} then c
    else 0
  }

  function Prepend(c: CodeUnit, r: Option<(Text, Text)>): Option<(Text, Text)> {
    if r.None? then None else Some(([c] + r.value.0, r.value.1))
  }

  /** The characters of a string up to and past its closing quote. */
  function ParseChars(t: Text): (r: Option<(Text, Text)>)
    ensures r.Some? ==> |r.value.1| < |t|
    decreases |t|
  {
    if t == [] then None
    else if t[0] == QUOTE then Some(([], t[1..]))
    else if t[0] == BACKSLASH then
      if |t| < 2 then None
      else if t[1] == 117 then
        if |t| < 6 || HexValue(t[2]) < 0 || HexValue(t[3]) < 0 || HexValue(t[4]) < 0 || HexValue(t[5]) < 0 then None
        else Prepend(4096 * HexValue(t[2]) + 256 * HexValue(t[3]) + 16 * HexValue(t[4]) + HexValue(t[5]),
                     ParseChars(t[6..]))
      else if Unescape(t[1]) == 0 then None
      else Prepend(Unescape(t[1]), ParseChars(t[2..]))
    else if t[0] < 0x20 then None
    else Prepend(t[0], ParseChars(t[1..]))
  }

  predicate IsNumberChar(c: CodeUnit) { IsDigit(c) || c in {43, 45, 46, 69, 101} }

  function TakeNumber(t: Text): (n: Text)
    ensures n <= t
  {
    if t != [] && IsNumberChar(t[0]) then [t[0]] + TakeNumber(t[1..]) else []
  }

  function ParseTree(t: Text): (r: Option<(Tree, Text)>)
    ensures r.Some? ==> |r.value.1| < |t|
    decreases |t|, 0
  {
    if t == [] then None
    else if LIT_NULL <= t then Some((TNull, t[4..]))
    else if LIT_TRUE <= t then Some((TBool(true), t[4..]))
    else if LIT_FALSE <= t then Some((TBool(false), t[5..]))
    else if t[0] == QUOTE then
      var s := ParseChars(t[1..]);
      if s.None? then None else Some((TString(s.value.0), s.value.1))
    else if t[0] == OPEN_ARRAY then
      if |t| > 1 && t[1] == CLOSE_ARRAY then Some((TArray([]), t[2..]))
      else
        var items := ParseItems(t[1..]);
        if items.None? then None else Some((TArray(items.value.0), items.value.1))
    else if t[0] == OPEN_OBJECT then
      if |t| > 1 && t[1] == CLOSE_OBJECT then Some((TObject([]), t[2..]))
      else
        var members := ParseMembers(t[1..]);
        if members.None? then None else Some((TObject(members.value.0), members.value.1))
    else
      var n := TakeNumber(t);
      if n != [] && NumberText(n) then Some((TNumber(n), t[|n|..])) else None
  }

  /** One or more values up to and past the closing bracket. */
  function ParseItems(t: Text): (r: Option<(seq<Tree>, Text)>)
    ensures r.Some? ==> |r.value.1| < |t|
    decreases |t|, 1
  {
    var first := ParseTree(t);
    if first.None? || first.value.1 == [] then None
    else
      var (v, r) := first.value;
      if r[0] == CLOSE_ARRAY then Some(([v], r[1..]))
      else if r[0] != COMMA then None
      else
        var rest := ParseItems(r[1..]);
        if rest.None? then None else Some(([v] + rest.value.0, rest.value.1))
  }

  /** One or more members up to and past the closing brace. */
  function ParseMembers(t: Text): (r: Option<(seq<Entry>, Text)>)
    ensures r.Some? ==> |r.value.1| < |t|
    decreases |t|, 1
  {
    if t == [] || t[0] != QUOTE then None
    else
      var key := ParseChars(t[1..]);
      if key.None? || key.value.1 == [] || key.value.1[0] != COLON then None
      else
        var first := ParseTree(key.value.1[1..]);
        if first.None? || first.value.1 == [] then None
        else
          var (v, r) := first.value;
          if r[0] == CLOSE_OBJECT then Some(([Entry(key.value.0, v)], r[1..]))
          else if r[0] != COMMA then None
          else
            var rest := ParseMembers(r[1..]);
            if rest.None? then None else Some(([Entry(key.value.0, v)] + rest.value.0, rest.value.1))
  }

  // ---------- strings ----------

  lemma HexRoundTrip(n: int)
    requires 0 <= n < 16
    ensures HexValue(HexDigit(n)) == n
  {
  }

  lemma HexSplit(c: CodeUnit)
    ensures 0 <= c / 16 / 16 / 16 < 16
    ensures c == 4096 * (c / 16 / 16 / 16) + 256 * (c / 16 / 16 % 16) + 16 * (c / 16 % 16) + c % 16
  {
    var d := c / 16;
    var e := d / 16;
    assert c == 16 * d + c % 16 && d == 16 * e + d % 16 && e == 16 * (e / 16) + e % 16;
  }

  lemma ReadUnit(c: CodeUnit, rest: Text)
    requires !IsLead(c) && !IsTrail(c)
    ensures ParseChars(EscapeUnit(c) + rest) == Prepend(c, ParseChars(rest))
  {
    var t := EscapeUnit(c) + rest;
    if ShortEscape(c) != 0 {
      assert t[2..] == rest;
    } else if c < 0x20 {
      ReadUnicodeEscape(c, rest);
    } else {
      assert t[1..] == rest;
    }
  }

  lemma ReadUnicodeEscape(c: CodeUnit, rest: Text)
    ensures ParseChars(UnicodeEscape(c) + rest) == Prepend(c, ParseChars(rest))
  {
    var t := UnicodeEscape(c) + rest;
    assert t[6..] == rest;
    HexSplit(c);
    HexRoundTrip(c / 16 / 16 / 16);
    HexRoundTrip(c / 16 / 16 % 16);
    HexRoundTrip(c / 16 % 16);
    HexRoundTrip(c % 16);
  }

  lemma ReadEscaped(c: CodeUnit, rest: Text)
    ensures ParseChars(EscapeUnit(c) + rest) == Prepend(c, ParseChars(rest))
  {
    if IsLead(c) || IsTrail(c) {
      ReadUnicodeEscape(c, rest);
    } else {
      ReadUnit(c, rest);
    }
  }

  lemma ReadRaw(c: CodeUnit, rest: Text)
    requires IsLead(c) || IsTrail(c)
    ensures ParseChars([c] + rest) == Prepend(c, ParseChars(rest))
  {
    assert ([c] + rest)[1..] == rest;
  }

  lemma ReadEnd(rest: Text)
    ensures ParseChars([QUOTE] + rest) == Some(([], rest))
  {
    assert ([QUOTE] + rest)[1..] == rest;
  }

  predicate StartsWithPair(s: Text) { |s| > 1 && IsLead(s[0]) && IsTrail(s[1]) }

  lemma EscapeFirst(s: Text, tail: Text)
    requires s != []
    ensures !StartsWithPair(s) ==> Escape(s) + tail == EscapeUnit(s[0]) + (Escape(s[1..]) + tail)
    ensures StartsWithPair(s) ==> Escape(s) + tail == [s[0]] + ([s[1]] + (Escape(s[2..]) + tail))
  {
    hide EscapeUnit;
    if StartsWithPair(s) {
      Regroup([s[0], s[1]], Escape(s[2..]), tail);
      Regroup([s[0]], [s[1]], Escape(s[2..]) + tail);
      assert [s[0]] + [s[1]] == [s[0], s[1]];
    } else {
      Regroup(EscapeUnit(s[0]), Escape(s[1..]), tail);
    }
  }

  lemma Regroup(a: Text, b: Text, c: Text)
    ensures (a + b) + c == a + (b + c)
  {
  }

  lemma PrependWhole(s: Text, r: Option<(Text, Text)>, rest: Text)
    requires s != [] && r == Some((s[1..], rest))
    ensures Prepend(s[0], r) == Some((s, rest))
  {
    assert [s[0]] + s[1..] == s;
  }

  /** A quoted string is read back whole, lone surrogates and control characters included. */
  lemma {:induction false} ReadString(s: Text, rest: Text)
    ensures ParseChars(Escape(s) + ([QUOTE] + rest)) == Some((s, rest))
    decreases |s|
  {
    hide ParseChars, EscapeUnit;
    var tail := [QUOTE] + rest;
    if s == [] {
      assert Escape(s) + tail == tail;
      ReadEnd(rest);
    } else {
      hide Escape, Prepend;
      EscapeFirst(s, tail);
      if StartsWithPair(s) {
        ReadString(s[2..], rest);
        ReadRaw(s[1], Escape(s[2..]) + tail);
        PrependWhole(s[1..], ParseChars(Escape(s[2..]) + tail), rest);
        ReadRaw(s[0], [s[1]] + (Escape(s[2..]) + tail));
      } else {
        ReadString(s[1..], rest);
        ReadEscaped(s[0], Escape(s[1..]) + tail);
      }
      PrependWhole(s, Some((s[1..], rest)), rest);
    }
  }

  // ---------- numbers ----------

  predicate NumberChars(t: Text) { forall c :: c in t ==> IsNumberChar(c) }

  lemma {:induction false} SkippedDigits(t: Text)
    requires NumberChars(SkipDigits(t))
    ensures NumberChars(t)
  {
    if t != [] && IsDigit(t[0]) {
      SkippedDigits(t[1..]);
      assert t == [t[0]] + t[1..];
    }
  }

  lemma ExponentChars(t: Text)
    requires ExponentText(t)
    ensures NumberChars(t)
  {
    if t != [] {
      var signed := |t| > 1 && t[1] in {43, 45};
      var d := if signed then t[2..] else t[1..];
      SkippedDigits(d);
      assert t == t[..if signed then 2 else 1] + d;
    }
  }

  lemma FractionChars(t: Text)
    requires FractionText(t)
    ensures NumberChars(t)
  {
    if t != [] && t[0] == 46 {
      ExponentChars(SkipDigits(t[1..]));
      SkippedDigits(t[1..]);
      assert t == [t[0]] + t[1..];
    } else {
      ExponentChars(t);
    }
  }

  lemma NumberTextChars(t: Text)
    requires NumberText(t)
    ensures t != [] && NumberChars(t)
  {
    var u := if t[0] == 45 then t[1..] else t;
    if u[0] == 48 {
      FractionChars(u[1..]);
      assert u == [u[0]] + u[1..];
    } else {
      FractionChars(SkipDigits(u));
      SkippedDigits(u);
    }
    assert t == (if t[0] == 45 then [t[0]] else []) + u;
  }

  /** What can follow a value inside canonical text. */
  predicate Delimited(rest: Text) { rest == [] || rest[0] in {COMMA, CLOSE_ARRAY, CLOSE_OBJECT} }

  lemma {:induction false} TakeWhole(n: Text, rest: Text)
    requires NumberChars(n) && Delimited(rest)
    ensures TakeNumber(n + rest) == n
  {
    if n == [] {
      assert n + rest == rest;
    } else {
      TakeWhole(n[1..], rest);
      assert (n + rest)[1..] == n[1..] + rest;
    }
  }

  lemma ReadNumber(n: Text, rest: Text)
    requires NumberText(n) && Delimited(rest)
    ensures ParseTree(n + rest) == Some((TNumber(n), rest))
  {
    NumberTextChars(n);
    TakeWhole(n, rest);
    assert (n + rest)[0] == n[0] && n[0] in n;
    assert (n + rest)[|n|..] == rest;
  }

  // ---------- values ----------

  /** In every context a value can stand in, the text reads as v and nothing more. */
  ghost predicate Reads(text: Text, v: Tree) {
    forall rest: Text :: Delimited(rest) ==> ParseTree(text + rest) == Some((v, rest))
  }

  lemma ReadQuoted(s: Text, rest: Text)
    ensures ParseTree(Quote(s) + rest) == Some((TString(s), rest))
  {
    hide Escape, ParseChars;
    var t := Quote(s) + rest;
    assert t[0] == QUOTE && t[1..] == Escape(s) + ([QUOTE] + rest);
    ReadString(s, rest);
  }

  lemma ReadLiterals(rest: Text)
    ensures ParseTree(LIT_NULL + rest) == Some((TNull, rest))
    ensures ParseTree(LIT_TRUE + rest) == Some((TBool(true), rest))
    ensures ParseTree(LIT_FALSE + rest) == Some((TBool(false), rest))
  {
    assert (LIT_NULL + rest)[4..] == rest && (LIT_TRUE + rest)[4..] == rest && (LIT_FALSE + rest)[5..] == rest;
    assert (LIT_TRUE + rest)[0] == 116 && (LIT_FALSE + rest)[0] == 102;
  }

  lemma ReadsAt(text: Text, v: Tree, rest: Text)
    requires Reads(text, v) && Delimited(rest)
    ensures ParseTree(text + rest) == Some((v, rest))
  {
  }

  lemma ReadsStart(text: Text, v: Tree)
    requires Reads(text, v)
    ensures text != [] && text[0] != CLOSE_ARRAY
  {
    ReadsAt(text, v, []);
    assert text + [] == text;
  }

  // ---------- arrays ----------

  lemma JoinItemsFirst(ts: seq<Text>, tail: Text)
    requires ts != []
    ensures JoinItems(ts) + tail
         == ts[0] + if |ts| == 1 then tail else [COMMA] + (JoinItems(ts[1..]) + tail)
  {
    if |ts| > 1 {
      Regroup(ts[0] + [COMMA], JoinItems(ts[1..]), tail);
      Regroup(ts[0], [COMMA], JoinItems(ts[1..]) + tail);
    }
  }

  lemma ItemsNext(t: Text, v: Tree, r: Text)
    requires ParseTree(t) == Some((v, r)) && r != []
    ensures r[0] == CLOSE_ARRAY ==> ParseItems(t) == Some(([v], r[1..]))
    ensures r[0] == COMMA && ParseItems(r[1..]).Some? ==>
      ParseItems(t) == Some(([v] + ParseItems(r[1..]).value.0, ParseItems(r[1..]).value.1))
  {
    hide ParseTree;
  }

  lemma {:induction false} ReadItems(ts: seq<Text>, vs: seq<Tree>, rest: Text)
    requires |ts| == |vs| > 0
    requires forall i :: 0 <= i < |ts| ==> Reads(ts[i], vs[i])
    ensures ParseItems(JoinItems(ts) + ([CLOSE_ARRAY] + rest)) == Some((vs, rest))
    decreases |ts|
  {
    hide ParseItems, ParseTree, JoinItems, Reads;
    var tail := [CLOSE_ARRAY] + rest;
    JoinItemsFirst(ts, tail);
    assert Reads(ts[0], vs[0]);
    if |ts| == 1 {
      ReadsAt(ts[0], vs[0], tail);
      ItemsNext(ts[0] + tail, vs[0], tail);
      assert tail[1..] == rest && [vs[0]] == vs;
    } else {
      ReadItems(ts[1..], vs[1..], rest);
      var r := [COMMA] + (JoinItems(ts[1..]) + tail);
      ReadsAt(ts[0], vs[0], r);
      assert r[1..] == JoinItems(ts[1..]) + tail;
      ItemsNext(ts[0] + r, vs[0], r);
      assert [vs[0]] + vs[1..] == vs;
    }
  }

  lemma ParseArray(inner: Text, vs: seq<Tree>, rest: Text)
    requires inner != [] && inner[0] != CLOSE_ARRAY
    requires ParseItems(inner) == Some((vs, rest))
    ensures ParseTree([OPEN_ARRAY] + inner) == Some((TArray(vs), rest))
  {
    hide ParseItems, TakeNumber, NumberText;
    var t := [OPEN_ARRAY] + inner;
    assert t[0] == OPEN_ARRAY && t[1] == inner[0] && t[1..] == inner;
  }

  lemma ReadArray(ts: seq<Text>, vs: seq<Tree>, rest: Text)
    requires |ts| == |vs|
    requires forall i :: 0 <= i < |ts| ==> Reads(ts[i], vs[i])
    ensures ParseTree([OPEN_ARRAY] + JoinItems(ts) + [CLOSE_ARRAY] + rest) == Some((TArray(vs), rest))
  {
    hide Reads;
    if ts == [] {
      var t := [OPEN_ARRAY] + JoinItems(ts) + [CLOSE_ARRAY] + rest;
      assert t[0] == OPEN_ARRAY && t[1] == CLOSE_ARRAY && t[2..] == rest;
    } else {
      hide ParseItems, ParseTree, JoinItems;
      ReadItems(ts, vs, rest);
      assert Reads(ts[0], vs[0]);
      ReadsStart(ts[0], vs[0]);
      JoinItemsFirst(ts, [CLOSE_ARRAY] + rest);
      var inner := JoinItems(ts) + ([CLOSE_ARRAY] + rest);
      Regroup([OPEN_ARRAY] + JoinItems(ts), [CLOSE_ARRAY], rest);
      Regroup([OPEN_ARRAY], JoinItems(ts), [CLOSE_ARRAY] + rest);
      ParseArray(inner, vs, rest);
    }
  }

  // ---------- objects ----------

  /** The pairs' keys with these trees. */
  function Entries(ps: seq<Pair>, trees: seq<Tree>): (es: seq<Entry>)
    requires |ps| == |trees|
    ensures |es| == |ps|
  {
    seq(|ps|, i requires 0 <= i < |ps| => Entry(ps[i].key, trees[i]))
  }

  lemma PairFirst(p: Pair, r: Text)
    ensures PairText(p) + r == [QUOTE] + (Escape(p.key) + ([QUOTE] + ([COLON] + (p.text + r))))
  {
    hide Escape;
    Regroup(Quote(p.key) + [COLON], p.text, r);
    Regroup(Quote(p.key), [COLON], p.text + r);
    Regroup([QUOTE] + Escape(p.key), [QUOTE], [COLON] + (p.text + r));
    Regroup([QUOTE], Escape(p.key), [QUOTE] + ([COLON] + (p.text + r)));
  }

  lemma MembersNext(t: Text, inside: Text, key: Text, text: Text, v: Tree, r: Text)
    requires t == [QUOTE] + inside && ParseChars(inside) == Some((key, [COLON] + text))
    requires ParseTree(text) == Some((v, r)) && r != []
    ensures r[0] == CLOSE_OBJECT ==> ParseMembers(t) == Some(([Entry(key, v)], r[1..]))
    ensures r[0] == COMMA && ParseMembers(r[1..]).Some? ==>
      ParseMembers(t) == Some(([Entry(key, v)] + ParseMembers(r[1..]).value.0, ParseMembers(r[1..]).value.1))
  {
    hide ParseTree, ParseChars;
    assert t[0] == QUOTE && t[1..] == inside;
    assert ([COLON] + text)[0] == COLON && ([COLON] + text)[1..] == text;
  }

  lemma ReadPair(p: Pair, v: Tree, r: Text)
    requires Reads(p.text, v) && r != [] && Delimited(r)
    ensures r[0] == CLOSE_OBJECT ==> ParseMembers(PairText(p) + r) == Some(([Entry(p.key, v)], r[1..]))
    ensures r[0] == COMMA && ParseMembers(r[1..]).Some? ==>
      ParseMembers(PairText(p) + r)
      == Some(([Entry(p.key, v)] + ParseMembers(r[1..]).value.0, ParseMembers(r[1..]).value.1))
  {
    hide ParseTree, ParseChars, ParseMembers, Escape, PairText, Reads;
    PairFirst(p, r);
    ReadsAt(p.text, v, r);
    ReadString(p.key, [COLON] + (p.text + r));
    MembersNext(PairText(p) + r, Escape(p.key) + ([QUOTE] + ([COLON] + (p.text + r))), p.key, p.text + r, v, r);
  }

  lemma JoinPairsFirst(ps: seq<Pair>, tail: Text)
    requires ps != []
    ensures JoinPairs(ps) + tail
         == PairText(ps[0]) + if |ps| == 1 then tail else [COMMA] + (JoinPairs(ps[1..]) + tail)
  {
    hide PairText;
    if |ps| > 1 {
      Regroup(PairText(ps[0]) + [COMMA], JoinPairs(ps[1..]), tail);
      Regroup(PairText(ps[0]), [COMMA], JoinPairs(ps[1..]) + tail);
    }
  }

  lemma {:induction false} ReadPairs(ps: seq<Pair>, trees: seq<Tree>, rest: Text)
    requires ps != [] && |ps| == |trees| && forall i :: 0 <= i < |ps| ==> Reads(ps[i].text, trees[i])
    ensures ParseMembers(JoinPairs(ps) + ([CLOSE_OBJECT] + rest)) == Some((Entries(ps, trees), rest))
    decreases |ps|
  {
    hide ParseMembers, JoinPairs, PairText, Reads;
    var tail := [CLOSE_OBJECT] + rest;
    JoinPairsFirst(ps, tail);
    assert Reads(ps[0].text, trees[0]);
    if |ps| == 1 {
      ReadPair(ps[0], trees[0], tail);
      assert tail[1..] == rest && Entries(ps, trees) == [Entry(ps[0].key, trees[0])];
    } else {
      ReadPairs(ps[1..], trees[1..], rest);
      var r := [COMMA] + (JoinPairs(ps[1..]) + tail);
      assert r[1..] == JoinPairs(ps[1..]) + tail;
      ReadPair(ps[0], trees[0], r);
      assert Entries(ps, trees) == [Entry(ps[0].key, trees[0])] + Entries(ps[1..], trees[1..]);
    }
  }

  lemma ParseObject(inner: Text, es: seq<Entry>, rest: Text)
    requires inner != [] && inner[0] != CLOSE_OBJECT
    requires ParseMembers(inner) == Some((es, rest))
    ensures ParseTree([OPEN_OBJECT] + inner) == Some((TObject(es), rest))
  {
    hide ParseMembers, TakeNumber, NumberText;
    var t := [OPEN_OBJECT] + inner;
    assert t[0] == OPEN_OBJECT && t[1] == inner[0] && t[1..] == inner;
  }

  lemma JoinPairsStart(ps: seq<Pair>)
    requires ps != []
    ensures JoinPairs(ps) != [] && JoinPairs(ps)[0] == QUOTE
  {
    hide Escape;
  }

  lemma ReadObject(ps: seq<Pair>, trees: seq<Tree>, rest: Text)
    requires |ps| == |trees| && forall i :: 0 <= i < |ps| ==> Reads(ps[i].text, trees[i])
    ensures ParseTree([OPEN_OBJECT] + JoinPairs(ps) + [CLOSE_OBJECT] + rest) == Some((TObject(Entries(ps, trees)), rest))
  {
    hide Reads;
    if ps == [] {
      var t := [OPEN_OBJECT] + JoinPairs(ps) + [CLOSE_OBJECT] + rest;
      assert t[0] == OPEN_OBJECT && t[1] == CLOSE_OBJECT && t[2..] == rest;
    } else {
      hide ParseMembers, ParseTree, JoinPairs;
      ReadPairs(ps, trees, rest);
      JoinPairsStart(ps);
      var inner := JoinPairs(ps) + ([CLOSE_OBJECT] + rest);
      Regroup([OPEN_OBJECT] + JoinPairs(ps), [CLOSE_OBJECT], rest);
      Regroup([OPEN_OBJECT], JoinPairs(ps), [CLOSE_OBJECT] + rest);
      ParseObject(inner, Entries(ps, trees), rest);
    }
  }

  lemma {:induction false} InsertMembers(p: Pair, ps: seq<Pair>)
    ensures forall q :: q in Insert(p, ps) <==> q == p || q in ps
  {
    if ps != [] {
      InsertMembers(p, ps[1..]);
      assert ps == [ps[0]] + ps[1..];
    }
  }

  lemma {:induction false} SortMembers(ps: seq<Pair>)
    ensures forall q :: q in SortPairs(ps) <==> q in ps
  {
    if ps != [] {
      SortMembers(ps[1..]);
      InsertMembers(ps[0], SortPairs(ps[1..]));
      assert ps == [ps[0]] + ps[1..];
    }
  }

  // ---------- the order of keys ----------

  lemma {:induction false} TextOrder(a: Text, b: Text, c: Text)
    ensures !TextLess(a, a)
    ensures a == b || TextLess(a, b) || TextLess(b, a)
    ensures TextLess(a, b) ==> !TextLess(b, a)
    ensures TextLess(a, b) && TextLess(b, c) ==> TextLess(a, c)
    decreases |a|
  {
    if a != [] {
      TextOrder(a[1..], if b == [] then [] else b[1..], if c == [] then [] else c[1..]);
      assert a == [a[0]] + a[1..];
      if b != [] {
        assert b == [b[0]] + b[1..];
      }
    }
  }

  /** Strictly ordered by key. */
  ghost predicate Ordered(ps: seq<Pair>) {
    ps == [] || ((forall p :: p in ps[1..] ==> TextLess(ps[0].key, p.key)) && Ordered(ps[1..]))
  }

  lemma {:induction false} InsertOrdered(p: Pair, ps: seq<Pair>)
    requires Ordered(ps) && forall q :: q in ps ==> q.key != p.key
    ensures Ordered(Insert(p, ps))
  {
    hide TextLess;
    var next := Insert(p, ps);
    if ps == [] || TextLess(p.key, ps[0].key) {
      assert next[1..] == ps;
      forall q | q in ps
        ensures TextLess(p.key, q.key)
      {
        assert ps == [ps[0]] + ps[1..];
        TextOrder(p.key, ps[0].key, q.key);
      }
    } else {
      TextOrder(p.key, ps[0].key, p.key);
      assert ps[0] in ps;
      InsertOrdered(p, ps[1..]);
      InsertMembers(p, ps[1..]);
      assert next[1..] == Insert(p, ps[1..]);
    }
  }

  lemma {:induction false} SortOrdered(members: seq<Member>)
    requires MembersWellFormed(members)
    ensures Ordered(SortPairs(PrintPairs(members)))
  {
    if members != [] {
      var ps := PrintPairs(members);
      assert ps[1..] == PrintPairs(members[1..]);
      SortOrdered(members[1..]);
      SortMembers(ps[1..]);
      PairKeys(members[1..]);
      InsertOrdered(ps[0], SortPairs(ps[1..]));
    }
  }

  lemma {:induction false} PairKeys(members: seq<Member>)
    ensures forall p :: p in PrintPairs(members) ==> HasKey(members, p.key)
  {
    if members != [] {
      PairKeys(members[1..]);
      assert members == [members[0]] + members[1..];
    }
  }

  /** The printer's order is that of the first differing code unit. */
  lemma {:induction false} TextLessIff(a: Text, b: Text)
    ensures TextLess(a, b) <==> Precedes(a, b)
    decreases |a|
  {
    if a == [] && b != [] {
      assert DecidedAt(a, b, 0);
    } else if a != [] && b != [] {
      if a[0] == b[0] {
        TextLessIff(a[1..], b[1..]);
        if i :| DecidedAt(a[1..], b[1..], i) {
          assert forall j :: 1 <= j < i + 1 ==> a[j] == a[1..][j - 1] && b[j] == b[1..][j - 1];
          assert DecidedAt(a, b, i + 1);
        }
        if i :| DecidedAt(a, b, i) {
          assert DecidedAt(a[1..], b[1..], i - 1);
        }
      } else if a[0] < b[0] {
        assert DecidedAt(a, b, 0);
      }
    }
  }

  lemma {:induction false} OrderedPrecede(ps: seq<Pair>, i: nat, j: nat)
    requires Ordered(ps) && i < j < |ps|
    ensures Precedes(ps[i].key, ps[j].key)
  {
    hide TextLess, Precedes;
    if i == 0 {
      assert ps[j] == ps[1..][j - 1] && ps[j] in ps[1..];
      TextLessIff(ps[0].key, ps[j].key);
    } else {
      OrderedPrecede(ps[1..], i - 1, j - 1);
    }
  }

  // ---------- the round trip ----------

  /** The text reads as a tree that denotes v and has its keys in order. */
  ghost predicate Prints(text: Text, v: Value) {
    exists tree :: IsTreeOf(tree, text, v)
  }

  ghost predicate IsTreeOf(tree: Tree, text: Text, v: Value) {
    Reads(text, tree) && Denotes(tree) == v && KeysIncrease(tree)
  }

  lemma PrintsLeaf(text: Text, tree: Tree)
    requires Reads(text, tree) && KeysIncrease(tree)
    ensures Prints(text, Denotes(tree))
  {
    assert IsTreeOf(tree, text, Denotes(tree));
  }

  lemma {:induction false} ItemTrees(ts: seq<Text>, vs: seq<Value>) returns (trees: seq<Tree>)
    requires |ts| == |vs| && forall i :: 0 <= i < |ts| ==> Prints(ts[i], vs[i])
    ensures |trees| == |ts| && AllDenote(trees) == vs
    ensures forall i :: 0 <= i < |ts| ==> Reads(ts[i], trees[i]) && KeysIncrease(trees[i])
    decreases |ts|
  {
    if ts == [] {
      trees := [];
    } else {
      assert Prints(ts[0], vs[0]);
      var first :| IsTreeOf(first, ts[0], vs[0]);
      hide Prints, Reads, KeysIncrease;
      var rest := ItemTrees(ts[1..], vs[1..]);
      trees := [first] + rest;
      assert trees[1..] == rest;
      assert forall i :: 1 <= i < |ts| ==> ts[i] == ts[1..][i - 1] && trees[i] == rest[i - 1];
    }
  }

  lemma PrintsArray(ts: seq<Text>, vs: seq<Value>)
    requires |ts| == |vs| && forall i :: 0 <= i < |ts| ==> Prints(ts[i], vs[i])
    ensures Prints([OPEN_ARRAY] + JoinItems(ts) + [CLOSE_ARRAY], VArray(vs))
  {
    hide Prints, Reads;
    var trees := ItemTrees(ts, vs);
    var tree := TArray(trees);
    assert Denotes(tree) == VArray(vs);
    forall item | item in trees ensures KeysIncrease(item) {
      var i :| 0 <= i < |trees| && trees[i] == item;
    }
    var text := [OPEN_ARRAY] + JoinItems(ts) + [CLOSE_ARRAY];
    forall rest: Text | Delimited(rest) ensures ParseTree(text + rest) == Some((tree, rest)) {
      ReadArray(ts, trees, rest);
    }
    AllReads(text, tree);
    PrintsLeaf(text, tree);
  }

  lemma AllReads(text: Text, tree: Tree)
    requires forall rest: Text :: Delimited(rest) ==> ParseTree(text + rest) == Some((tree, rest))
    ensures Reads(text, tree)
  {
  }

  /** Every pair's text prints the value its key has in m. */
  ghost predicate PairsPrint(ps: seq<Pair>, m: map<Text, Value>) {
    forall p :: p in ps ==> p.key in m && Prints(p.text, m[p.key])
  }

  ghost predicate IsPairTree(tree: Tree, p: Pair, m: map<Text, Value>) {
    p.key in m && IsTreeOf(tree, p.text, m[p.key])
  }

  lemma PairTree(p: Pair, m: map<Text, Value>) returns (tree: Tree)
    requires p.key in m && Prints(p.text, m[p.key])
    ensures IsPairTree(tree, p, m)
  {
    tree :| IsTreeOf(tree, p.text, m[p.key]);
  }

  lemma {:induction false} PairTrees(ps: seq<Pair>, m: map<Text, Value>) returns (trees: seq<Tree>)
    requires PairsPrint(ps, m)
    ensures |trees| == |ps| && forall i :: 0 <= i < |ps| ==> IsPairTree(trees[i], ps[i], m)
    decreases |ps|
  {
    hide Prints, IsPairTree;
    if ps == [] {
      trees := [];
    } else {
      assert ps[0] in ps;
      var first := PairTree(ps[0], m);
      assert PairsPrint(ps[1..], m);
      hide PairsPrint;
      var rest := PairTrees(ps[1..], m);
      trees := [first] + rest;
      forall i | 0 <= i < |ps| ensures IsPairTree(trees[i], ps[i], m) {
        if i > 0 {
          assert ps[i] == ps[1..][i - 1] && trees[i] == rest[i - 1];
        }
      }
    }
  }

  /** Entries whose trees denote what m says make that part of m. */
  lemma {:induction false} EntryMapIs(es: seq<Entry>, m: map<Text, Value>)
    requires forall e :: e in es ==> e.key in m && Denotes(e.value) == m[e.key]
    ensures forall k :: k in EntryMap(es) ==> k in m && EntryMap(es)[k] == m[k]
    ensures forall e :: e in es ==> e.key in EntryMap(es)
  {
    hide Denotes;
    if es != [] {
      EntryMapIs(es[1..], m);
      assert es == [es[0]] + es[1..];
    }
  }

  lemma EntriesDenote(ps: seq<Pair>, trees: seq<Tree>, m: map<Text, Value>)
    requires |ps| == |trees| && forall i :: 0 <= i < |ps| ==> ps[i].key in m && Denotes(trees[i]) == m[ps[i].key]
    requires forall k :: k in m ==> exists p :: p in ps && p.key == k
    ensures EntryMap(Entries(ps, trees)) == m
  {
    var es := Entries(ps, trees);
    forall e | e in es ensures e.key in m && Denotes(e.value) == m[e.key] {
      var i :| 0 <= i < |es| && es[i] == e;
    }
    EntryMapIs(es, m);
    hide EntryMap, Denotes;
    forall k | k in m ensures k in EntryMap(es) {
      var p :| p in ps && p.key == k;
      var i :| 0 <= i < |ps| && ps[i] == p;
      assert es[i] in es;
    }
  }

  lemma EntriesIncrease(ps: seq<Pair>, trees: seq<Tree>)
    requires |ps| == |trees| && Ordered(ps) && forall i :: 0 <= i < |ps| ==> KeysIncrease(trees[i])
    ensures KeysIncrease(TObject(Entries(ps, trees)))
  {
    hide Precedes, Ordered;
    var es := Entries(ps, trees);
    forall i, j | 0 <= i < j < |es| ensures Precedes(es[i].key, es[j].key) {
      OrderedPrecede(ps, i, j);
    }
    forall e | e in es ensures KeysIncrease(e.value) {
      var i :| 0 <= i < |es| && es[i] == e;
    }
  }

  lemma PrintsObject(ps: seq<Pair>, m: map<Text, Value>)
    requires PairsPrint(ps, m) && Ordered(ps)
    requires forall k :: k in m ==> exists p :: p in ps && p.key == k
    ensures Prints([OPEN_OBJECT] + JoinPairs(ps) + [CLOSE_OBJECT], VObject(m))
  {
    var trees := PairTrees(ps, m);
    forall i | 0 <= i < |ps|
      ensures ps[i].key in m && Reads(ps[i].text, trees[i]) && Denotes(trees[i]) == m[ps[i].key] && KeysIncrease(trees[i])
    {
      assert IsPairTree(trees[i], ps[i], m);
    }
    hide PairsPrint, Ordered, Reads, KeysIncrease, Prints;
    EntriesDenote(ps, trees, m);
    EntriesIncrease(ps, trees);
    var tree, text := TObject(Entries(ps, trees)), [OPEN_OBJECT] + JoinPairs(ps) + [CLOSE_OBJECT];
    forall rest: Text | Delimited(rest) ensures ParseTree(text + rest) == Some((tree, rest)) {
      ReadObject(ps, trees, rest);
    }
    AllReads(text, tree);
    assert Denotes(tree) == VObject(m);
    PrintsLeaf(text, tree);
  }

  lemma PrintsText(s: Text)
    ensures Prints(Quote(s), VString(s))
  {
    forall rest: Text | Delimited(rest) ensures ParseTree(Quote(s) + rest) == Some((TString(s), rest)) {
      ReadQuoted(s, rest);
    }
    hide Quote, ParseTree;
    PrintsLeaf(Quote(s), TString(s));
  }

  lemma PrintsNumber(n: Text)
    requires NumberText(n)
    ensures Prints(n, VNumber(n))
  {
    forall rest: Text | Delimited(rest) ensures ParseTree(n + rest) == Some((TNumber(n), rest)) {
      ReadNumber(n, rest);
    }
    hide ParseTree;
    PrintsLeaf(n, TNumber(n));
  }

  lemma PrintsLiterals()
    ensures Prints(LIT_NULL, VNull) && Prints(LIT_TRUE, VBool(true)) && Prints(LIT_FALSE, VBool(false))
  {
    forall rest: Text | Delimited(rest)
      ensures ParseTree(LIT_NULL + rest) == Some((TNull, rest))
        && ParseTree(LIT_TRUE + rest) == Some((TBool(true), rest))
        && ParseTree(LIT_FALSE + rest) == Some((TBool(false), rest))
    {
      ReadLiterals(rest);
    }
    hide ParseTree;
    PrintsLeaf(LIT_NULL, TNull);
    PrintsLeaf(LIT_TRUE, TBool(true));
    PrintsLeaf(LIT_FALSE, TBool(false));
  }

  lemma {:induction false} PrintsMeaning(v: Json)
    requires WellFormed(v)
    ensures Prints(Print(v), Meaning(v))
    decreases v, 1
  {
    hide Prints, Quote, LIT_NULL, LIT_TRUE, LIT_FALSE;
    match v
    case Number(t) => PrintsNumber(t);
    case String(s) => PrintsText(s);
    case Date(iso) => PrintsText(iso);
    case Array(items) =>
      ItemsPrint(items);
      PrintsArray(PrintItems(items), Meanings(items));
    case Object(members) =>
      MembersPrint(members);
      var ps := PrintPairs(members);
      SortMembers(ps);
      SortOrdered(members);
      assert PairsPrint(SortPairs(ps), MemberMap(members));
      PrintsObject(SortPairs(ps), MemberMap(members));
    case _ => PrintsLiterals();
  }

  lemma {:induction false} ItemsPrint(items: seq<Json>)
    requires AllWellFormed(items)
    ensures forall i :: 0 <= i < |items| ==> Prints(PrintItems(items)[i], Meanings(items)[i])
    decreases items, 0
  {
    hide Prints;
    if items != [] {
      PrintsMeaning(items[0]);
      ItemsPrint(items[1..]);
    }
  }

  lemma {:induction false} MembersPrint(members: seq<Member>)
    requires MembersWellFormed(members)
    ensures PairsPrint(PrintPairs(members), MemberMap(members))
    ensures forall k :: k in MemberMap(members) <==> HasKey(members, k)
    ensures forall k :: k in MemberMap(members) ==> exists p :: p in PrintPairs(members) && p.key == k
    ensures forall p :: p in PrintPairs(members) ==> HasKey(members, p.key)
    decreases members, 0
  {
    hide Prints;
    if members != [] {
      var head, tail := members[0], members[1..];
      PrintsMeaning(head.value);
      MembersPrint(tail);
      assert members == [head] + tail;
    }
  }

  /** Whatever is printed reads back, in any context, as a tree that denotes its meaning and whose
      keys increase by code unit in every object at every depth. */
  lemma KeysReadInOrder(v: Json, rest: Text) returns (tree: Tree)
    requires WellFormed(v) && Delimited(rest)
    ensures ParseTree(Print(v) + rest) == Some((tree, rest))
    ensures Denotes(tree) == Meaning(v) && KeysIncrease(tree)
  {
    hide Print, Meaning, KeysIncrease, Denotes;
    PrintsMeaning(v);
    tree :| IsTreeOf(tree, Print(v), Meaning(v));
    ReadsAt(Print(v), tree, rest);
  }

  /** What the text at the start of t denotes. */
  function ParseValue(t: Text): Option<(Value, Text)> {
    var r := ParseTree(t);
    if r.None? then None else Some((Denotes(r.value.0), r.value.1))
  }

  /** So it reads back as its meaning. */
  lemma RoundTrip(v: Json, rest: Text)
    requires WellFormed(v) && Delimited(rest)
    ensures ParseValue(Print(v) + rest) == Some((Meaning(v), rest))
  {
    hide Print, Meaning, KeysIncrease, Denotes;
    var tree := KeysReadInOrder(v, rest);
  }

  // ---------- what a text determines ----------

  /** Two values that print the same text have the same meaning. */
  lemma SameTextSameMeaning(a: Json, b: Json)
    requires WellFormed(a) && WellFormed(b) && Print(a) == Print(b)
    ensures Meaning(a) == Meaning(b)
  {
    hide Print, Meaning, ParseValue;
    RoundTrip(a, []);
    RoundTrip(b, []);
  }

  // ---------- what determines a text ----------

  /** An ordered sequence is determined by the set of its elements. */
  lemma {:induction false} OrderedUnique(ps: seq<Pair>, qs: seq<Pair>)
    requires Ordered(ps) && Ordered(qs)
    requires forall p :: p in ps <==> p in qs
    ensures ps == qs
  {
    hide TextLess;
    assert qs != [] ==> qs[0] in ps;
    if ps != [] {
      assert ps[0] in qs;
      assert ps == [ps[0]] + ps[1..] && qs == [qs[0]] + qs[1..];
      TextOrder(ps[0].key, qs[0].key, ps[0].key);
      assert ps[0] == qs[0];
      forall p
        ensures p in ps[1..] <==> p in qs[1..]
      {
        assert p in ps || p in qs ==> p in ps && p in qs;
        if p in ps[1..] || p in qs[1..] {
          TextOrder(ps[0].key, p.key, p.key);
        }
      }
      OrderedUnique(ps[1..], qs[1..]);
    }
  }


  lemma {:induction false} MemberOf(members: seq<Member>, key: Text) returns (i: nat)
    requires key in MemberMap(members)
    ensures i < |members| && members[i].key == key && Meaning(members[i].value) == MemberMap(members)[key]
  {
    if members[0].key == key {
      i := 0;
    } else {
      var j := MemberOf(members[1..], key);
      i := j + 1;
    }
  }

  lemma {:induction false} MeaningOf(members: seq<Member>, i: nat)
    requires MembersWellFormed(members) && i < |members|
    ensures members[i].key in MemberMap(members) && MemberMap(members)[members[i].key] == Meaning(members[i].value)
    ensures WellFormed(members[i].value)
  {
    if i > 0 {
      MeaningOf(members[1..], i - 1);
      assert members[i] in members[1..];
    }
  }

  lemma {:induction false} PairOf(members: seq<Member>, i: nat)
    requires i < |members|
    ensures PrintPairs(members)[i] == Pair(members[i].key, Print(members[i].value))
  {
    if i > 0 {
      PairOf(members[1..], i - 1);
    }
  }

  /** Two values with the same meaning print the same text, whatever the insertion orders. */
  lemma {:induction false} SameMeaningSameText(a: Json, b: Json)
    requires WellFormed(a) && WellFormed(b) && Meaning(a) == Meaning(b)
    ensures Print(a) == Print(b)
    decreases a, 1
  {
    match a
    case Array(items) => SameItems(items, b.items);
    case Object(members) => SameMembers(members, b.members);
    case _ =>
  }

  lemma {:induction false} SameItems(a: seq<Json>, b: seq<Json>)
    requires AllWellFormed(a) && AllWellFormed(b) && Meanings(a) == Meanings(b)
    ensures PrintItems(a) == PrintItems(b)
    decreases a, 0
  {
    if a != [] {
      assert Meanings(a)[0] == Meanings(b)[0] && Meanings(a)[1..] == Meanings(b)[1..];
      SameMeaningSameText(a[0], b[0]);
      SameItems(a[1..], b[1..]);
    }
  }

  lemma {:induction false} SameMembers(a: seq<Member>, b: seq<Member>)
    requires MembersWellFormed(a) && MembersWellFormed(b) && MemberMap(a) == MemberMap(b)
    ensures SortPairs(PrintPairs(a)) == SortPairs(PrintPairs(b))
    decreases a, 0
  {
    var ps, qs := PrintPairs(a), PrintPairs(b);
    forall p | p in ps
      ensures p in qs
    {
      var i :| 0 <= i < |ps| && ps[i] == p;
      PairOf(a, i);
      MeaningOf(a, i);
      var j := MemberOf(b, a[i].key);
      MeaningOf(b, j);
      SameMeaningSameText(a[i].value, b[j].value);
      PairOf(b, j);
    }
    forall p | p in qs
      ensures p in ps
    {
      var j :| 0 <= j < |qs| && qs[j] == p;
      PairOf(b, j);
      MeaningOf(b, j);
      var i := MemberOf(a, b[j].key);
      MeaningOf(a, i);
      SameMeaningSameText(a[i].value, b[j].value);
      PairOf(a, i);
    }
    SortMembers(ps);
    SortMembers(qs);
    SortOrdered(a);
    SortOrdered(b);
    OrderedUnique(SortPairs(ps), SortPairs(qs));
  }

  /** Canonical text is a faithful name for a value's meaning. */
  lemma SameTextIffSameMeaning(a: Json, b: Json)
    requires WellFormed(a) && WellFormed(b)
    ensures Print(a) == Print(b) <==> Meaning(a) == Meaning(b)
  {
    hide Print, Meaning;
    if Print(a) == Print(b) {
      SameTextSameMeaning(a, b);
    } else if Meaning(a) == Meaning(b) {
      SameMeaningSameText(a, b);
    }
  }
}
