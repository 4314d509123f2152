/** The canonical printer of apps/api/src/eventStream/eventHash.ts as a faithful encoding: what it
    prints depends only on the value's JSON meaning, and a parser reads the meaning back.

    Text is a sequence of UTF-16 code units, as in JavaScript. */
module CanonicalJson {
  import opened Wrappers

  type CodeUnit = x: int | 0 <= x < 0x1_0000

  type Text = seq<CodeUnit>

  // ---------- values ----------

  /** A JavaScript value as the printer meets it.  Number carries the text JavaScript prints for a
      finite number; NonFinite is NaN or an infinity; Date carries its ISO text.  An object's
      members are in insertion order. */
  datatype Json =
    | Undefined
    | Null
    | Bool(b: bool)
    | Number(text: Text)
    | NonFinite
    | String(s: Text)
    | Date(iso: Text)
    | Array(items: seq<Json>)
    | Object(members: seq<Member>)

  datatype Member = Member(key: Text, value: Json)

  /** What a JSON text denotes (sections 4 and 5 of RFC 8259): an object is an unordered
      collection of named values. */
  datatype Value =
    | VNull
    | VBool(b: bool)
    | VNumber(text: Text)
    | VString(s: Text)
    | VArray(items: seq<Value>)
    | VObject(members: map<Text, Value>)

  /** The meaning of a JavaScript value; undefined and non-finite numbers read as null. */
  function Meaning(v: Json): Value {
    match v
    case Undefined => VNull
    case Null => VNull
    case NonFinite => VNull
    case Bool(b) => VBool(b)
    case Number(t) => VNumber(t)
    case String(s) => VString(s)
    case Date(iso) => VString(iso)
    case Array(items) => VArray(Meanings(items))
    case Object(members) => VObject(MemberMap(members))
  }

  function Meanings(items: seq<Json>): (r: seq<Value>)
    ensures |r| == |items|
  {
    if items == [] then [] else [Meaning(items[0])] + Meanings(items[1..])
  }

  function MemberMap(members: seq<Member>): map<Text, Value> {
    if members == [] then map[]
    else MemberMap(members[1..])[members[0].key := Meaning(members[0].value)]
  }

  // ---------- numbers (section 6 of RFC 8259) ----------

  predicate IsDigit(c: CodeUnit) { 48 <= c <= 57 }

  function SkipDigits(t: Text): (r: Text)
    ensures |r| <= |t|
  {
    if t != [] && IsDigit(t[0]) then SkipDigits(t[1..]) else t
  }

  /** exp = e [ minus / plus ] 1*DIGIT, or nothing. */
  predicate ExponentText(t: Text) {
    || t == []
    || (t[0] in {101, 69}
        && var d := if |t| > 1 && t[1] in {43, 45} then t[2..] else t[1..];
           d != [] && SkipDigits(d) == [])
  }

  /** frac = decimal-point 1*DIGIT, or nothing; then the exponent. */
  predicate FractionText(t: Text) {
    if t != [] && t[0] == 46 then |t| > 1 && IsDigit(t[1]) && ExponentText(SkipDigits(t[1..])) else ExponentText(t)
  }

  predicate NumberText(t: Text) {
    var u := if t != [] && t[0] == 45 then t[1..] else t;
    u != [] && IsDigit(u[0]) && FractionText(if u[0] == 48 then u[1..] else SkipDigits(u))
  }

  // ---------- strings (section 7 of RFC 8259) ----------

  const QUOTE: CodeUnit := 34
  const BACKSLASH: CodeUnit := 92

  predicate IsLead(c: CodeUnit) { 0xd800 <= c <= 0xdbff }

  predicate IsTrail(c: CodeUnit) { 0xdc00 <= c <= 0xdfff }

  function HexDigit(n: int): (c: CodeUnit)
    requires 0 <= n < 16
  {
    if n < 10 then 48 + n else 87 + n
  }

  function UnicodeEscape(c: CodeUnit): Text {
    [BACKSLASH, 117, HexDigit(c / 16 / 16 / 16), HexDigit(c / 16 / 16 % 16), HexDigit(c / 16 % 16), HexDigit(c % 16)]
  }

  /** The two-character escape of a control character, or 0. */
  function ShortEscape(c: CodeUnit): CodeUnit {
    if c == QUOTE then QUOTE
    else if c == BACKSLASH then BACKSLASH
    else if c == 8 then 98
    else if c == 9 then 116
    else if c == 10 then 110
    else if c == 12 then 102
    else if c == 13 then 114
    else 0
  }

  /** The inside of JSON.stringify of a string: a surrogate pair is copied, a lone surrogate escaped. */
  function Escape(s: Text): Text {
    if s == [] then []
    else if |s| > 1 && IsLead(s[0]) && IsTrail(s[1]) then [s[0], s[1]] + Escape(s[2..])
    else EscapeUnit(s[0]) + Escape(s[1..])
  }

  function EscapeUnit(c: CodeUnit): Text {
    if ShortEscape(c) != 0 then [BACKSLASH, ShortEscape(c)]
    else if c < 0x20 || IsLead(c) || IsTrail(c) then UnicodeEscape(c)
    else [c]
  }

  function Quote(s: Text): Text { [QUOTE] + Escape(s) + [QUOTE] }

  // ---------- the printer ----------

  const LIT_NULL: Text := [110, 117, 108, 108]
  const LIT_TRUE: Text := [116, 114, 117, 101]
  const LIT_FALSE: Text := [102, 97, 108, 115, 101]
  const COMMA: CodeUnit := 44
  const COLON: CodeUnit := 58
  const OPEN_ARRAY: CodeUnit := 91
  const CLOSE_ARRAY: CodeUnit := 93
  const OPEN_OBJECT: CodeUnit := 123
  const CLOSE_OBJECT: CodeUnit := 125

  /** A printed member: its key and the text of its value. */
  datatype Pair = Pair(key: Text, text: Text)

  /** Order by UTF-16 code units (section 3.2.3 of RFC 8785). */
  predicate TextLess(a: Text, b: Text) {
    if b == [] then false
    else if a == [] then true
    else if a[0] != b[0] then a[0] < b[0]
    else TextLess(a[1..], b[1..])
  }

  function Insert(p: Pair, ps: seq<Pair>): seq<Pair> {
    if ps == [] || TextLess(p.key, ps[0].key) then [p] + ps else [ps[0]] + Insert(p, ps[1..])
  }

  function SortPairs(ps: seq<Pair>): seq<Pair> {
    if ps == [] then [] else Insert(ps[0], SortPairs(ps[1..]))
  }

  /** `canonicalJsonStringify`. */
  function Print(v: Json): Text {
    match v
    case Undefined => LIT_NULL
    case Null => LIT_NULL
    case NonFinite => LIT_NULL
    case Bool(b) => if b then LIT_TRUE else LIT_FALSE
    case Number(t) => t
    case String(s) => Quote(s)
    case Date(iso) => Quote(iso)
    case Array(items) => [OPEN_ARRAY] + JoinItems(PrintItems(items)) + [CLOSE_ARRAY]
    case Object(members) => [OPEN_OBJECT] + JoinPairs(SortPairs(PrintPairs(members))) + [CLOSE_OBJECT]
  }

  function PrintItems(items: seq<Json>): (r: seq<Text>)
    ensures |r| == |items|
  {
    if items == [] then [] else [Print(items[0])] + PrintItems(items[1..])
  }

  function PrintPairs(members: seq<Member>): (r: seq<Pair>)
    ensures |r| == |members|
  {
    if members == [] then []
    else [Pair(members[0].key, Print(members[0].value))] + PrintPairs(members[1..])
  }

  function JoinItems(ts: seq<Text>): Text {
    if ts == [] then [] else if |ts| == 1 then ts[0] else ts[0] + [COMMA] + JoinItems(ts[1..])
  }

  function PairText(p: Pair): Text { Quote(p.key) + [COLON] + p.text }

  function JoinPairs(ps: seq<Pair>): Text {
    if ps == [] then [] else if |ps| == 1 then PairText(ps[0]) else PairText(ps[0]) + [COMMA] + JoinPairs(ps[1..])
  }

  // ---------- well-formed values ----------

  predicate HasKey(members: seq<Member>, key: Text) { exists m :: m in members && m.key == key }

  /** Numbers are number texts and an object has no key twice, as in JavaScript. */
  predicate WellFormed(v: Json) {
    match v
    case Number(t) => NumberText(t)
    case Array(items) => AllWellFormed(items)
    case Object(members) => MembersWellFormed(members)
    case _ => true
  }

  predicate AllWellFormed(items: seq<Json>) {
    items == [] || (WellFormed(items[0]) && AllWellFormed(items[1..]))
  }

  predicate MembersWellFormed(members: seq<Member>) {
    || members == []
    || (WellFormed(members[0].value) && !HasKey(members[1..], members[0].key) && MembersWellFormed(members[1..]))
  }

  // ---------- some texts in full ----------

  /** Short escapes where there are any, lower-case hexadecimal otherwise: "\n", "\"", "\u001f",
      "\u000b" and "\ud800"; a surrogate pair is copied. */
  lemma KnownEscapes()
    ensures EscapeUnit(10) == [92, 110] && EscapeUnit(34) == [92, 34] && EscapeUnit(97) == [97]
    ensures EscapeUnit(0x1f) == [92, 117, 48, 48, 49, 102] && EscapeUnit(11) == [92, 117, 48, 48, 48, 98]
    ensures EscapeUnit(0xd800) == [92, 117, 100, 56, 48, 48]
    ensures Escape([0xd83d, 0xde00]) == [0xd83d, 0xde00]
  {
    assert [0xd83d, 0xde00][2..] == [];
  }

  lemma KnownKey(c: CodeUnit)
    requires c == 97 || c == 98
    ensures Quote([c]) == [34, c, 34]
  {
    assert [c][1..] == [];
    assert EscapeUnit(c) == [c];
    assert Escape([c]) == EscapeUnit(c) + Escape([]);
  }

  lemma KnownArray()
    ensures Print(Array([Bool(true), Undefined])) == [91, 116, 114, 117, 101, 44, 110, 117, 108, 108, 93]
  {
    var items := [Bool(true), Undefined];
    assert items[1..] == [Undefined] && [Undefined][1..] == [];
    assert PrintItems([Undefined]) == [LIT_NULL] + PrintItems([]);
    assert PrintItems(items) == [LIT_TRUE, LIT_NULL];
    assert [LIT_TRUE, LIT_NULL][1..] == [LIT_NULL];
    assert JoinItems([LIT_NULL]) == LIT_NULL;
    assert JoinItems([LIT_TRUE, LIT_NULL]) == LIT_TRUE + [COMMA] + LIT_NULL;
  }

  lemma KnownPairs(a: Pair, b: Pair)
    requires a.key == [97] && b.key == [98]
    ensures SortPairs([b, a]) == [a, b] && JoinPairs([a, b]) == PairText(a) + [COMMA] + PairText(b)
  {
    hide PairText;
    assert [a][1..] == [] && [b, a][1..] == [a] && [a, b][1..] == [b];
    assert TextLess([97], [98]) && !TextLess([98], [97]);
    assert SortPairs([a]) == Insert(a, []) == [a];
    assert Insert(b, [a]) == [a] + Insert(b, []);
  }

  lemma KnownPairTexts(b: Text)
    ensures PairText(Pair([97], [49])) == [34, 97, 34, 58, 49] && PairText(Pair([98], b)) == [34, 98, 34, 58] + b
  {
    KnownKey(97);
    KnownKey(98);
    hide Quote;
  }

  lemma KnownPrintPairs(list: Json)
    ensures PrintPairs([Member([98], list), Member([97], Number([49]))]) == [Pair([98], Print(list)), Pair([97], [49])]
  {
    var members := [Member([98], list), Member([97], Number([49]))];
    assert members[1..] == [Member([97], Number([49]))] && members[1..][1..] == [];
    assert PrintPairs(members[1..]) == [Pair([97], Print(Number([49])))] + PrintPairs([]);
    assert PrintPairs(members) == [Pair([98], Print(list))] + PrintPairs(members[1..]);
  }

  lemma KnownObject(list: Json)
    ensures Print(Object([Member([98], list), Member([97], Number([49]))]))
      == [123] + ([34, 97, 34, 58, 49] + [44] + ([34, 98, 34, 58] + Print(list))) + [125]
  {
    KnownPrintPairs(list);
    KnownPairs(Pair([97], [49]), Pair([98], Print(list)));
    KnownPairTexts(Print(list));
    hide SortPairs, JoinPairs, PairText, PrintPairs;
  }

  /** An object with b before a, as {"a":1,"b":[true,null]}. */
  lemma KnownText()
    ensures Print(Object([Member([98], Array([Bool(true), Undefined])), Member([97], Number([49]))])) == [
      123, 34, 97, 34, 58, 49, 44, 34, 98, 34, 58, 91, 116, 114, 117, 101, 44, 110, 117, 108, 108, 93, 125]
  {
    hide Print;
    KnownObject(Array([Bool(true), Undefined]));
    KnownArray();
  }
}
