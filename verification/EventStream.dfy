/** The hash-linked event stream, apps/api/src/eventStream/eventService.ts and eventHash.ts:
    append, the batched verifier, suffix verification, and what a valid chain proves.

    SHA-256 is a parameter `sha`; where tampering is at stake it is assumed injective and never
    to yield the text GENESIS. */
module EventStream {
  import opened Wrappers
  import opened CanonicalJson
  import opened JsonParser

  /** The code units of a text of ASCII characters. */
  function Ascii(s: string): (t: Text)
    ensures |t| == |s|
  {
    if s == "" then [] else [Unit(s[0])] + Ascii(s[1..])
  }

  function Unit(c: char): CodeUnit { if c as int < 0x1_0000 then c as int else 0xfffd }

  const GENESIS: Text := Ascii("GENESIS")

  /** The hashed part of an event; `createdAt` is its ISO text. */
  datatype Content = Content(eventType: Text, entityType: Text, entityId: Option<Text>, actorUserId: Option<Text>,
                             payload: Json, previousHash: Text, createdAt: Text)

  /** A stored row of event_stream. */
  datatype Row = Row(id: nat, content: Content, eventHash: Text)

  // ---------- the hash of an event ----------

  function Nullable(t: Option<Text>): Json {
    match t
    case Some(text) => String(text)
    case None => Null
  }

  const KEYS: seq<Text> := [
    Ascii("actor_user_id"), Ascii("created_at_iso"), Ascii("entity_id"), Ascii("entity_type"), Ascii("event_type"),
    Ascii("payload"), Ascii("previous_event_hash")]

  function Fields(c: Content): (fs: seq<Json>)
    ensures |fs| == 7
  {
    [Nullable(c.actorUserId), String(c.createdAt), Nullable(c.entityId), String(c.entityType), String(c.eventType),
     c.payload, String(c.previousHash)]
  }

  function Members(c: Content): (ms: seq<Member>)
    ensures |ms| == 7
  {
    seq(7, i requires 0 <= i < 7 => Member(KEYS[i], Fields(c)[i]))
  }

  /** `computeEventHash`. */
  function ComputeHash(sha: Text -> Text, c: Content): Text {
    sha(Print(Object(Members(c))))
  }

  lemma KeyLength(i: nat)
    requires i < 7
    ensures |KEYS[i]| == [13, 14, 9, 11, 10, 7, 19][i]
  {
    hide Ascii;
  }

  lemma KeysDistinct(i: nat, j: nat)
    requires i < 7 && j < 7 && i != j
    ensures KEYS[i] != KEYS[j]
  {
    hide Ascii;
    KeyLength(i);
    KeyLength(j);
  }

  lemma {:induction false} MembersDistinct(c: Content, i: nat)
    requires i <= 7 && WellFormed(c.payload)
    ensures MembersWellFormed(Members(c)[i..])
    decreases 7 - i
  {
    var ms := Members(c);
    if i < 7 {
      MembersDistinct(c, i + 1);
      assert ms[i..][0] == ms[i] && ms[i..][1..] == ms[i + 1..];
      forall m | m in ms[i + 1..]
        ensures m.key != ms[i].key
      {
        var j :| i + 1 <= j < 7 && ms[j] == m;
        KeysDistinct(i, j);
      }
      FieldWellFormed(c, i);
    }
  }

  lemma FieldWellFormed(c: Content, i: nat)
    requires i < 7 && WellFormed(c.payload)
    ensures WellFormed(Fields(c)[i])
  {
  }

  /** Equal hashed texts mean equal fields, the payload up to JSON equality. */
  predicate SameContent(a: Content, b: Content) {
    && a.eventType == b.eventType && a.entityType == b.entityType
    && a.entityId == b.entityId && a.actorUserId == b.actorUserId
    && a.previousHash == b.previousHash && a.createdAt == b.createdAt
    && Meaning(a.payload) == Meaning(b.payload)
  }

  lemma FieldsFromMeaning(a: Content, b: Content)
    requires WellFormed(a.payload) && WellFormed(b.payload)
    requires MemberMap(Members(a)) == MemberMap(Members(b))
    ensures forall i :: 0 <= i < 7 ==> Meaning(Fields(a)[i]) == Meaning(Fields(b)[i])
  {
    hide MemberMap, Fields, Meaning;
    MembersDistinct(a, 0);
    MembersDistinct(b, 0);
    assert Members(a)[0..] == Members(a) && Members(b)[0..] == Members(b);
    forall i | 0 <= i < 7
      ensures Meaning(Fields(a)[i]) == Meaning(Fields(b)[i])
    {
      MeaningOf(Members(a), i);
      MeaningOf(Members(b), i);
    }
  }

  lemma SameFields(a: Content, b: Content)
    requires forall i :: 0 <= i < 7 ==> Meaning(Fields(a)[i]) == Meaning(Fields(b)[i])
    ensures SameContent(a, b)
  {
    assert Fields(a)[0] == Nullable(a.actorUserId) && Fields(b)[0] == Nullable(b.actorUserId);
    assert Meaning(Fields(a)[1]) == Meaning(Fields(b)[1]);
    assert Meaning(Fields(a)[2]) == Meaning(Fields(b)[2]);
    assert Meaning(Fields(a)[3]) == Meaning(Fields(b)[3]);
    assert Meaning(Fields(a)[4]) == Meaning(Fields(b)[4]);
    assert Meaning(Fields(a)[5]) == Meaning(Fields(b)[5]);
    assert Meaning(Fields(a)[6]) == Meaning(Fields(b)[6]);
  }

  lemma {:induction false} SameMemberMap(a: Content, b: Content)
    requires SameContent(a, b)
    ensures MemberMap(Members(a)) == MemberMap(Members(b))
  {
    SameMapFrom(a, b, 0);
    assert Members(a)[0..] == Members(a) && Members(b)[0..] == Members(b);
  }

  lemma {:induction false} SameMapFrom(a: Content, b: Content, i: nat)
    requires SameContent(a, b) && i <= 7
    ensures MemberMap(Members(a)[i..]) == MemberMap(Members(b)[i..])
    decreases 7 - i
  {
    if i < 7 {
      SameMapFrom(a, b, i + 1);
      assert Members(a)[i..][1..] == Members(a)[i + 1..] && Members(b)[i..][1..] == Members(b)[i + 1..];
      FieldMeaning(a, b, i);
    }
  }

  lemma FieldMeaning(a: Content, b: Content, i: nat)
    requires SameContent(a, b) && i < 7
    ensures Meaning(Fields(a)[i]) == Meaning(Fields(b)[i])
  {
  }

  /** Two events get one hash exactly when every hashed field agrees. */
  lemma HashIffSameContent(sha: Text -> Text, a: Content, b: Content)
    requires WellFormed(a.payload) && WellFormed(b.payload)
    requires Injective(sha)
    ensures ComputeHash(sha, a) == ComputeHash(sha, b) <==> SameContent(a, b)
  {
    hide Print, SameContent, Fields, WellFormed, MemberMap;
    HashedWellFormed(a);
    HashedWellFormed(b);
    SameTextIffSameMeaning(Object(Members(a)), Object(Members(b)));
    if MemberMap(Members(a)) == MemberMap(Members(b)) {
      FieldsFromMeaning(a, b);
      SameFields(a, b);
    } else if SameContent(a, b) {
      SameMemberMap(a, b);
    }
  }

  lemma HashedWellFormed(c: Content)
    requires WellFormed(c.payload)
    ensures WellFormed(Object(Members(c)))
  {
    MembersDistinct(c, 0);
    assert Members(c)[0..] == Members(c);
  }

  /** A text, or null where there is none. */
  function TextOrNull(t: Option<Text>): Value { if t.None? then VNull else VString(t.value) }

  /** Which value stands under which name of the hashed object. */
  ghost predicate IsHashedObject(m: map<Text, Value>, c: Content) {
    && m.Keys == {Ascii("actor_user_id"), Ascii("created_at_iso"), Ascii("entity_id"), Ascii("entity_type"),
                  Ascii("event_type"), Ascii("payload"), Ascii("previous_event_hash")}
    && m[Ascii("event_type")] == VString(c.eventType)
    && m[Ascii("entity_type")] == VString(c.entityType)
    && m[Ascii("entity_id")] == TextOrNull(c.entityId)
    && m[Ascii("actor_user_id")] == TextOrNull(c.actorUserId)
    && m[Ascii("payload")] == Meaning(c.payload)
    && m[Ascii("previous_event_hash")] == VString(c.previousHash)
    && m[Ascii("created_at_iso")] == VString(c.createdAt)
  }

  lemma FieldUnder(c: Content, i: nat)
    requires WellFormed(c.payload) && i < 7
    ensures KEYS[i] in MemberMap(Members(c)) && MemberMap(Members(c))[KEYS[i]] == Meaning(Fields(c)[i])
  {
    hide MemberMap, Fields, Meaning;
    MembersDistinct(c, 0);
    assert Members(c)[0..] == Members(c);
    MeaningOf(Members(c), i);
  }

  lemma HashedKeys(c: Content)
    ensures MemberMap(Members(c)).Keys == set i: nat | i < 7 :: KEYS[i]
  {
    hide Fields, MemberMap, Ascii;
    var ms := Members(c);
    MapKeys(ms);
    forall k ensures HasKey(ms, k) <==> exists i: nat :: i < 7 && KEYS[i] == k {
      if HasKey(ms, k) {
        var m :| m in ms && m.key == k;
        var i :| 0 <= i < 7 && ms[i] == m;
        assert KEYS[i] == k;
      }
      if i: nat :| i < 7 && KEYS[i] == k {
        assert ms[i] in ms && ms[i].key == k;
      }
    }
  }

  lemma KeyNames()
    ensures |KEYS| == 7
    ensures KEYS[0] == Ascii("actor_user_id") && KEYS[1] == Ascii("created_at_iso") && KEYS[2] == Ascii("entity_id")
    ensures KEYS[3] == Ascii("entity_type") && KEYS[4] == Ascii("event_type") && KEYS[5] == Ascii("payload")
    ensures KEYS[6] == Ascii("previous_event_hash")
  {
    hide Ascii;
  }

  lemma FieldMeanings(c: Content)
    ensures Meaning(Fields(c)[0]) == TextOrNull(c.actorUserId) && Meaning(Fields(c)[1]) == VString(c.createdAt)
    ensures Meaning(Fields(c)[2]) == TextOrNull(c.entityId) && Meaning(Fields(c)[3]) == VString(c.entityType)
    ensures Meaning(Fields(c)[4]) == VString(c.eventType) && Meaning(Fields(c)[5]) == Meaning(c.payload)
    ensures Meaning(Fields(c)[6]) == VString(c.previousHash)
  {
  }

  lemma HashedObject(c: Content)
    requires WellFormed(c.payload)
    ensures IsHashedObject(MemberMap(Members(c)), c)
  {
    hide MemberMap, Ascii, KEYS, Fields, Meaning, Members, WellFormed;
    KeyNames();
    SevenKeys();
    HashedKeys(c);
    FieldMeanings(c);
    FieldUnder(c, 0);
    FieldUnder(c, 1);
    FieldUnder(c, 2);
    FieldUnder(c, 3);
    FieldUnder(c, 4);
    FieldUnder(c, 5);
    FieldUnder(c, 6);
  }

  lemma SevenKeys()
    ensures (set i: nat | i < 7 :: KEYS[i]) == {KEYS[0], KEYS[1], KEYS[2], KEYS[3], KEYS[4], KEYS[5], KEYS[6]}
  {
    hide KEYS;
  }

  /** The hash of an event is that of a text which reads, with its keys in order, as the object of
      its fields under their names. */
  lemma HashIsOfFields(sha: Text -> Text, c: Content) returns (text: Text, tree: Tree, m: map<Text, Value>)
    requires WellFormed(c.payload)
    ensures ComputeHash(sha, c) == sha(text) && ParseTree(text) == Some((tree, []))
    ensures KeysIncrease(tree) && Denotes(tree) == VObject(m) && IsHashedObject(m, c)
  {
    hide Print, ParseTree, KeysIncrease, Denotes, IsHashedObject, WellFormed, MemberMap;
    HashedWellFormed(c);
    HashedObject(c);
    m := MemberMap(Members(c));
    text := Print(Object(Members(c)));
    tree := KeysReadInOrder(Object(Members(c)), []);
    assert text + [] == text;
  }

  ghost predicate Injective(sha: Text -> Text) { forall x, y :: sha(x) == sha(y) ==> x == y }

  // ---------- the chain ----------

  /** Row by row: each previous hash is the hash before it, each hash is the recomputed one. */
  ghost predicate Valid(sha: Text -> Text, rows: seq<Row>, before: Text)
    decreases |rows|
  {
    rows == [] || (RowOk(sha, rows[0], before) && Valid(sha, rows[1..], rows[0].eventHash))
  }

  predicate RowOk(sha: Text -> Text, r: Row, before: Text) {
    r.content.previousHash == before && ComputeHash(sha, r.content) == r.eventHash
  }

  function LastHash(rows: seq<Row>, before: Text): Text {
    if rows == [] then before else rows[|rows| - 1].eventHash
  }

  /** A chain is valid when its parts are, the second part starting at the first part's last hash. */
  lemma {:induction false} ValidConcat(sha: Text -> Text, a: seq<Row>, b: seq<Row>, before: Text)
    ensures Valid(sha, a + b, before) <==> Valid(sha, a, before) && Valid(sha, b, LastHash(a, before))
    decreases |a|
  {
    hide RowOk;
    if a == [] {
      assert a + b == b;
    } else {
      assert (a + b)[0] == a[0] && (a + b)[1..] == a[1..] + b;
      ValidConcat(sha, a[1..], b, a[0].eventHash);
    }
  }

  /** What a verifier answers: the number of rows it looked at, and the bad one if it met one. */
  datatype Verdict = Verdict(valid: bool, firstInvalidId: Option<nat>, totalEvents: nat)

  /** The answer a single pass from `before` must give. */
  ghost predicate Answers(sha: Text -> Text, rows: seq<Row>, before: Text, v: Verdict) {
    if v.valid then
      v.firstInvalidId.None? && v.totalEvents == |rows| && Valid(sha, rows, before)
    else
      && 0 < v.totalEvents <= |rows|
      && var bad := v.totalEvents - 1;
         && v.firstInvalidId == Some(rows[bad].id)
         && Valid(sha, rows[..bad], before)
         && !RowOk(sha, rows[bad], LastHash(rows[..bad], before))
  }

  /** The answer is determined by the rows: valid exactly when the chain is. */
  lemma AnswerIsUnique(sha: Text -> Text, rows: seq<Row>, before: Text, v: Verdict, w: Verdict)
    requires Answers(sha, rows, before, v) && Answers(sha, rows, before, w)
    ensures v == w
    ensures v.valid <==> Valid(sha, rows, before)
  {
    hide RowOk;
    BadIsInvalid(sha, rows, before, v);
    BadIsInvalid(sha, rows, before, w);
    if !v.valid && !w.valid {
      if v.totalEvents < w.totalEvents {
        BadFirst(sha, rows, before, v.totalEvents - 1, w.totalEvents - 1);
      } else if w.totalEvents < v.totalEvents {
        BadFirst(sha, rows, before, w.totalEvents - 1, v.totalEvents - 1);
      }
    }
  }

  lemma BadIsInvalid(sha: Text -> Text, rows: seq<Row>, before: Text, v: Verdict)
    requires Answers(sha, rows, before, v)
    ensures v.valid <==> Valid(sha, rows, before)
  {
    hide RowOk;
    if !v.valid {
      var bad := v.totalEvents - 1;
      assert rows == rows[..bad] + rows[bad..];
      ValidConcat(sha, rows[..bad], rows[bad..], before);
      assert rows[bad..][0] == rows[bad];
    }
  }

  lemma BadFirst(sha: Text -> Text, rows: seq<Row>, before: Text, i: nat, j: nat)
    requires i < j <= |rows| && !RowOk(sha, rows[i], LastHash(rows[..i], before))
    ensures !Valid(sha, rows[..j], before)
  {
    hide RowOk;
    assert rows[..j] == rows[..i] + rows[i..j];
    ValidConcat(sha, rows[..i], rows[i..j], before);
    assert rows[i..j][0] == rows[i];
  }

  const BATCH := 1000

  class EventLog {
    const sha: Text -> Text
    var rows: seq<Row>

    constructor (sha: Text -> Text)
      ensures this.sha == sha && rows == []
    {
      this.sha := sha;
      rows := [];
    }

    /** `recordEventTx`: the caller's content is hashed as given, and its payload stored as JSON. */
    method Record(input: Content, id: nat) returns (eventHash: Text)
      modifies this
      ensures eventHash == ComputeHash(sha, Linked(input, LastHash(old(rows), GENESIS)))
      ensures rows == old(rows) + [Row(id, Stored(Linked(input, LastHash(old(rows), GENESIS))), eventHash)]
      ensures var row := rows[|rows| - 1];
        && row.id == id && row.eventHash == eventHash
        && row.content.eventType == input.eventType && row.content.entityType == input.entityType
        && row.content.entityId == input.entityId && row.content.actorUserId == input.actorUserId
        && row.content.createdAt == input.createdAt
        && row.content.previousHash == if old(rows) == [] then GENESIS else old(rows)[|old(rows)| - 1].eventHash
    {
      var previousHash := if rows == [] then GENESIS else rows[|rows| - 1].eventHash;
      var content := input.(previousHash := previousHash);
      eventHash := ComputeHash(sha, content);
      rows := rows + [Row(id, content.(payload := StorePayload(content.payload)), eventHash)];
    }

    /** `verifyFullChain`: a cursor fetched BATCH rows at a time. */
    method VerifyFullChain() returns (v: Verdict)
      ensures Answers(sha, rows, GENESIS, v)
    {
      hide RowOk;
      var totalEvents, expectedPrevHash := 0, GENESIS;
      while totalEvents < |rows|
        invariant 0 <= totalEvents <= |rows|
        invariant Valid(sha, rows[..totalEvents], GENESIS)
        invariant expectedPrevHash == LastHash(rows[..totalEvents], GENESIS)
      {
        var batch := rows[totalEvents..if |rows| - totalEvents < BATCH then |rows| else totalEvents + BATCH];
        ghost var start := totalEvents;
        var i := 0;
        while i < |batch|
          invariant 0 <= i <= |batch| && totalEvents == start + i
          invariant Valid(sha, rows[..totalEvents], GENESIS)
          invariant expectedPrevHash == LastHash(rows[..totalEvents], GENESIS)
        {
          var row := batch[i];
          assert row == rows[totalEvents];
          var ok := CheckRow(row, expectedPrevHash);
          if !ok {
            return Verdict(false, Some(row.id), totalEvents + 1);
          }
          ExtendValid(sha, rows, totalEvents, GENESIS);
          expectedPrevHash := row.eventHash;
          totalEvents := totalEvents + 1;
          i := i + 1;
        }
      }
      assert rows[..totalEvents] == rows;
      v := Verdict(true, None, totalEvents);
    }

    /** The two tests made on a row. */
    method CheckRow(row: Row, expectedPrevHash: Text) returns (ok: bool)
      ensures ok == RowOk(sha, row, expectedPrevHash)
    {
      if row.content.previousHash != expectedPrevHash {
        return false;
      }
      var recomputed := ComputeHash(sha, row.content);
      ok := recomputed == row.eventHash;
    }

    /** `verifyFrom`, with the start id given as the index of the first row not below it. */
    method VerifyFrom(start: nat) returns (v: Verdict)
      requires start <= |rows|
      ensures Answers(sha, rows[start..], LastHash(rows[..start], GENESIS), v)
    {
      hide RowOk;
      var expectedPrevHash := if start > 0 then rows[start - 1].eventHash else GENESIS;
      ghost var seed := expectedPrevHash;
      var suffix := rows[start..];
      var i := 0;
      while i < |suffix|
        invariant 0 <= i <= |suffix|
        invariant Valid(sha, suffix[..i], seed)
        invariant expectedPrevHash == LastHash(suffix[..i], seed)
      {
        var ok := CheckRow(suffix[i], expectedPrevHash);
        if !ok {
          return Verdict(false, Some(suffix[i].id), i + 1);
        }
        ExtendValid(sha, suffix, i, seed);
        expectedPrevHash := suffix[i].eventHash;
        i := i + 1;
      }
      assert suffix[..i] == suffix;
      v := Verdict(true, None, i);
    }
  }

  lemma ExtendValid(sha: Text -> Text, rows: seq<Row>, i: nat, before: Text)
    requires i < |rows| && Valid(sha, rows[..i], before) && RowOk(sha, rows[i], LastHash(rows[..i], before))
    ensures Valid(sha, rows[..i + 1], before)
    ensures LastHash(rows[..i + 1], before) == rows[i].eventHash
  {
    hide RowOk;
    assert rows[..i + 1] == rows[..i] + [rows[i]];
    ValidConcat(sha, rows[..i], [rows[i]], before);
    assert [rows[i]][1..] == [];
  }

  /** Full validity is prefix validity plus a valid answer from `verifyFrom` on the suffix. */
  lemma SuffixVerification(sha: Text -> Text, rows: seq<Row>, start: nat, v: Verdict)
    requires start <= |rows|
    requires Answers(sha, rows[start..], LastHash(rows[..start], GENESIS), v)
    ensures Valid(sha, rows, GENESIS) <==> Valid(sha, rows[..start], GENESIS) && v.valid
  {
    hide RowOk;
    BadIsInvalid(sha, rows[start..], LastHash(rows[..start], GENESIS), v);
    assert rows == rows[..start] + rows[start..];
    ValidConcat(sha, rows[..start], rows[start..], GENESIS);
  }

  // ---------- storing a payload ----------

  /** What JSON storage keeps of a value: undefined members are dropped, and undefined items,
      non-finite numbers and dates take their JSON form. */
  function StorePayload(v: Json): Json {
    match v
    case Undefined => Null
    case NonFinite => Null
    case Date(iso) => String(iso)
    case Array(items) => Array(StoreItems(items))
    case Object(members) => Object(StoreMembers(members))
    case _ => v
  }

  function StoreItems(items: seq<Json>): seq<Json> {
    if items == [] then [] else [StorePayload(items[0])] + StoreItems(items[1..])
  }

  function StoreMembers(members: seq<Member>): seq<Member> {
    if members == [] then []
    else if members[0].value.Undefined? then StoreMembers(members[1..])
    else [Member(members[0].key, StorePayload(members[0].value))] + StoreMembers(members[1..])
  }

  /** No object in the value has an undefined member. */
  predicate NoUndefinedMember(v: Json) {
    match v
    case Array(items) => NoneInItems(items)
    case Object(members) => NoneInMembers(members)
    case _ => true
  }

  predicate NoneInItems(items: seq<Json>) {
    items == [] || (NoUndefinedMember(items[0]) && NoneInItems(items[1..]))
  }

  predicate NoneInMembers(members: seq<Member>) {
    || members == []
    || (!members[0].value.Undefined? && NoUndefinedMember(members[0].value) && NoneInMembers(members[1..]))
  }

  function Linked(input: Content, previousHash: Text): Content { input.(previousHash := previousHash) }

  function Stored(c: Content): Content { c.(payload := StorePayload(c.payload)) }

  lemma {:induction false} StoredKeys(members: seq<Member>)
    ensures forall k :: HasKey(StoreMembers(members), k) ==> HasKey(members, k)
  {
    if members != [] {
      StoredKeys(members[1..]);
      forall k | HasKey(StoreMembers(members), k)
        ensures HasKey(members, k)
      {
        var m :| m in StoreMembers(members) && m.key == k;
        if m in StoreMembers(members[1..]) {
          assert HasKey(members[1..], k);
          assert members == [members[0]] + members[1..];
        } else {
          assert members[0] in members;
        }
      }
    }
  }

  lemma {:induction false} MapKeys(members: seq<Member>)
    ensures forall k :: k in MemberMap(members) <==> HasKey(members, k)
  {
    if members != [] {
      MapKeys(members[1..]);
      assert members == [members[0]] + members[1..];
    }
  }

  /** Storing keeps a payload's meaning exactly when no object in it has an undefined member. */
  lemma {:induction false} StoreKeepsMeaningIff(v: Json)
    requires WellFormed(v)
    ensures WellFormed(StorePayload(v))
    ensures Meaning(StorePayload(v)) == Meaning(v) <==> NoUndefinedMember(v)
    decreases v, 1
  {
    match v
    case Array(items) => StoreItemsIff(items);
    case Object(members) => StoreMembersIff(members);
    case _ =>
  }

  lemma {:induction false} StoreItemsIff(items: seq<Json>)
    requires AllWellFormed(items)
    ensures AllWellFormed(StoreItems(items))
    ensures Meanings(StoreItems(items)) == Meanings(items) <==> NoneInItems(items)
    decreases items, 0
  {
    if items != [] {
      StoreKeepsMeaningIff(items[0]);
      StoreItemsIff(items[1..]);
      var stored := StoreItems(items);
      assert stored[1..] == StoreItems(items[1..]);
      assert Meanings(items)[0] == Meaning(items[0]) && Meanings(items)[1..] == Meanings(items[1..]);
      assert Meanings(stored)[0] == Meaning(stored[0]) && Meanings(stored)[1..] == Meanings(stored[1..]);
    }
  }

  lemma {:induction false} StoreMembersIff(members: seq<Member>)
    requires MembersWellFormed(members)
    ensures MembersWellFormed(StoreMembers(members))
    ensures MemberMap(StoreMembers(members)) == MemberMap(members) <==> NoneInMembers(members)
    decreases members, 0
  {
    if members != [] {
      var head, tail := members[0], members[1..];
      StoreKeepsMeaningIff(head.value);
      StoreMembersIff(tail);
      StoredKeys(tail);
      MapKeys(tail);
      MapKeys(StoreMembers(tail));
      var m, n := MemberMap(StoreMembers(tail)), MemberMap(tail);
      assert head.key !in m && head.key !in n;
      if head.value.Undefined? {
        assert head.key in MemberMap(members);
      } else {
        assert StoreMembers(members)[1..] == StoreMembers(tail);
        PutBoth(m, n, head.key, Meaning(StorePayload(head.value)), Meaning(head.value));
      }
    }
  }

  lemma PutBoth(m: map<Text, Value>, n: map<Text, Value>, k: Text, v: Value, w: Value)
    requires k !in m && k !in n
    ensures m[k := v] == n[k := w] <==> m == n && v == w
  {
    if m[k := v] == n[k := w] {
      assert m[k := v][k] == n[k := w][k];
      assert m == m[k := v] - {k} && n == n[k := w] - {k};
    }
  }

  // ---------- appending ----------

  /** Appending keeps the chain valid exactly when it was valid and the payload has no undefined
      member: such a member is hashed as null but not stored. */
  lemma AppendKeepsValidIff(sha: Text -> Text, rows: seq<Row>, input: Content, id: nat)
    requires Injective(sha) && WellFormed(input.payload)
    ensures var content := Linked(input, LastHash(rows, GENESIS));
      Valid(sha, rows + [Row(id, Stored(content), ComputeHash(sha, content))], GENESIS)
      <==> Valid(sha, rows, GENESIS) && NoUndefinedMember(input.payload)
  {
    hide ComputeHash, NoUndefinedMember, StorePayload, Meaning, WellFormed;
    var content := Linked(input, LastHash(rows, GENESIS));
    var row := Row(id, Stored(content), ComputeHash(sha, content));
    ValidConcat(sha, rows, [row], GENESIS);
    assert [row][1..] == [];
    StoreKeepsMeaningIff(input.payload);
    HashIffSameContent(sha, Stored(content), content);
  }

  // ---------- tamper evidence ----------

  ghost predicate NeverGenesis(sha: Text -> Text) { forall x :: sha(x) != GENESIS }

  predicate PayloadsWellFormed(rows: seq<Row>) { forall r :: r in rows ==> WellFormed(r.content.payload) }

  lemma ValidSnoc(sha: Text -> Text, rows: seq<Row>, r: Row, before: Text)
    ensures Valid(sha, rows + [r], before) <==> Valid(sha, rows, before) && RowOk(sha, r, LastHash(rows, before))
  {
    hide RowOk, LastHash;
    ValidConcat(sha, rows, [r], before);
    assert [r][0] == r && [r][1..] == [];
    assert forall x :: Valid(sha, [r], x) <==> RowOk(sha, r, x);
  }

  lemma LastRow(sha: Text -> Text, rows: seq<Row>)
    requires rows != [] && Valid(sha, rows, GENESIS)
    ensures var n := |rows| - 1;
      Valid(sha, rows[..n], GENESIS) && RowOk(sha, rows[n], LastHash(rows[..n], GENESIS))
  {
    hide RowOk, LastHash, Valid, Ascii, GENESIS;
    var n := |rows| - 1;
    assert rows == rows[..n] + [rows[n]];
    ValidSnoc(sha, rows[..n], rows[n], GENESIS);
  }

  /** Rows with one hash follow the same hash and say the same. */
  lemma SameHashSameRow(sha: Text -> Text, r: Row, q: Row, before: Text, after: Text)
    requires Injective(sha) && r.eventHash == q.eventHash
    requires WellFormed(r.content.payload) && WellFormed(q.content.payload)
    requires RowOk(sha, r, before) && RowOk(sha, q, after)
    ensures SameContent(r.content, q.content) && before == after
  {
    hide WellFormed, ComputeHash;
    HashIffSameContent(sha, r.content, q.content);
  }

  lemma HashedRow(sha: Text -> Text, r: Row, before: Text)
    requires NeverGenesis(sha) && RowOk(sha, r, before)
    ensures r.eventHash != GENESIS
  {
    hide Print;
  }

  lemma EmptyOnlyAtGenesis(sha: Text -> Text, rows: seq<Row>)
    requires NeverGenesis(sha) && Valid(sha, rows, GENESIS) && LastHash(rows, GENESIS) == GENESIS
    ensures rows == []
  {
    hide RowOk;
    if rows != [] {
      LastRow(sha, rows);
      HashedRow(sha, rows[|rows| - 1], LastHash(rows[..|rows| - 1], GENESIS));
    }
  }

  /** Two valid chains that end in the same hash are the same chain: same length, same hashes and
      same content in every row.  Row ids are not hashed. */
  lemma {:induction false} TamperEvident(sha: Text -> Text, a: seq<Row>, b: seq<Row>)
    requires Injective(sha) && NeverGenesis(sha)
    requires PayloadsWellFormed(a) && PayloadsWellFormed(b)
    requires Valid(sha, a, GENESIS) && Valid(sha, b, GENESIS)
    requires LastHash(a, GENESIS) == LastHash(b, GENESIS)
    ensures |a| == |b|
    ensures forall i :: 0 <= i < |a| ==>
      SameContent(a[i].content, b[i].content) && a[i].eventHash == b[i].eventHash
    decreases |a|
  {
    hide SameContent, WellFormed, RowOk, Valid, Injective, NeverGenesis;
    if a == [] {
      EmptyOnlyAtGenesis(sha, b);
    } else if b == [] {
      EmptyOnlyAtGenesis(sha, a);
    } else {
      var m, n := |a| - 1, |b| - 1;
      LastRow(sha, a);
      LastRow(sha, b);
      SameHashSameRow(sha, a[m], b[n], LastHash(a[..m], GENESIS), LastHash(b[..n], GENESIS));
      TamperEvident(sha, a[..m], b[..n]);
      forall i | 0 <= i < |a|
        ensures SameContent(a[i].content, b[i].content) && a[i].eventHash == b[i].eventHash
      {
        if i < m {
          assert a[i] == a[..m][i] && b[i] == b[..n][i];
        }
      }
    }
  }
}
