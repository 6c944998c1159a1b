/** IRCv3 message tags: the unescaping of values by five successive replacements, and the splitting of
a tag block.  Escaping follows the "Escaping values" section of the IRCv3 Message Tags specification. */
module Tags {
  import opened Text

  /** `strings.Replace` of every backslash followed by b. */
  function ReplaceEscape(s: string, b: char, to: char): string {
    if |s| < 2 then s
    else if s[0] == '\\' && s[1] == b then [to] + ReplaceEscape(s[2..], b, to)
    else [s[0]] + ReplaceEscape(s[1..], b, to)
  }

  function Unescape(value: string): string {
    var v1 := ReplaceEscape(value, ':', ';');
    var v2 := ReplaceEscape(v1, 's', ' ');
    var v3 := ReplaceEscape(v2, '\\', '\\');
    var v4 := ReplaceEscape(v3, 'r', '\r');
    ReplaceEscape(v4, 'n', '\n')
  }

  function EscapeByte(c: char): string {
    match c
    case ';' => "\\:"
    case ' ' => "\\s"
    case '\\' => "\\\\"
    case '\r' => "\\r"
    case '\n' => "\\n"
    case _ => [c]
  }

  function Escape(value: string): string {
    if value == "" then "" else EscapeByte(value[0]) + Escape(value[1..])
  }

  // ---- What the five replacements make of an escaped value --------------------------------

  /** A backslash followed by one of the bytes that an escape may end in. */
  predicate IsTrap(v: string) {
    |v| >= 2 && v[0] == '\\' && (v[1] == ':' || v[1] == 's' || v[1] == 'r' || v[1] == 'n')
  }

  /** What a trap comes out as. */
  function SprungText(c: char): string {
    match c
    case ':' => "\\;"
    case 's' => "\\ "
    case 'r' => "\r"
    case _ => "\n"
  }

  /** The value that comes out: right but for the traps. */
  function Received(v: string): string {
    if v == "" then ""
    else if IsTrap(v) then
      SprungText(v[1]) + Received(v[2..])
    else [v[0]] + Received(v[1..])
  }

  /** The text of the byte c of the value after the first k replacements. */
  function StageByte(c: char, k: nat): string {
    match c
    case ';' => if k >= 1 then ";" else "\\:"
    case ' ' => if k >= 2 then " " else "\\s"
    case '\\' => if k >= 3 then "\\" else "\\\\"
    case '\r' => if k >= 4 then "\r" else "\\r"
    case '\n' => if k >= 5 then "\n" else "\\n"
    case _ => [c]
  }

  /** Has the trap at the head of v been sprung by the first k replacements? */
  predicate Sprung(v: string, k: nat) {
    IsTrap(v) && k >= (match v[1] case ':' => 1 case 's' => 2 case 'r' => 4 case _ => 5)
  }

  /** The escaped value after the first k replacements. */
  function Stage(v: string, k: nat): string {
    if v == "" then ""
    else if Sprung(v, k) then SprungText(v[1]) + Stage(v[2..], k)
    else StageByte(v[0], k) + Stage(v[1..], k)
  }

  /** The second byte of the k-th escape and what replaces the escape. */
  function EscapeEnd(k: nat): char {
    match k case 1 => ':' case 2 => 's' case 3 => '\\' case 4 => 'r' case _ => 'n'
  }

  function Replacement(k: nat): char {
    match k case 1 => ';' case 2 => ' ' case 3 => '\\' case 4 => '\r' case _ => '\n'
  }

  function ReplaceNth(s: string, k: nat): string {
    ReplaceEscape(s, EscapeEnd(k), Replacement(k))
  }

  lemma ReplacePlain(c: char, rest: string, k: nat)
    requires c != '\\' || rest == "" || rest[0] != EscapeEnd(k)
    ensures ReplaceNth([c] + rest, k) == [c] + ReplaceNth(rest, k)
  {
    assert ([c] + rest)[1..] == rest;
  }

  lemma ReplaceHit(rest: string, k: nat)
    ensures ReplaceNth(['\\', EscapeEnd(k)] + rest, k) == [Replacement(k)] + ReplaceNth(rest, k)
  {
    assert (['\\', EscapeEnd(k)] + rest)[2..] == rest;
  }

  lemma ReplaceMiss(d: char, rest: string, k: nat)
    requires d != EscapeEnd(k) && (d == '\\' ==> rest == "" || rest[0] != EscapeEnd(k))
    ensures ReplaceNth(['\\', d] + rest, k) == ['\\', d] + ReplaceNth(rest, k)
  {
    ReplacePlain('\\', [d] + rest, k);
    ReplacePlain(d, rest, k);
    assert ['\\', d] + rest == ['\\'] + ([d] + rest);
  }

  /** The first byte of a stage shows an escape's letter only if the value starts with it. */
  lemma StageHead(v: string, k: nat, c: char)
    requires c == ':' || c == 's' || c == 'r' || c == 'n'
    ensures Stage(v, k) == "" <==> v == ""
    ensures v != "" ==> (Stage(v, k)[0] == c <==> v[0] == c)
  {}

  /** The k-th replacement on the text of a byte that is not part of a sprung trap. */
  lemma ByteStep(c: char, rest: string, k: nat)
    requires 1 <= k <= 5
    requires c == '\\' && k != 3 ==> rest == "" || rest[0] != EscapeEnd(k)
    ensures ReplaceNth(StageByte(c, k - 1) + rest, k) == StageByte(c, k) + ReplaceNth(rest, k)
  {
    hide ReplaceNth;
    if |StageByte(c, k - 1)| == 1 {
      ReplacePlain(StageByte(c, k - 1)[0], rest, k);
    } else if StageByte(c, k - 1)[1] == EscapeEnd(k) {
      ReplaceHit(rest, k);
      assert StageByte(c, k - 1) == ['\\', EscapeEnd(k)];
    } else {
      ReplaceMiss(StageByte(c, k - 1)[1], rest, k);
      assert StageByte(c, k - 1) == ['\\', StageByte(c, k - 1)[1]];
    }
  }

  /** The k-th replacement on a trap that is, or is then, sprung. */
  lemma TrapStep(v: string, rest: string, k: nat)
    requires 1 <= k <= 5 && Sprung(v, k)
    ensures ReplaceNth((if Sprung(v, k - 1) then SprungText(v[1]) else StageByte('\\', k - 1) + [v[1]]) + rest, k)
      == SprungText(v[1]) + ReplaceNth(rest, k)
  {
    hide ReplaceNth;
    var d := v[1];
    if Sprung(v, k - 1) {
      if |SprungText(d)| == 1 {
        ReplacePlain(SprungText(d)[0], rest, k);
      } else {
        ReplaceMiss(SprungText(d)[1], rest, k);
        assert SprungText(d) == ['\\', SprungText(d)[1]];
      }
    } else {
      assert d == EscapeEnd(k);
      ReplaceHit(rest, k);
      if k <= 2 {
        ReplacePlain('\\', ['\\', d] + rest, k);
        assert StageByte('\\', k - 1) + [d] + rest == ['\\'] + (['\\', d] + rest);
      } else {
        assert StageByte('\\', k - 1) + [d] + rest == ['\\', d] + rest;
      }
    }
  }

  lemma {:induction false} StageStep(v: string, k: nat)
    requires 1 <= k <= 5
    ensures ReplaceNth(Stage(v, k - 1), k) == Stage(v, k)
  {
    hide ReplaceNth, StageByte, SprungText;
    if v == "" {
      EmptyStep(k);
    } else if Sprung(v, k) {
      StageStep(v[2..], k);
      TrapStep(v, Stage(v[2..], k - 1), k);
      if !Sprung(v, k - 1) {
        LetterStage(v[1..], k - 1);
        assert v[1..][1..] == v[2..];
        assert Stage(v, k - 1) == StageByte('\\', k - 1) + [v[1]] + Stage(v[2..], k - 1);
      }
    } else {
      StageStep(v[1..], k);
      NotSprungHead(v, k);
      ByteStep(v[0], Stage(v[1..], k - 1), k);
    }
  }

  lemma EmptyStep(k: nat)
    ensures ReplaceNth("", k) == ""
  {}

  lemma LetterStage(w: string, k: nat)
    requires w != "" && (w[0] == ':' || w[0] == 's' || w[0] == 'r' || w[0] == 'n')
    ensures Stage(w, k) == [w[0]] + Stage(w[1..], k)
  {}

  lemma NotSprungHead(v: string, k: nat)
    requires 1 <= k <= 5 && v != "" && !Sprung(v, k)
    ensures !Sprung(v, k - 1)
    ensures v[0] == '\\' && k != 3 ==>
      Stage(v[1..], k - 1) == "" || Stage(v[1..], k - 1)[0] != EscapeEnd(k)
  {
    if k != 3 {
      StageHead(v[1..], k - 1, EscapeEnd(k));
    }
  }

  lemma {:induction false} StageEnds(v: string)
    ensures Stage(v, 0) == Escape(v) && Stage(v, 5) == Received(v)
  {
    if v != "" {
      StageEnds(v[1..]);
      if |v| >= 2 {
        StageEnds(v[2..]);
      }
    }
  }

  /** Unescaping an escaped value, for every value. */
  lemma UnescapeEscape(v: string)
    ensures Unescape(Escape(v)) == Received(v)
  {
    hide ReplaceEscape, Stage;
    StageEnds(v);
    StageStep(v, 1);
    StageStep(v, 2);
    StageStep(v, 3);
    StageStep(v, 4);
    StageStep(v, 5);
  }

  predicate HasTrap(v: string) {
    exists i | 0 <= i < |v| :: IsTrap(v[i..])
  }

  lemma {:induction false} ReceivedSameIff(v: string)
    ensures Received(v) == v <==> !HasTrap(v)
  {
    if v != "" {
      ReceivedSameIff(v[1..]);
      if IsTrap(v) {
        assert IsTrap(v[0..]) by { assert v[0..] == v; }
        var out := Received(v);
        assert out[0] == SprungText(v[1])[0];
        assert v[1] == ':' || v[1] == 's' ==> out[1] == SprungText(v[1])[1];
      } else {
        assert v == [v[0]] + v[1..];
        assert Received(v)[1..] == Received(v[1..]);
        assert forall i | 0 <= i < |v| - 1 :: v[1..][i..] == v[i + 1..];
        assert v[0..] == v;
        HasTrapTail(v);
      }
    }
  }

  lemma HasTrapTail(v: string)
    requires v != "" && !IsTrap(v)
    ensures HasTrap(v) <==> HasTrap(v[1..])
  {
    if HasTrap(v) {
      var i :| 0 <= i < |v| && IsTrap(v[i..]);
      assert v[0..] == v;
      assert v[i..] == v[1..][i - 1..];
    }
    if HasTrap(v[1..]) {
      var i :| 0 <= i < |v| - 1 && IsTrap(v[1..][i..]);
      assert v[i + 1..] == v[1..][i..];
    }
  }

  /** The round trip is exact just when no backslash stands before `:`, `s`, `r` or `n`. */
  lemma EscapeRoundTripIff(v: string)
    ensures Unescape(Escape(v)) == v <==> !HasTrap(v)
  {
    UnescapeEscape(v);
    ReceivedSameIff(v);
  }

  // ---- Tag blocks --------------------------------------------------------------------------

  datatype Tag = Tag(key: string, value: Option<string>)

  predicate ValidKey(key: string) {
    ';' !in key && '=' !in key && ' ' !in key
  }

  function PrintTag(t: Tag): string {
    if t.value.None? then t.key else t.key + "=" + Escape(t.value.value)
  }

  function PrintParts(tags: seq<Tag>): seq<string> {
    seq(|tags|, i requires 0 <= i < |tags| => PrintTag(tags[i]))
  }

  function PrintTags(tags: seq<Tag>): string {
    Join(PrintParts(tags), ';')
  }

  /** The value a tag denotes to a reader of the block. */
  function ValueOf(t: Tag): string {
    if t.value.None? then "" else Received(t.value.value)
  }

  /** The map of a list of tags, the last of equal keys winning. */
  function TagMap(tags: seq<Tag>): map<string, string> {
    if tags == [] then map[]
    else
      var last := tags[|tags| - 1];
      TagMap(tags[..|tags| - 1])[last.key := ValueOf(last)]
  }

  function ReadTag(data: string): (string, string) {
    var i := IndexByte(data, '=');
    if i == -1 then (data, "") else (data[..i], Unescape(data[i + 1..]))
  }

  function ReadParts(parts: seq<string>): map<string, string> {
    if parts == [] then map[]
    else
      var (key, value) := ReadTag(parts[|parts| - 1]);
      ReadParts(parts[..|parts| - 1])[key := value]
  }

  method ReadBlock(block: string) returns (tags: map<string, string>)
    ensures tags == ReadParts(Split(block, ';'))
  {
    hide ReadTag;
    tags := map[];
    var parts := Split(block, ';');
    for i := 0 to |parts|
      invariant tags == ReadParts(parts[..i])
    {
      assert parts[..i + 1][..i] == parts[..i];
      var (key, value) := ReadTag(parts[i]);
      tags := tags[key := value];
    }
    assert parts[..|parts|] == parts;
  }

  lemma {:induction false} EscapeIsClean(v: string)
    ensures ';' !in Escape(v) && ' ' !in Escape(v)
  {
    if v != "" {
      EscapeIsClean(v[1..]);
    }
  }

  lemma PrintedTag(t: Tag)
    requires ValidKey(t.key)
    ensures ';' !in PrintTag(t) && ' ' !in PrintTag(t)
    ensures ReadTag(PrintTag(t)) == (t.key, ValueOf(t))
  {
    hide Unescape, Escape, Received;
    if t.value.Some? {
      var text := Escape(t.value.value);
      EscapeIsClean(t.value.value);
      UnescapeEscape(t.value.value);
      IndexByteAfter(t.key, '=', text);
      assert PrintTag(t) == t.key + ['='] + text;
      assert PrintTag(t)[..|t.key|] == t.key && PrintTag(t)[|t.key| + 1..] == text;
    }
  }

  lemma {:induction false} ReadPrintedParts(tags: seq<Tag>)
    requires forall i | 0 <= i < |tags| :: ValidKey(tags[i].key)
    ensures ReadParts(PrintParts(tags)) == TagMap(tags)
  {
    hide ReadTag, PrintTag, ValueOf;
    if tags != [] {
      var before := tags[..|tags| - 1];
      ReadPrintedParts(before);
      PrintedTag(tags[|tags| - 1]);
      assert PrintParts(tags)[..|tags| - 1] == PrintParts(before);
    }
  }

  lemma {:induction false} JoinLacks(parts: seq<string>, sep: char, c: char)
    requires sep != c && Free(parts, c)
    ensures c !in Join(parts, sep)
  {
    if |parts| > 1 {
      JoinLacks(parts[1..], sep, c);
    }
  }

  /** A printed tag block holds no space and reads back as the map of its tags. */
  lemma TagBlockRoundTrip(tags: seq<Tag>)
    requires tags != [] && forall i | 0 <= i < |tags| :: ValidKey(tags[i].key)
    ensures ' ' !in PrintTags(tags)
    ensures ReadParts(Split(PrintTags(tags), ';')) == TagMap(tags)
  {
    hide PrintTag, Split, Join, ReadParts, TagMap;
    var parts := PrintParts(tags);
    forall i | 0 <= i < |parts| ensures ';' !in parts[i] && ' ' !in parts[i] {
      PrintedTag(tags[i]);
    }
    JoinLacks(parts, ';', ' ');
    SplitOfJoin(parts, ';');
    ReadPrintedParts(tags);
  }

  function Intended(t: Tag): string {
    if t.value.None? then "" else t.value.value
  }

  predicate DistinctKeys(tags: seq<Tag>) {
    forall j, k | 0 <= j < k < |tags| :: tags[j].key != tags[k].key
  }

  predicate TrapFree(t: Tag) {
    t.value.Some? ==> !HasTrap(t.value.value)
  }

  lemma {:induction false} TagMapKeys(tags: seq<Tag>, key: string)
    ensures key in TagMap(tags) <==> exists i | 0 <= i < |tags| :: tags[i].key == key
  {
    hide ValueOf;
    if tags != [] {
      var before, last := tags[..|tags| - 1], tags[|tags| - 1];
      TagMapKeys(before, key);
      assert forall i | 0 <= i < |before| :: before[i] == tags[i];
    }
  }

  lemma {:induction false} DistinctTagKept(tags: seq<Tag>, i: nat)
    requires i < |tags| && DistinctKeys(tags) && TrapFree(tags[i])
    ensures tags[i].key in TagMap(tags) && TagMap(tags)[tags[i].key] == Intended(tags[i])
  {
    hide HasTrap, Received;
    if i == |tags| - 1 {
      if tags[i].value.Some? {
        ReceivedSameIff(tags[i].value.value);
      }
    } else {
      DistinctTagKept(tags[..|tags| - 1], i);
    }
  }

  /** With distinct keys and no trap in a value, a printed block reads back as exactly the tags: the
      same keys, each with its own value. */
  lemma DistinctTagsReadBack(tags: seq<Tag>)
    requires tags != [] && DistinctKeys(tags)
    requires forall i | 0 <= i < |tags| :: ValidKey(tags[i].key) && TrapFree(tags[i])
    ensures var m := ReadParts(Split(PrintTags(tags), ';'));
      && (forall key | key in m :: exists i | 0 <= i < |tags| :: tags[i].key == key)
      && (forall i | 0 <= i < |tags| :: tags[i].key in m && m[tags[i].key] == Intended(tags[i]))
  {
    hide TagMap, ReadParts, Split, PrintTags, ValidKey, TrapFree, DistinctKeys, Intended;
    TagBlockRoundTrip(tags);
    forall key { TagMapKeys(tags, key); }
    forall i | 0 <= i < |tags|
      ensures tags[i].key in TagMap(tags) && TagMap(tags)[tags[i].key] == Intended(tags[i])
    {
      DistinctTagKept(tags, i);
    }
  }
}
