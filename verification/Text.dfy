/** The fragment of Go's `strings` package that the client uses.

A Go string is a sequence of bytes; a byte is modelled by the character with the same code,
so every statement below about all strings covers all byte strings. */
module Text {

  datatype Option<+T> = None | Some(value: T)

  predicate OccursAt(s: string, p: string, i: int) {
    0 <= i <= |s| - |p| && s[i..i + |p|] == p
  }

  predicate Contains(s: string, p: string) {
    exists i | 0 <= i <= |s| :: OccursAt(s, p, i)
  }

  function TrimSuffix(s: string, p: string): (r: string)
    ensures r == s || r + p == s
  {
    if |p| <= |s| && s[|s| - |p|..] == p then s[..|s| - |p|] else s
  }

  /** `strings.Index` with a one-byte pattern. */
  function IndexByte(s: string, c: char): (i: int)
    ensures -1 <= i < |s|
    ensures i == -1 ==> forall k | 0 <= k < |s| :: s[k] != c
    ensures 0 <= i ==> s[i] == c && forall k | 0 <= k < i :: s[k] != c
  {
    FirstByteFrom(s, c, 0)
  }

  function FirstByteFrom(s: string, c: char, from: nat): (i: int)
    requires from <= |s|
    ensures i == -1 || from <= i < |s|
    ensures i == -1 ==> forall k | from <= k < |s| :: s[k] != c
    ensures 0 <= i ==> s[i] == c && forall k | from <= k < i :: s[k] != c
    decreases |s| - from
  {
    if from == |s| then -1 else if s[from] == c then from else FirstByteFrom(s, c, from + 1)
  }

  /** `strings.LastIndex` with a one-byte pattern. */
  function LastIndexByte(s: string, c: char): (i: int)
    ensures -1 <= i < |s|
    ensures i == -1 ==> forall k | 0 <= k < |s| :: s[k] != c
    ensures 0 <= i ==> s[i] == c && forall k | i < k < |s| :: s[k] != c
  {
    LastByteBefore(s, c, |s|)
  }

  function LastByteBefore(s: string, c: char, to: nat): (i: int)
    requires to <= |s|
    ensures -1 <= i < to
    ensures i == -1 ==> forall k | 0 <= k < to :: s[k] != c
    ensures 0 <= i ==> s[i] == c && forall k | i < k < to :: s[k] != c
  {
    if to == 0 then -1 else if s[to - 1] == c then to - 1 else LastByteBefore(s, c, to - 1)
  }

  /** `strings.Index` with a pattern of any length. */
  function Index(s: string, p: string): (i: int)
    requires p != ""
    ensures -1 <= i < |s|
    ensures i == -1 <==> !Contains(s, p)
    ensures 0 <= i ==> OccursAt(s, p, i) && forall j | 0 <= j < i :: !OccursAt(s, p, j)
  {
    FirstFrom(s, p, 0)
  }

  function FirstFrom(s: string, p: string, k: nat): (i: int)
    requires p != "" && k <= |s|
    requires forall j | 0 <= j < k :: !OccursAt(s, p, j)
    ensures -1 <= i < |s|
    ensures i == -1 <==> !Contains(s, p)
    ensures 0 <= i ==> OccursAt(s, p, i) && forall j | 0 <= j < i :: !OccursAt(s, p, j)
    decreases |s| - k
  {
    if OccursAt(s, p, k) then k
    else if k == |s| then -1
    else FirstFrom(s, p, k + 1)
  }

  /** `strings.Split` with a one-byte separator. */
  function Split(s: string, c: char): (parts: seq<string>)
    ensures parts != []
    decreases |s|
  {
    var i := IndexByte(s, c);
    if i == -1 then [s] else [s[..i]] + Split(s[i + 1..], c)
  }

  function Join(parts: seq<string>, c: char): string {
    if parts == [] then ""
    else if |parts| == 1 then parts[0]
    else parts[0] + [c] + Join(parts[1..], c)
  }

  predicate Free(parts: seq<string>, c: char) {
    forall i | 0 <= i < |parts| :: c !in parts[i]
  }

  lemma OccurrenceByte(s: string, mark: string, i: nat, k: nat)
    requires k < |mark|
    ensures OccursAt(s, mark, i) ==> s[i + k] == mark[k]
  {
    if OccursAt(s, mark, i) {
      assert s[i..i + |mark|][k] == mark[k];
    }
  }

  lemma IndexByteAfter(head: string, c: char, tail: string)
    requires c !in head
    ensures IndexByte(head + [c] + tail, c) == |head|
  {
    var s := head + [c] + tail;
    assert s[|head|] == c;
    assert forall k | 0 <= k < |head| :: s[k] == head[k];
  }

  lemma SplitHead(head: string, c: char, tail: string)
    requires c !in head
    ensures Split(head + [c] + tail, c) == [head] + Split(tail, c)
  {
    IndexByteAfter(head, c, tail);
    var s := head + [c] + tail;
    assert s[..|head|] == head && s[|head| + 1..] == tail;
  }

  lemma {:induction false} SplitOfJoin(parts: seq<string>, c: char)
    requires parts != [] && Free(parts, c)
    ensures Split(Join(parts, c), c) == parts
  {
    if |parts| > 1 {
      SplitHead(parts[0], c, Join(parts[1..], c));
      SplitOfJoin(parts[1..], c);
    }
  }

  lemma {:induction false} JoinOfSplit(s: string, c: char)
    ensures Join(Split(s, c), c) == s && Free(Split(s, c), c)
    decreases |s|
  {
    var i := IndexByte(s, c);
    if i != -1 {
      JoinOfSplit(s[i + 1..], c);
      assert s == s[..i] + [c] + s[i + 1..];
      assert Split(s, c)[1..] == Split(s[i + 1..], c);
    }
  }

  /** An ASCII letter in its upper and its lower case: the same place in the two alphabets. */
  predicate CasePair(upper: char, lower: char) {
    'A' <= upper <= 'Z' && 'a' <= lower <= 'z' && upper as int - 'A' as int == lower as int - 'a' as int
  }

  /** ASCII `strings.ToUpper` and `strings.ToLower`. */
  function UpperByte(c: char): char {
    if 'a' <= c <= 'z' then (c as int - 32) as char else c
  }

  function LowerByte(c: char): char {
    if 'A' <= c <= 'Z' then (c as int + 32) as char else c
  }

  function ToUpper(s: string): (r: string)
    ensures |r| == |s|
  {
    seq(|s|, i requires 0 <= i < |s| => UpperByte(s[i]))
  }

  function ToLower(s: string): (r: string)
    ensures |r| == |s|
  {
    seq(|s|, i requires 0 <= i < |s| => LowerByte(s[i]))
  }

  /** The upper case of a string: lower-case letters give way to their capitals and nothing else
      changes. */
  lemma ToUpperIff(s: string, r: string)
    ensures ToUpper(s) == r <==>
      && |r| == |s|
      && forall i | 0 <= i < |s| :: CasePair(r[i], s[i]) || (r[i] == s[i] && !('a' <= s[i] <= 'z'))
  {
    forall i | 0 <= i < |s| && |r| == |s|
      ensures ToUpper(s)[i] == r[i] <==> CasePair(r[i], s[i]) || (r[i] == s[i] && !('a' <= s[i] <= 'z'))
    {
      UpperByteIff(s[i], r[i]);
    }
  }

  lemma UpperByteIff(c: char, r: char)
    ensures UpperByte(c) == r <==> CasePair(r, c) || (r == c && !('a' <= c <= 'z'))
  {}

  lemma ToLowerIff(s: string, r: string)
    ensures ToLower(s) == r <==>
      && |r| == |s|
      && forall i | 0 <= i < |s| :: CasePair(s[i], r[i]) || (r[i] == s[i] && !('A' <= s[i] <= 'Z'))
  {
    forall i | 0 <= i < |s| && |r| == |s|
      ensures ToLower(s)[i] == r[i] <==> CasePair(s[i], r[i]) || (r[i] == s[i] && !('A' <= s[i] <= 'Z'))
    {
      LowerByteIff(s[i], r[i]);
    }
  }

  lemma LowerByteIff(c: char, r: char)
    ensures LowerByte(c) == r <==> CasePair(c, r) || (r == c && !('A' <= c <= 'Z'))
  {}
}
