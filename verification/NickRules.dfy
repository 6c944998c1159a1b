/** Nickname arithmetic: casemapping (section 2.2 of RFC 2812), the nickname grammar
(section 2.3.1 of RFC 2812) and the generator of alternative nicknames. */
module NickRules {
  import Text

  const MAX_NICK_LEN := 9

  // ---- Casemapping -------------------------------------------------------

  function FoldByte(c: char): char {
    match c
    case '[' => '{'
    case ']' => '}'
    case '\\' => '|'
    case '~' => '^'
    case _ => if 'A' <= c <= 'Z' then (c as int + 32) as char else c
  }

  function Canonical(nick: string): (r: string)
    ensures |r| == |nick|
  {
    seq(|nick|, i requires 0 <= i < |nick| => FoldByte(nick[i]))
  }

  predicate NickEqual(a: string, b: string) {
    Canonical(a) == Canonical(b)
  }

  method CanonicalizeNick(nick: string) returns (r: string)
    ensures r == Canonical(nick)
  {
    r := "";
    for i := 0 to |nick|
      invariant r == Canonical(nick)[..i]
    {
      var ch := nick[i];
      match ch {
        case '[' => ch := '{';
        case ']' => ch := '}';
        case '\\' => ch := '|';
        case '~' => ch := '^';
        case _ =>
      }
      if 'A' <= ch <= 'Z' {
        ch := (ch as int + 32) as char;
      }
      r := r + [ch];
    }
  }

  /** Casemapping is idempotent, so equality up to casemapping is equality of normal forms. */
  lemma CanonicalIdempotent(nick: string)
    ensures Canonical(Canonical(nick)) == Canonical(nick)
  {
    forall i | 0 <= i < |nick|
      ensures Canonical(Canonical(nick))[i] == Canonical(nick)[i]
    {
      assert FoldByte(FoldByte(nick[i])) == FoldByte(nick[i]);
    }
  }

  /** The two forms of a letter by section 2.2 of RFC 2812. */
  predicate TwoForms(upper: char, lower: char) {
    || Text.CasePair(upper, lower)
    || (upper == '[' && lower == '{')
    || (upper == ']' && lower == '}')
    || (upper == '\\' && lower == '|')
    || (upper == '~' && lower == '^')
  }

  predicate SameLetter(a: char, b: char) {
    a == b || TwoForms(a, b) || TwoForms(b, a)
  }

  lemma FoldSameIff(a: char, b: char)
    ensures FoldByte(a) == FoldByte(b) <==> SameLetter(a, b)
  {}

  /** Two nicks are equal exactly if they agree letter by letter, in either form of each. */
  lemma NickEqualIff(a: string, b: string)
    ensures NickEqual(a, b) <==> |a| == |b| && forall i | 0 <= i < |a| :: SameLetter(a[i], b[i])
  {
    hide SameLetter, FoldByte;
    forall i | 0 <= i < |a| && |a| == |b|
      ensures Canonical(a)[i] == Canonical(b)[i] <==> SameLetter(a[i], b[i])
    {
      FoldSameIff(a[i], b[i]);
    }
  }

  // ---- Grammar -----------------------------------------------------------

  predicate IsFirstChar(c: char) {
    'A' <= c <= 'Z' || 'a' <= c <= 'z' || '[' <= c <= '`' || '{' <= c <= '}'
  }

  predicate IsNickChar(c: char) {
    IsFirstChar(c) || '0' <= c <= '9' || c == '-'
  }

  predicate AllNickChars(s: string) {
    forall i | 0 <= i < |s| :: IsNickChar(s[i])
  }

  predicate ValidNick(nick: string) {
    1 <= |nick| <= MAX_NICK_LEN && IsFirstChar(nick[0]) && AllNickChars(nick)
  }

  /** The grammar's productions, as the byte codes of section 2.3.1 of RFC 2812: letters, specials,
      digits and the dash. */
  lemma GrammarBytes(c: char)
    ensures IsFirstChar(c) <==>
      var x := c as int; 0x41 <= x <= 0x5A || 0x61 <= x <= 0x7A || 0x5B <= x <= 0x60 || 0x7B <= x <= 0x7D
    ensures IsNickChar(c) <==> IsFirstChar(c) || 0x30 <= c as int <= 0x39 || c as int == 0x2D
  {}

  function Legal(s: string): (r: string)
    ensures AllNickChars(r) && |r| <= |s|
  {
    if s == "" then ""
    else LegalByte(s[0]) + Legal(s[1..])
  }

  function Cut9(s: string): string {
    if |s| > MAX_NICK_LEN then s[..MAX_NICK_LEN] else s
  }

  /** Put `_` in front of a nick that starts with a digit or a dash. */
  function Headed(s: string): string {
    if s == "" || IsFirstChar(s[0]) then s else "_" + s
  }

  function Kept(nick: string): string {
    Cut9(Headed(Legal(nick)))
  }

  function Sanitize(nick: string): (r: string)
    ensures ValidNick(r)
  {
    if Legal(nick) == "" then "Guest" else Kept(nick)
  }

  function LegalByte(c: char): string {
    if IsNickChar(c) then [c] else ""
  }

  lemma {:induction false} LegalConcat(a: string, b: string)
    ensures Legal(a + b) == Legal(a) + Legal(b)
  {
    hide LegalByte, AllNickChars;
    if a == "" {
      assert a + b == b;
    } else {
      var ab := a + b;
      assert ab[0] == a[0] && ab[1..] == a[1..] + b;
      LegalConcat(a[1..], b);
      assert Legal(ab) == LegalByte(a[0]) + (Legal(a[1..]) + Legal(b));
    }
  }

  lemma KeptNothing(s: string)
    ensures Kept("") == "" && (Kept(s) == "" <==> Legal(s) == "")
  {}

  lemma KeptSnoc(s: string, c: char)
    ensures Kept(s + [c]) ==
      if !IsNickChar(c) || |Kept(s)| >= MAX_NICK_LEN then Kept(s)
      else if Kept(s) == "" then Headed([c])
      else Kept(s) + [c]
  {
    LegalConcat(s, [c]);
    assert Legal([c]) == if IsNickChar(c) then [c] else "";
  }

  lemma KeptFull(a: string, b: string)
    requires |Kept(a)| >= MAX_NICK_LEN
    ensures Kept(a + b) == Kept(a)
  {
    LegalConcat(a, b);
  }

  /** The byte loop: bytes are examined until nine have been kept. */
  method SanitizeNick(nick: string) returns (r: string)
    ensures r == Sanitize(nick)
  {
    hide Legal, Kept;
    KeptNothing(nick);
    r := "";
    var i := 0;
    while i < |nick| && |r| < MAX_NICK_LEN
      invariant 0 <= i <= |nick|
      invariant r == Kept(nick[..i])
    {
      var ch := nick[i];
      KeptSnoc(nick[..i], ch);
      assert nick[..i + 1] == nick[..i] + [ch];
      if |r| == 0 {
        if IsFirstChar(ch) {
          r := r + [ch];
        } else if IsNickChar(ch) {
          r := r + "_";
          if |r| < MAX_NICK_LEN {
            r := r + [ch];
          }
        }
      } else if IsNickChar(ch) {
        r := r + [ch];
      }
      i := i + 1;
    }
    if i < |nick| {
      KeptFull(nick[..i], nick[i..]);
    }
    assert nick == nick[..i] + nick[i..];
    assert i == |nick| ==> nick[..i] == nick;
    if |r| == 0 {
      r := "Guest";
    }
  }

  lemma {:induction false} LegalOfLegal(s: string)
    requires AllNickChars(s)
    ensures Legal(s) == s
  {
    if s != "" {
      assert s[1..] == s[1..|s|];
      LegalOfLegal(s[1..]);
    }
  }

  /** Sanitising is the identity exactly on the nicks of the grammar. */
  lemma SanitizeIdentityIff(nick: string)
    ensures Sanitize(nick) == nick <==> ValidNick(nick)
  {
    if ValidNick(nick) {
      LegalOfLegal(nick);
    }
  }

  /** Illegal bytes are as if they were not there. */
  lemma IllegalIgnored(a: string, c: char, b: string)
    requires !IsNickChar(c)
    ensures Sanitize(a + [c] + b) == Sanitize(a + b)
  {
    hide Kept, ValidNick, AllNickChars;
    LegalConcat(a + [c], b);
    LegalConcat(a, [c]);
    LegalConcat(a, b);
    assert Legal([c]) == "" by { assert [c][1..] == ""; }
    assert Legal(a + [c] + b) == Legal(a + b);
    SameLegal(a + [c] + b, a + b);
  }

  lemma SameLegal(s: string, t: string)
    requires Legal(s) == Legal(t)
    ensures Sanitize(s) == Sanitize(t)
  {}

  /** Of legal bytes nine are kept, with `_` before an illegal first one; nothing becomes `Guest`. */
  lemma SanitizeRepairs(legal: string)
    requires AllNickChars(legal)
    ensures Sanitize(legal) ==
      if legal == "" then "Guest"
      else
        var whole := if IsFirstChar(legal[0]) then legal else "_" + legal;
        if |whole| > 9 then whole[..9] else whole
  {
    LegalOfLegal(legal);
  }

  // ---- The generator -----------------------------------------------------

  function BuildCandidate(base: string, suffix: string): (r: string)
    ensures ValidNick(r)
  {
    var wanted := if suffix == "" then "_" else suffix;
    var tail := if |wanted| >= MAX_NICK_LEN then wanted[..MAX_NICK_LEN - 1] else wanted;
    var room := MAX_NICK_LEN - |tail|;
    var head := if |base| > room then base[..room] else base;
    var candidate := head + tail;
    Sanitize(if IsFirstChar(candidate[0]) then candidate else Cut9("_" + candidate))
  }

  const SUFFIXES: seq<string> := ["_", "-", "0", "1", "2", "3", "4", "5", "6", "7", "8", "9"]

  /** What the generator amounts to: extend by `_` up to nine bytes, then switch the last byte
      between `_` and `-`. */
  function Alternative(nick: string): string {
    var base := Sanitize(nick);
    if |base| < MAX_NICK_LEN then base + "_"
    else if base[8] != '_' then base[..8] + "_"
    else base[..8] + "-"
  }

  /** A candidate for a valid base is the base, shortened to make room, and the suffix. */
  lemma CandidateOfValid(base: string, suffix: string)
    requires ValidNick(base) && AllNickChars(suffix) && 1 <= |suffix| <= 8
    ensures var room := 9 - |suffix|;
      BuildCandidate(base, suffix) == (if |base| > room then base[..room] else base) + suffix
    ensures BuildCandidate(base, "") == BuildCandidate(base, "_")
  {
    var room := 9 - |suffix|;
    var candidate := (if |base| > room then base[..room] else base) + suffix;
    assert candidate[0] == base[0];
    SanitizeIdentityIff(candidate);
  }

  lemma DifferByLastByte(head: string, a: char, b: char)
    ensures NickEqual(head + [a], head + [b]) <==> FoldByte(a) == FoldByte(b)
  {
    var x, y := Canonical(head + [a]), Canonical(head + [b]);
    assert x[|head|] == FoldByte(a) && y[|head|] == FoldByte(b);
    if FoldByte(a) == FoldByte(b) {
      assert forall i | 0 <= i < |x| :: x[i] == y[i];
    }
  }

  lemma OnlyUnderscoreFoldsToIt(c: char)
    requires IsNickChar(c)
    ensures FoldByte(c) == '_' <==> c == '_'
  {}

  /** The first suffix that changes a valid base is the first or, after nine bytes, the second. */
  lemma CandidateDiffers(base: string)
    requires ValidNick(base)
    ensures var stem := if |base| > 8 then base[..8] else base;
      && BuildCandidate(base, "_") == stem + "_" && BuildCandidate(base, "-") == stem + "-"
      && (NickEqual(stem + "_", base) <==> |base| == 9 && base[8] == '_')
      && (|base| == 9 && base[8] == '_' ==> !NickEqual(stem + "-", base))
  {
    CandidateOfValid(base, "_");
    CandidateOfValid(base, "-");
    hide BuildCandidate;
    if |base| == 9 {
      hide NickEqual;
      assert base == base[..8] + [base[8]];
      DifferByLastByte(base[..8], '_', base[8]);
      DifferByLastByte(base[..8], '-', base[8]);
      OnlyUnderscoreFoldsToIt(base[8]);
    } else {
      assert |Canonical(base + "_")| != |Canonical(base)|;
    }
  }

  method GenerateAlternative(nick: string) returns (r: string)
    ensures r == Alternative(nick)
  {
    hide BuildCandidate, NickEqual, Sanitize;
    var base := SanitizeNick(nick);
    CandidateDiffers(base);
    for i := 0 to |SUFFIXES|
      invariant i <= 1
      invariant i == 1 ==> |base| == 9 && base[8] == '_'
    {
      var candidate := BuildCandidate(base, SUFFIXES[i]);
      if candidate != "" && !NickEqual(candidate, base) {
        return candidate;
      }
    }
    return "Guest_";
  }

  // ---- The alternative is valid and is not what was rejected --------------

  function Count(s: string, c: char): nat {
    if s == "" then 0 else (if s[0] == c then 1 else 0) + Count(s[1..], c)
  }

  lemma {:induction false} CountConcat(a: string, b: string, c: char)
    ensures Count(a + b, c) == Count(a, c) + Count(b, c)
  {
    if a == "" {
      assert a + b == b;
    } else {
      CountConcat(a[1..], b, c);
      assert (a + b)[1..] == a[1..] + b;
    }
  }

  lemma CountPrefix(s: string, n: nat, c: char)
    requires n <= |s|
    ensures Count(s[..n], c) <= Count(s, c)
  {
    CountConcat(s[..n], s[n..], c);
    assert s[..n] + s[n..] == s;
  }

  lemma {:induction false} CountCanonical(s: string)
    ensures Count(Canonical(s), '^') == Count(s, '^') + Count(s, '~')
  {
    if s != "" {
      CountCanonical(s[1..]);
      assert Canonical(s)[1..] == Canonical(s[1..]);
    }
  }

  lemma {:induction false} CountLegal(s: string)
    ensures Count(Legal(s), '^') == Count(s, '^')
  {
    if s != "" {
      CountLegal(s[1..]);
      CountConcat(LegalByte(s[0]), Legal(s[1..]), '^');
    }
  }

  lemma {:induction false} CountZero(s: string, c: char)
    ensures Count(s, c) == 0 <==> c !in s
  {
    if s != "" {
      CountZero(s[1..], c);
      assert s == [s[0]] + s[1..];
    }
  }

  /** No step of the generator adds a `^`. */
  lemma AlternativeCarets(nick: string)
    ensures Count(Alternative(nick), '^') <= Count(nick, '^')
  {
    var legal := Legal(nick);
    CountLegal(nick);
    var base := Sanitize(nick);
    assert Count(base, '^') <= Count(nick, '^') by {
      if legal == "" {
        assert Count("Guest", '^') == 0 by { CountZero("Guest", '^'); }
      } else {
        CountConcat("_", legal, '^');
        var headed := Headed(legal);
        assert Count(headed, '^') == Count(legal, '^');
        if |headed| > 9 {
          CountPrefix(headed, 9, '^');
        }
      }
    }
    CountConcat(base, "_", '^');
    if |base| == 9 {
      CountPrefix(base, 8, '^');
      CountConcat(base[..8], "_", '^');
      CountConcat(base[..8], "-", '^');
    }
  }

  lemma ValidAlternative(nick: string)
    ensures ValidNick(Alternative(nick)) && Alternative(nick) != Sanitize(nick)
    ensures !NickEqual(Alternative(nick), Sanitize(nick))
  {
    var base := Sanitize(nick);
    if |base| < 9 {
      assert |Canonical(base + "_")| != |Canonical(base)|;
    } else {
      assert base == base[..8] + [base[8]];
      DifferByLastByte(base[..8], '_', base[8]);
      DifferByLastByte(base[..8], '-', base[8]);
      OnlyUnderscoreFoldsToIt(base[8]);
    }
  }

  /** A byte that folds like a legal byte is legal itself, except `~`. */
  lemma FoldReflectsLegality(a: char, b: char)
    requires FoldByte(a) == FoldByte(b) && IsNickChar(b) && a != '~'
    ensures IsNickChar(a) && (IsFirstChar(b) ==> IsFirstChar(a))
  {}

  /** For every rejected byte string, the alternative satisfies the grammar and is not the
      rejected string in another spelling.  The raw string may hold `~`, which is illegal in a
      nick but folds to the legal `^`. */
  lemma AlternativeIsFresh(rejected: string)
    ensures ValidNick(Alternative(rejected))
    ensures !NickEqual(Alternative(rejected), rejected)
  {
    ValidAlternative(rejected);
    var alt := Alternative(rejected);
    if NickEqual(alt, rejected) {
      AlternativeCarets(rejected);
      CountCanonical(rejected);
      CountCanonical(alt);
      CountZero(rejected, '~');
      assert '~' !in alt by {
        forall i | 0 <= i < |alt| ensures alt[i] != '~' { assert IsNickChar(alt[i]); }
      }
      CountZero(alt, '~');
      assert |rejected| == |Canonical(rejected)| == |Canonical(alt)| == |alt|;
      forall i | 0 <= i < |rejected|
        ensures IsNickChar(rejected[i]) && (i == 0 ==> IsFirstChar(rejected[0]))
      {
        assert Canonical(rejected)[i] == Canonical(alt)[i];
        FoldReflectsLegality(rejected[i], alt[i]);
      }
      SanitizeIdentityIff(rejected);
      assert false;
    }
  }

  // ---- Orbit of the generator ----------------------------------------------

  /** The k-th candidate proposed when every candidate is rejected in turn. */
  function Retry(nick: string, k: nat): string {
    if k == 0 then nick else Alternative(Retry(nick, k - 1))
  }

  const PADDING := "________"

  /** The eight bytes all late candidates share. */
  function Stem(nick: string): (p: string)
    ensures |p| == 8
  {
    (Sanitize(nick) + PADDING)[..8]
  }

  lemma AlternativeExtends(nick: string)
    requires ValidNick(nick) && |nick| < 9
    ensures Alternative(nick) == nick + "_"
  {
    SanitizeIdentityIff(nick);
  }

  /** While there is room the k-th candidate is the base followed by k underscores. */
  lemma {:induction false} RetryGrows(nick: string, k: nat)
    requires 1 <= k && |Sanitize(nick)| + k <= 9
    ensures Retry(nick, k) == Sanitize(nick) + PADDING[..k]
  {
    hide AllNickChars, Sanitize;
    if k > 1 {
      hide Alternative;
      RetryGrows(nick, k - 1);
      ValidAlternative(Retry(nick, k - 2));
      AlternativeExtends(Retry(nick, k - 1));
      assert PADDING[..k] == PADDING[..k - 1] + "_";
    } else {
      assert PADDING[..1] == "_";
      assert Retry(nick, 0) == nick;
    }
  }

  lemma RetryReachesStem(nick: string, k: nat)
    requires k == Settled(nick)
    ensures Retry(nick, k) == Stem(nick) + "_" || Retry(nick, k) == Stem(nick) + "-"
  {
    var base := Sanitize(nick);
    if |base| == 9 {
      assert Retry(nick, 0) == nick;
      assert Stem(nick) == base[..8];
    } else {
      RetryGrows(nick, k);
      assert (base + PADDING)[..9] == base + PADDING[..k];
      assert (base + PADDING)[..9] == Stem(nick) + "_";
    }
  }

  lemma AlternativeSwitches(p: string)
    requires |p| == 8
    ensures ValidNick(p + "_") ==> Alternative(p + "_") == p + "-"
    ensures ValidNick(p + "-") ==> Alternative(p + "-") == p + "_"
  {
    SanitizeIdentityIff(p + "_");
    SanitizeIdentityIff(p + "-");
    assert (p + "_")[..8] == p == (p + "-")[..8];
  }

  /** The number of rejections after which the base is nine bytes long: at most eight. */
  function Settled(nick: string): (k: nat)
    ensures 1 <= k <= 8
  {
    if |Sanitize(nick)| == 9 then 1 else 9 - |Sanitize(nick)|
  }

  lemma RetrySwitches(nick: string, k: nat)
    requires k >= 1
    ensures Retry(nick, k) == Stem(nick) + "_" ==> Retry(nick, k + 1) == Stem(nick) + "-"
    ensures Retry(nick, k) == Stem(nick) + "-" ==> Retry(nick, k + 1) == Stem(nick) + "_"
  {
    ValidAlternative(Retry(nick, k - 1));
    AlternativeSwitches(Stem(nick));
  }

  /** From the Settled-th rejection on the generator alternates for ever between two nicks. */
  lemma {:induction false} OrbitAlternates(nick: string, k: nat)
    requires k >= Settled(nick)
    ensures Retry(nick, k) == Stem(nick) + "_" || Retry(nick, k) == Stem(nick) + "-"
    ensures Retry(nick, k) == Stem(nick) + "_" <==> Retry(nick, k + 1) == Stem(nick) + "-"
    ensures Retry(nick, k) == Stem(nick) + "-" <==> Retry(nick, k + 1) == Stem(nick) + "_"
  {
    hide Retry, Stem, Settled;
    if k == Settled(nick) {
      RetryReachesStem(nick, k);
    } else {
      OrbitAlternates(nick, k - 1);
    }
    RetrySwitches(nick, k);
    assert (Stem(nick) + "_")[8] == '_' && (Stem(nick) + "-")[8] == '-';
  }

  /** The candidates proposed in the first n rounds. */
  function Proposed(nick: string, n: nat): (c: set<string>)
    ensures |c| <= n
  {
    if n == 0 then {} else Proposed(nick, n - 1) + {Retry(nick, n)}
  }

  lemma {:induction false} ProposedHas(nick: string, k: nat, n: nat)
    requires 1 <= k <= n
    ensures Retry(nick, k) in Proposed(nick, n)
  {
    hide Retry;
    if k < n {
      ProposedHas(nick, k, n - 1);
    }
  }

  /** Whatever number of rejections arrive, only the candidates of the first nine rounds are
      ever proposed, so at most nine different ones. */
  lemma OrbitIsSmall(nick: string, k: nat)
    requires k >= 1
    ensures Retry(nick, k) in Proposed(nick, 9) && |Proposed(nick, 9)| <= 9
  {
    if k <= 9 {
      ProposedHas(nick, k, 9);
    } else {
      OrbitAlternates(nick, 8);
      OrbitAlternates(nick, k);
      ProposedHas(nick, 8, 9);
      ProposedHas(nick, 9, 9);
    }
  }
}
