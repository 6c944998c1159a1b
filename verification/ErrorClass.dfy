/** How the class of a server ERROR travels from the read loop to the reconnect loop: as a marker
inside an error string, found again by substring search. */
module ErrorClass {
  import opened Text

  datatype ErrorType = RecoverableError | PermanentError | ServerError | NetworkError

  const PERMANENT_PATTERNS: seq<string> := [
    "k-lined", "k-line", "klined", "g-lined", "g-line", "glined",
    "banned", "you are banned", "user is banned", "unauthorized connection",
    "connection refused", "access denied", "you are not authorized", "blacklisted",
    "throttled", "throttling", "flood", "flooding", "spam", "spamming"]

  const SERVER_PATTERNS: seq<string> := [
    "too many connections", "too many host connections",
    "too many host connections (local)", "too many host connections (global)",
    "too many global connections", "connection limit exceeded", "server full",
    "max connections reached", "too many connections from this ip",
    "too many connections from your host", "connection limit", "host limit",
    "ip limit", "clone limit", "too many clones"]

  const NETWORK_PATTERNS: seq<string> := [
    "connection reset", "connection timed out", "network unreachable",
    "no route to host", "connection lost", "broken pipe"]

  predicate MentionsAny(text: string, patterns: seq<string>) {
    exists i | 0 <= i < |patterns| :: Contains(text, patterns[i])
  }

  /** The first list with a pattern in the text decides; an unknown error is recoverable. */
  function Classify(msg: string): ErrorType {
    var text := ToLower(msg);
    if MentionsAny(text, PERMANENT_PATTERNS) then PermanentError
    else if MentionsAny(text, SERVER_PATTERNS) then ServerError
    else if MentionsAny(text, NETWORK_PATTERNS) then NetworkError
    else RecoverableError
  }

  method ScanFor(text: string, patterns: seq<string>) returns (found: bool)
    ensures found == MentionsAny(text, patterns)
  {
    for i := 0 to |patterns|
      invariant forall j | 0 <= j < i :: !Contains(text, patterns[j])
    {
      if Contains(text, patterns[i]) {
        return true;
      }
    }
    return false;
  }

  method AnalyzeErrorMessage(msg: string) returns (t: ErrorType)
    ensures t == Classify(msg)
  {
    hide MentionsAny, ToLower;
    var text := ToLower(msg);
    var found := ScanFor(text, PERMANENT_PATTERNS);
    if found {
      return PermanentError;
    }
    found := ScanFor(text, SERVER_PATTERNS);
    if found {
      return ServerError;
    }
    found := ScanFor(text, NETWORK_PATTERNS);
    if found {
      return NetworkError;
    }
    return RecoverableError;
  }

  // ---- What the lists amount to ---------------------------------------------------------

  /** The patterns that decide; every other pattern of the lists contains one of them. */
  predicate SaysBanned(text: string) {
    || Contains(text, "k-line") || Contains(text, "klined")
    || Contains(text, "g-line") || Contains(text, "glined")
    || Contains(text, "banned") || Contains(text, "unauthorized connection")
    || Contains(text, "connection refused") || Contains(text, "access denied")
    || Contains(text, "you are not authorized") || Contains(text, "blacklisted")
    || Contains(text, "throttled") || Contains(text, "throttling")
    || Contains(text, "flood") || Contains(text, "spam")
  }

  predicate SaysFull(text: string) {
    || Contains(text, "too many connections") || Contains(text, "too many host connections")
    || Contains(text, "too many global connections") || Contains(text, "connection limit")
    || Contains(text, "server full") || Contains(text, "max connections reached")
    || Contains(text, "host limit") || Contains(text, "ip limit")
    || Contains(text, "clone limit") || Contains(text, "too many clones")
  }

  predicate SaysBroken(text: string) {
    || Contains(text, "connection reset") || Contains(text, "connection timed out")
    || Contains(text, "network unreachable") || Contains(text, "no route to host")
    || Contains(text, "connection lost") || Contains(text, "broken pipe")
  }

  /** A pattern found means that its beginning and its end are found. */
  lemma PartsFound(text: string, a: string, b: string)
    ensures Contains(text, a + b) ==> Contains(text, a) && Contains(text, b)
  {
    var whole := a + b;
    forall i | 0 <= i <= |text| && OccursAt(text, whole, i) ensures Contains(text, a) && Contains(text, b) {
      var k := i + |a|;
      assert text[i..k] == text[i..i + |whole|][..|a|] == a;
      assert text[k..k + |b|] == text[i..i + |whole|][|a|..] == b;
      assert OccursAt(text, a, i) && OccursAt(text, b, k);
    }
  }

  lemma ShorterBans(text: string)
    ensures Contains(text, "k-lined") ==> Contains(text, "k-line")
    ensures Contains(text, "g-lined") ==> Contains(text, "g-line")
    ensures Contains(text, "you are banned") || Contains(text, "user is banned") ==> Contains(text, "banned")
    ensures Contains(text, "flooding") ==> Contains(text, "flood")
    ensures Contains(text, "spamming") ==> Contains(text, "spam")
  {
    hide Contains;
    PartsFound(text, "k-line", "d");
    PartsFound(text, "g-line", "d");
    PartsFound(text, "you are ", "banned");
    PartsFound(text, "user is ", "banned");
    PartsFound(text, "flood", "ing");
    PartsFound(text, "spam", "ming");
    assert "k-line" + "d" == "k-lined" && "g-line" + "d" == "g-lined";
    assert "you are " + "banned" == "you are banned" && "user is " + "banned" == "user is banned";
    assert "flood" + "ing" == "flooding" && "spam" + "ming" == "spamming";
  }

  lemma ShorterHost(text: string)
    ensures Contains(text, "too many host connections (local)") ==> Contains(text, "too many host connections")
    ensures Contains(text, "too many host connections (global)") ==> Contains(text, "too many host connections")
  {
    hide Contains;
    PartsFound(text, "too many host connections", " (local)");
    PartsFound(text, "too many host connections", " (global)");
    assert "too many host connections" + " (local)" == "too many host connections (local)";
    assert "too many host connections" + " (global)" == "too many host connections (global)";
  }

  lemma ShorterFrom(text: string)
    ensures Contains(text, "too many connections from this ip") ==> Contains(text, "too many connections")
    ensures Contains(text, "too many connections from your host") ==> Contains(text, "too many connections")
    ensures Contains(text, "connection limit exceeded") ==> Contains(text, "connection limit")
  {
    hide Contains;
    PartsFound(text, "too many connections", " from this ip");
    PartsFound(text, "too many connections", " from your host");
    PartsFound(text, "connection limit", " exceeded");
    assert "too many connections" + " from this ip" == "too many connections from this ip";
    assert "too many connections" + " from your host" == "too many connections from your host";
    assert "connection limit" + " exceeded" == "connection limit exceeded";
  }

  lemma BannedIff(text: string)
    ensures MentionsAny(text, PERMANENT_PATTERNS) <==> SaysBanned(text)
  {
    hide Contains;
    ShorterBans(text);
    assert PERMANENT_PATTERNS[1] == "k-line";
    assert PERMANENT_PATTERNS[2] == "klined";
    assert PERMANENT_PATTERNS[4] == "g-line";
    assert PERMANENT_PATTERNS[5] == "glined";
    assert PERMANENT_PATTERNS[6] == "banned";
    assert PERMANENT_PATTERNS[9] == "unauthorized connection";
    assert PERMANENT_PATTERNS[10] == "connection refused";
    assert PERMANENT_PATTERNS[11] == "access denied";
    assert PERMANENT_PATTERNS[12] == "you are not authorized";
    assert PERMANENT_PATTERNS[13] == "blacklisted";
    assert PERMANENT_PATTERNS[14] == "throttled";
    assert PERMANENT_PATTERNS[15] == "throttling";
    assert PERMANENT_PATTERNS[16] == "flood";
    assert PERMANENT_PATTERNS[18] == "spam";
  }

  lemma FullIff(text: string)
    ensures MentionsAny(text, SERVER_PATTERNS) <==> SaysFull(text)
  {
    hide Contains;
    ShorterHost(text);
    ShorterFrom(text);
    assert SERVER_PATTERNS[0] == "too many connections";
    assert SERVER_PATTERNS[1] == "too many host connections";
    assert SERVER_PATTERNS[4] == "too many global connections";
    assert SERVER_PATTERNS[10] == "connection limit";
    assert SERVER_PATTERNS[6] == "server full";
    assert SERVER_PATTERNS[7] == "max connections reached";
    assert SERVER_PATTERNS[11] == "host limit";
    assert SERVER_PATTERNS[12] == "ip limit";
    assert SERVER_PATTERNS[13] == "clone limit";
    assert SERVER_PATTERNS[14] == "too many clones";
  }

  lemma BrokenIff(text: string)
    ensures MentionsAny(text, NETWORK_PATTERNS) <==> SaysBroken(text)
  {
    hide Contains;
    assert NETWORK_PATTERNS[0] == "connection reset";
    assert NETWORK_PATTERNS[1] == "connection timed out";
    assert NETWORK_PATTERNS[2] == "network unreachable";
    assert NETWORK_PATTERNS[3] == "no route to host";
    assert NETWORK_PATTERNS[4] == "connection lost";
    assert NETWORK_PATTERNS[5] == "broken pipe";
  }

  /** The class of every text, in any case of letters. */
  lemma ClassifyIff(msg: string)
    ensures var text := ToLower(msg);
      && (Classify(msg) == PermanentError <==> SaysBanned(text))
      && (Classify(msg) == ServerError <==> !SaysBanned(text) && SaysFull(text))
      && (Classify(msg) == NetworkError <==> !SaysBanned(text) && !SaysFull(text) && SaysBroken(text))
  {
    hide ToLower, MentionsAny, SaysBanned, SaysFull, SaysBroken;
    var text := ToLower(msg);
    BannedIff(text);
    FullIff(text);
    BrokenIff(text);
  }

  // ---- Encoding and decoding ---------------------------------------------------------

  function Name(t: ErrorType): string {
    match t
    case RecoverableError => "RecoverableError"
    case PermanentError => "PermanentError"
    case ServerError => "ServerError"
    case NetworkError => "NetworkError"
  }

  function Preamble(t: ErrorType): string {
    "Received " + (if t == PermanentError then "permanent ERROR" else Name(t)) + " from server: "
  }

  /** The error the read loop reports for an ERROR message of the given class. */
  function Report(t: ErrorType, msg: string): string {
    Preamble(t) + msg
  }

  const PERMANENT_MARK := "Received permanent ERROR from server:"

  predicate LooksPermanent(report: string) {
    Contains(report, PERMANENT_MARK)
  }

  predicate LooksLimited(report: string) {
    Contains(report, "RecoverableError") || Contains(report, "ServerError")
  }

  /** A marker in which no blank stands first or after a colon cannot reach across the end of a
      preamble, which ends in a colon and a blank. */
  predicate Bounded(mark: string) {
    mark != "" && forall k | 0 <= k < |mark| && mark[k] == ' ' :: k > 0 && mark[k - 1] != ':'
  }

  lemma OccurrenceSide(head: string, msg: string, mark: string, i: nat)
    requires Bounded(mark) && |head| >= 2 && head[|head| - 1] == ' ' && head[|head| - 2] == ':'
    ensures OccursAt(head + msg, mark, i) ==> i + |mark| <= |head| || i >= |head|
  {
    var s := head + msg;
    var k := |head| - 1 - i;
    assert s[|head| - 1] == ' ' && s[|head| - 2] == ':';
    if 0 <= k < |mark| {
      OccurrenceByte(s, mark, i, k);
    }
    if 0 < k < |mark| {
      OccurrenceByte(s, mark, i, k - 1);
    }
  }

  lemma NoStraddle(head: string, msg: string, mark: string)
    requires Bounded(mark) && |head| >= 2 && head[|head| - 1] == ' ' && head[|head| - 2] == ':'
    ensures Contains(head + msg, mark) <==> Contains(head, mark) || Contains(msg, mark)
  {
    var s := head + msg;
    forall i | 0 <= i <= |s| && OccursAt(s, mark, i)
      ensures Contains(head, mark) || Contains(msg, mark)
    {
      OccurrenceSide(head, msg, mark, i);
      if i + |mark| <= |head| {
        assert head[i..i + |mark|] == s[i..i + |mark|];
        assert OccursAt(head, mark, i);
      } else {
        assert msg[i - |head|..i - |head| + |mark|] == s[i..i + |mark|];
        assert OccursAt(msg, mark, i - |head|);
      }
    }
    forall i | 0 <= i <= |head| && OccursAt(head, mark, i) ensures Contains(s, mark) {
      assert s[i..i + |mark|] == head[i..i + |mark|];
      assert OccursAt(s, mark, i);
    }
    forall i | 0 <= i <= |msg| && OccursAt(msg, mark, i) ensures Contains(s, mark) {
      assert s[i + |head|..i + |head| + |mark|] == msg[i..i + |mark|];
      assert OccursAt(s, mark, i + |head|);
    }
  }

  lemma MarksAreBounded()
    ensures Bounded(PERMANENT_MARK) && Bounded("RecoverableError") && Bounded("ServerError")
  {}

  lemma PreamblePermanent(t: ErrorType)
    ensures LooksPermanent(Preamble(t)) <==> t == PermanentError
  {
    var p, m := Preamble(t), PERMANENT_MARK;
    if t == PermanentError {
      assert p == m + " ";
      assert OccursAt(p, m, 0);
    } else {
      assert p[0] == 'R' && p[1] == 'e' && p[2] == 'c' && p[9] == Name(t)[0];
      assert |m| == 37 && m[0] == 'R' && m[9] == 'p' && |p| == 23 + |Name(t)| <= 39;
      forall i | 0 <= i <= |p| ensures !OccursAt(p, m, i) {
        OccurrenceByte(p, m, i, 0);
        OccurrenceByte(p, m, i, 9);
      }
    }
  }

  /** A string without the marker's first byte does not hold the marker. */
  lemma FirstByteMissing(s: string, mark: string)
    requires mark != "" && mark[0] !in s
    ensures !Contains(s, mark)
  {
    forall i | 0 <= i <= |s| ensures !OccursAt(s, mark, i) {
      OccurrenceByte(s, mark, i, 0);
    }
  }

  lemma NameInPreamble(t: ErrorType)
    requires t != PermanentError
    ensures Contains(Preamble(t), Name(t))
  {
    var head, tail := "Received ", " from server: ";
    assert (head + Name(t) + tail)[|head|..|head| + |Name(t)|] == Name(t);
    assert OccursAt(Preamble(t), Name(t), 9);
  }

  lemma NetworkIsNotLimited()
    ensures !LooksLimited(Preamble(NetworkError))
  {
    var p := Preamble(NetworkError);
    FirstByteMissing(p, "ServerError");
    var m := "RecoverableError";
    var tail := "eceived " + "NetworkError" + " from server: ";
    assert 'R' !in tail;
    assert "Received " == "R" + "eceived ";
    assert p == "R" + tail && p[3] == 'e';
    forall i | 0 <= i <= |p| ensures !OccursAt(p, m, i) {
      OccurrenceByte(p, m, i, 0);
      OccurrenceByte(p, m, i, 3);
      if 0 < i < |p| {
        assert p[i] == tail[i - 1];
      }
    }
  }

  lemma PreambleLimited(t: ErrorType)
    requires t != PermanentError
    ensures LooksLimited(Preamble(t)) <==> t == RecoverableError || t == ServerError
  {
    hide Preamble, Contains;
    NameInPreamble(t);
    NetworkIsNotLimited();
  }

  /** The decoding is exact for every class and every text: a report looks permanent just when its
      class is permanent or the server's text itself holds the permanent marker, and any other
      report looks limited just when its class is limited or the text holds a limited marker. */
  lemma ReportDecodes(t: ErrorType, msg: string)
    ensures LooksPermanent(Report(t, msg)) <==> t == PermanentError || LooksPermanent(msg)
    ensures t != PermanentError ==>
      (LooksLimited(Report(t, msg)) <==> t == RecoverableError || t == ServerError || LooksLimited(msg))
  {
    MarksAreBounded();
    PreamblePermanent(t);
    NoStraddle(Preamble(t), msg, PERMANENT_MARK);
    if t != PermanentError {
      PreambleLimited(t);
      NoStraddle(Preamble(t), msg, "RecoverableError");
      NoStraddle(Preamble(t), msg, "ServerError");
    }
  }
}
