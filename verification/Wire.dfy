/** The line format of section 2.3.1 of RFC 2812: the parser, the printers of outgoing lines, and the
CTCP decoding done before an event is dispatched. */
module Wire {
  import opened Text
  import opened Tags

  datatype Event = Event(
    code: string, raw: string,
    nick: string, user: string, host: string, source: string,
    arguments: seq<string>, tags: map<string, string>)

  /** `OutOfRange` is the run-time panic of indexing an empty remainder. */
  datatype ParseResult = Parsed(event: Event) | Malformed | OutOfRange

  // ---- The parser ------------------------------------------------------------------------

  function Trimmed(line: string): string {
    TrimSuffix(TrimSuffix(line, "\n"), "\r")
  }

  /** `strings.SplitN(s, " :", 2)`. */
  function CutTrailing(s: string): (string, Option<string>) {
    var i := Index(s, " :");
    if i == -1 then (s, None) else (s[..i], Some(s[i + 2..]))
  }

  datatype Identity = Identity(nick: string, user: string, host: string)

  /** Does the source have the form nick!user@host? */
  predicate HasIdentity(source: string) {
    0 <= IndexByte(source, '!') < IndexByte(source, '@')
  }

  function IdentityOf(source: string): Identity {
    var i, j := IndexByte(source, '!'), IndexByte(source, '@');
    if HasIdentity(source) then Identity(source[..i], source[i + 1..j], source[j + 1..])
    else Identity("", "", "")
  }

  function Arguments(args: seq<string>, trailing: Option<string>): seq<string> {
    if trailing.None? then args else args + [trailing.value]
  }

  function ParseCommand(raw: string, tags: map<string, string>, source: string, msg: string): Event {
    var (head, trailing) := CutTrailing(msg);
    var args := Split(head, ' ');
    var id := IdentityOf(source);
    Event(ToUpper(args[0]), raw, id.nick, id.user, id.host, source,
          Arguments(args[1..], trailing), tags)
  }

  function ParseSource(raw: string, tags: map<string, string>, msg: string): ParseResult {
    if msg == "" then OutOfRange
    else if msg[0] != ':' then Parsed(ParseCommand(raw, tags, "", msg))
    else
      var i := IndexByte(msg, ' ');
      if i == -1 then Malformed
      else Parsed(ParseCommand(raw, tags, msg[1..i], msg[i + 1..]))
  }

  function Parse(line: string): ParseResult {
    var msg := Trimmed(line);
    if msg == "" then Malformed
    else if msg[0] != '@' then ParseSource(msg, map[], msg)
    else
      var i := IndexByte(msg, ' ');
      if i == -1 then Malformed
      else ParseSource(msg, ReadParts(Split(msg[1..i], ';')), msg[i + 1..])
  }

  method ParseToEvent(line: string) returns (r: ParseResult)
    ensures r == Parse(line)
  {
    hide ReadParts, Split, ToUpper, IdentityOf, CutTrailing;
    var msg := TrimSuffix(line, "\n");
    msg := TrimSuffix(msg, "\r");
    var raw, tags, source := msg, map[], "";
    if |msg| < 1 {
      return Malformed;
    }
    if msg[0] == '@' {
      var i := IndexByte(msg, ' ');
      if i > -1 {
        tags := ReadBlock(msg[1..i]);
        msg := msg[i + 1..];
      } else {
        return Malformed;
      }
    }
    if |msg| == 0 {
      return OutOfRange;
    }
    if msg[0] == ':' {
      var i := IndexByte(msg, ' ');
      if i > -1 {
        source := msg[1..i];
        msg := msg[i + 1..];
      } else {
        return Malformed;
      }
    }
    return Parsed(ParseCommand(raw, tags, source, msg));
  }

  /** Indexing is in bounds on every line but one kind: a tag block, one space, and nothing else. */
  lemma PanicsIff(line: string)
    ensures Parse(line) == OutOfRange <==>
      var msg := Trimmed(line); msg != "" && msg[0] == '@' && IndexByte(msg, ' ') == |msg| - 1
  {
    hide ParseCommand, ReadParts, Split;
  }

  /** The three parts, when present, rebuild the source. */
  lemma IdentityRebuilds(source: string)
    requires HasIdentity(source)
    ensures var id := IdentityOf(source); id.nick + "!" + id.user + "@" + id.host == source
  {
    var i, j := IndexByte(source, '!'), IndexByte(source, '@');
    assert source == source[..i] + [source[i]] + source[i + 1..j] + [source[j]] + source[j + 1..];
  }

  lemma IdentityOfParts(nick: string, user: string, host: string)
    requires '!' !in nick && '@' !in nick && '@' !in user
    ensures HasIdentity(nick + "!" + user + "@" + host)
    ensures IdentityOf(nick + "!" + user + "@" + host) == Identity(nick, user, host)
  {
    var source := nick + "!" + user + "@" + host;
    var head := nick + "!" + user;
    IndexByteAfter(nick, '!', user + "@" + host);
    assert source == nick + ['!'] + (user + "@" + host);
    IndexByteAfter(head, '@', host);
    assert source == head + ['@'] + host;
    assert source[..|nick|] == nick && source[|nick| + 1..|head|] == user && source[|head| + 1..] == host;
  }

  // ---- The printer -----------------------------------------------------------------------------

  datatype Message = Message(
    source: Option<string>, command: string, middles: seq<string>, trailing: Option<string>)

  function SourceText(source: Option<string>): string {
    if source.None? then "" else ":" + source.value + " "
  }

  function TrailingText(trailing: Option<string>): string {
    if trailing.None? then "" else " :" + trailing.value
  }

  function HeadText(m: Message): string {
    Join([m.command] + m.middles, ' ')
  }

  function CommandText(m: Message): string {
    HeadText(m) + TrailingText(m.trailing)
  }

  function Body(m: Message): string {
    SourceText(m.source) + CommandText(m)
  }

  function Print(m: Message): string {
    Body(m) + "\r\n"
  }

  predicate ValidMiddle(s: string) {
    ' ' !in s && (s != "" ==> s[0] != ':')
  }

  predicate WellFormed(m: Message) {
    && (m.source.Some? ==> ' ' !in m.source.value)
    && (m.source.None? ==> m.command != "" && m.command[0] != ':' && m.command[0] != '@')
    && ' ' !in m.command
    && forall i | 0 <= i < |m.middles| :: ValidMiddle(m.middles[i])
  }

  /** No blank is followed by a colon. */
  predicate NoCut(s: string) {
    forall i | 0 <= i < |s| - 1 :: s[i] == ' ' ==> s[i + 1] != ':'
  }

  lemma {:induction false} JoinNoCut(first: string, middles: seq<string>)
    requires ' ' !in first && forall i | 0 <= i < |middles| :: ValidMiddle(middles[i])
    ensures NoCut(Join([first] + middles, ' '))
    decreases |middles|
  {
    var parts := [first] + middles;
    if middles != [] {
      var rest := middles[1..];
      JoinNoCut(middles[0], rest);
      assert parts[1..] == middles == [middles[0]] + rest;
      var tail := Join(middles, ' ');
      assert Join(parts, ' ') == first + [' '] + tail;
      JoinFirstByte(middles);
    }
  }

  lemma JoinFirstByte(middles: seq<string>)
    requires middles != [] && ValidMiddle(middles[0])
    ensures var s := Join(middles, ' '); s != "" ==> s[0] != ':'
  {}

  lemma NoEarlyCut(head: string, tail: string, i: nat)
    requires NoCut(head) && i < |head| && (tail != "" ==> tail[0] != ':')
    ensures !OccursAt(head + tail, " :", i)
  {
    var s := head + tail;
    OccurrenceByte(s, " :", i, 0);
    OccurrenceByte(s, " :", i, 1);
    assert s[i] == head[i];
    assert i + 1 < |head| ==> s[i + 1] == head[i + 1];
  }

  lemma CutAfter(head: string, trailing: Option<string>)
    requires NoCut(head)
    ensures CutTrailing(head + TrailingText(trailing)) == (head, trailing)
  {
    var tail := TrailingText(trailing);
    var s := head + tail;
    forall i | 0 <= i < |head| ensures !OccursAt(s, " :", i) {
      NoEarlyCut(head, tail, i);
    }
    if trailing.Some? {
      assert s[|head|..|head| + 2] == " :";
      assert OccursAt(s, " :", |head|);
      assert Index(s, " :") == |head|;
      assert s[..|head|] == head && s[|head| + 2..] == trailing.value;
    } else {
      assert s == head;
    }
  }

  /** The event a well-formed message stands for; the case of its command does not matter. */
  function EventOf(m: Message, raw: string, tags: map<string, string>): Event {
    var source := if m.source.Some? then m.source.value else "";
    var id := IdentityOf(source);
    Event(ToUpper(m.command), raw, id.nick, id.user, id.host, source, Arguments(m.middles, m.trailing), tags)
  }

  lemma CommandParses(m: Message, raw: string, tags: map<string, string>, source: string)
    requires WellFormed(m)
    ensures var e := ParseCommand(raw, tags, source, CommandText(m));
      e.code == ToUpper(m.command) && e.arguments == Arguments(m.middles, m.trailing)
  {
    hide CutTrailing, TrailingText, Split, Join, ToUpper, IdentityOf;
    var parts := [m.command] + m.middles;
    JoinNoCut(m.command, m.middles);
    CutAfter(HeadText(m), m.trailing);
    forall i | 0 <= i < |parts| ensures ' ' !in parts[i] {
      assert i > 0 ==> parts[i] == m.middles[i - 1] && ValidMiddle(m.middles[i - 1]);
    }
    SplitOfJoin(parts, ' ');
    assert parts[1..] == m.middles;
  }

  lemma BodyParses(m: Message, raw: string, tags: map<string, string>)
    requires WellFormed(m)
    ensures Body(m) != "" && (m.source.None? ==> Body(m)[0] != '@' && Body(m)[0] != ':')
    ensures ParseSource(raw, tags, Body(m)) == Parsed(EventOf(m, raw, tags))
  {
    hide ParseCommand, IdentityOf, ToUpper, Arguments;
    var text := CommandText(m);
    if m.source.Some? {
      CommandParses(m, raw, tags, m.source.value);
      var head := ":" + m.source.value;
      IndexByteAfter(head, ' ', text);
      assert Body(m) == head + [' '] + text;
      assert Body(m)[1..|head|] == m.source.value && Body(m)[|head| + 1..] == text;
      SameIdentity(raw, tags, m.source.value, text);
    } else {
      CommandParses(m, raw, tags, "");
      assert Body(m) == text;
      CommandFirst(m);
      SameIdentity(raw, tags, "", text);
    }
  }

  lemma CommandFirst(m: Message)
    requires WellFormed(m) && m.source.None?
    ensures CommandText(m) != "" && CommandText(m)[0] == m.command[0]
  {}

  lemma SameIdentity(raw: string, tags: map<string, string>, source: string, msg: string)
    ensures var e := ParseCommand(raw, tags, source, msg); var id := IdentityOf(source);
      && e.raw == raw && e.tags == tags && e.source == source
      && e.nick == id.nick && e.user == id.user && e.host == id.host
  {}

  lemma TrimTerminator(body: string)
    ensures Trimmed(body + "\r\n") == body
  {
    assert body + "\r\n" == (body + "\r") + "\n";
    assert (body + "\r" + "\n")[|body| + 1..] == "\n";
    assert (body + "\r")[|body|..] == "\r";
    assert (body + "\r" + "\n")[..|body| + 1] == body + "\r";
    assert (body + "\r")[..|body|] == body;
  }

  /** How the line ends does not matter: one line feed, one carriage return before it, both or neither. */
  lemma TerminatorIgnored(body: string)
    requires body == "" || (body[|body| - 1] != '\r' && body[|body| - 1] != '\n')
    ensures Parse(body + "\r\n") == Parse(body)
    ensures Parse(body + "\n") == Parse(body)
    ensures Parse(body + "\r") == Parse(body)
  {
    hide ParseSource, ReadParts;
    TrimTerminator(body);
    assert (body + "\n")[|body|..] == "\n" && (body + "\n")[..|body|] == body;
    assert (body + "\r")[|body|..] == "\r" && (body + "\r")[..|body|] == body;
    assert body != "" ==> body[|body| - 1..] == [body[|body| - 1]];
  }

  /** Parsing undoes printing, for every trailing text. */
  lemma ParsePrint(m: Message)
    requires WellFormed(m)
    ensures Parse(Print(m)) == Parsed(EventOf(m, Body(m), map[]))
  {
    hide ParseSource, Trimmed, EventOf, CommandText;
    TrimTerminator(Body(m));
    BodyParses(m, Body(m), map[]);
  }

  /** ... also behind a tag block, whose map the event then carries. */
  lemma ParsePrintTagged(tags: seq<Tag>, m: Message)
    requires WellFormed(m) && tags != [] && forall i | 0 <= i < |tags| :: ValidKey(tags[i].key)
    ensures var body := "@" + PrintTags(tags) + " " + Body(m);
      Parse(body + "\r\n") == Parsed(EventOf(m, body, TagMap(tags)))
  {
    hide ParseSource, Trimmed, EventOf, Body, Split, PrintTags, ReadParts, TagMap, WellFormed, ValidKey;
    var head := "@" + PrintTags(tags);
    var body := head + " " + Body(m);
    TrimTerminator(body);
    TagBlockRoundTrip(tags);
    IndexByteAfter(head, ' ', Body(m));
    assert body == head + [' '] + Body(m);
    assert body[1..|head|] == PrintTags(tags) && body[|head| + 1..] == Body(m);
    BodyParses(m, body, TagMap(tags));
  }

  // ---- A stream of lines ---------------------------------------------------------------------

  /** What the read loop parses of a byte stream, cut after each line feed. */
  function ReadAll(stream: string): seq<ParseResult>
    decreases |stream|
  {
    var i := IndexByte(stream, '\n');
    if i == -1 then [] else [Parse(stream[..i + 1])] + ReadAll(stream[i + 1..])
  }

  function PrintAll(ms: seq<Message>): string {
    if ms == [] then "" else Print(ms[0]) + PrintAll(ms[1..])
  }

  function EventsOf(ms: seq<Message>): seq<ParseResult> {
    if ms == [] then [] else [Parsed(EventOf(ms[0], Body(ms[0]), map[]))] + EventsOf(ms[1..])
  }

  /** A stream of printed messages without line feeds inside is read as exactly their events, in order. */
  lemma {:induction false} StreamRoundTrip(ms: seq<Message>)
    requires forall m | m in ms :: WellFormed(m) && '\n' !in Body(m)
    ensures ReadAll(PrintAll(ms)) == EventsOf(ms)
  {
    hide Parse, Body, WellFormed, EventOf;
    if ms == [] {
      assert IndexByte("", '\n') == -1;
    } else {
      var m, rest := ms[0], PrintAll(ms[1..]);
      assert m in ms;
      var head := Body(m) + "\r";
      assert Print(m) == head + ['\n'];
      IndexByteAfter(head, '\n', rest);
      var stream := PrintAll(ms);
      assert stream == head + ['\n'] + rest;
      assert stream[..|head| + 1] == Print(m) && stream[|head| + 1..] == rest;
      ParsePrint(m);
      StreamRoundTrip(ms[1..]);
    }
  }

  // ---- Reprinting a parsed line ---------------------------------------------------------------

  function Front<T>(s: seq<T>): seq<T>
    requires s != []
  {
    s[..|s| - 1]
  }

  function Last<T>(s: seq<T>): T
    requires s != []
  {
    s[|s| - 1]
  }

  /** A parsed event as a message again: the last argument is always printed as the trailing one. */
  function MessageOf(e: Event): Message {
    if e.arguments == [] then Message(Some(e.source), e.code, [], None)
    else Message(Some(e.source), e.code, Front(e.arguments), Some(Last(e.arguments)))
  }

  lemma {:induction false} SplitMiddles(parts: seq<string>)
    requires parts != [] && Free(parts, ' ') && NoCut(Join(parts, ' '))
    ensures forall i | 1 <= i < |parts| :: ValidMiddle(parts[i])
  {
    if |parts| > 1 {
      var rest := parts[1..];
      var tail := Join(rest, ' ');
      var s := Join(parts, ' ');
      assert s == parts[0] + [' '] + tail;
      assert forall i | 0 <= i < |tail| :: s[|parts[0]| + 1 + i] == tail[i];
      assert NoCut(tail);
      SplitMiddles(rest);
      assert s[|parts[0]|] == ' ';
      if rest[0] != "" {
        assert tail[0] == rest[0][0];
      }
      forall i | 1 <= i < |parts| ensures ValidMiddle(parts[i]) {
        assert parts[i] == rest[i - 1];
      }
    }
  }

  lemma UpperAgain(s: string)
    ensures ToUpper(ToUpper(s)) == ToUpper(s)
    ensures ' ' !in s ==> ' ' !in ToUpper(s)
  {
    forall i | 0 <= i < |s|
      ensures ToUpper(ToUpper(s))[i] == ToUpper(s)[i] && (s[i] != ' ' ==> ToUpper(s)[i] != ' ')
    {
      assert UpperByte(UpperByte(s[i])) == UpperByte(s[i]);
    }
  }

  lemma CutLeavesNoCut(s: string)
    ensures NoCut(CutTrailing(s).0)
  {
    var head := CutTrailing(s).0;
    forall i | 0 <= i < |head| - 1 && head[i] == ' ' ensures head[i + 1] != ':' {
      assert !OccursAt(s, " :", i);
      assert s[i..i + 2] == [s[i], s[i + 1]];
    }
  }

  lemma CommandPieces(raw: string, tags: map<string, string>, source: string, msg: string)
    returns (command: string, middles: seq<string>, trailing: Option<string>)
    ensures ' ' !in command && ToUpper(command) == command
    ensures forall i | 0 <= i < |middles| :: ValidMiddle(middles[i])
    ensures var e := ParseCommand(raw, tags, source, msg);
      e.code == command && e.arguments == Arguments(middles, trailing)
  {
    hide IdentityOf, ToUpper, Split, Join, CutTrailing, NoCut, ValidMiddle;
    CutLeavesNoCut(msg);
    trailing := CutTrailing(msg).1;
    var parts := Split(CutTrailing(msg).0, ' ');
    JoinOfSplit(CutTrailing(msg).0, ' ');
    SplitMiddles(parts);
    UpperAgain(parts[0]);
    command, middles := ToUpper(parts[0]), parts[1..];
  }

  lemma ParsedIsWellFormed(raw: string, tags: map<string, string>, source: string, msg: string)
    requires ' ' !in source
    ensures WellFormed(MessageOf(ParseCommand(raw, tags, source, msg)))
  {
    hide ParseCommand, ToUpper, ValidMiddle;
    var e := ParseCommand(raw, tags, source, msg);
    SameIdentity(raw, tags, source, msg);
    var command, middles, trailing := CommandPieces(raw, tags, source, msg);
    var m := MessageOf(e);
    forall i | 0 <= i < |m.middles| ensures ValidMiddle(m.middles[i]) {
      assert m.middles[i] == middles[i];
    }
  }

  lemma ReprintParses(raw: string, tags: map<string, string>, source: string, msg: string)
    requires ' ' !in source
    ensures var e := ParseCommand(raw, tags, source, msg);
      Parse(Print(MessageOf(e))) == Parsed(e.(raw := Body(MessageOf(e)), tags := map[]))
  {
    hide CutTrailing, Split, ToUpper, IdentityOf, Parse, Print, Body, WellFormed;
    var e := ParseCommand(raw, tags, source, msg);
    ParsedIsWellFormed(raw, tags, source, msg);
    ParsePrint(MessageOf(e));
    UpperAgain(Split(CutTrailing(msg).0, ' ')[0]);
    assert e.arguments != [] ==> Front(e.arguments) + [Last(e.arguments)] == e.arguments;
  }

  /** Every line the parser accepts has a normal form: printing the event and parsing it again gives
      the same event (without the tags, which are not printed). */
  lemma ReprintStable(line: string)
    requires Parse(line).Parsed?
    ensures var e := Parse(line).event;
      Parse(Print(MessageOf(e))) == Parsed(e.(raw := Body(MessageOf(e)), tags := map[]))
  {
    hide ParseCommand, Trimmed, Split, ReadParts, Print, Body, MessageOf;
    var msg := Trimmed(line);
    var i := if msg[0] == '@' then IndexByte(msg, ' ') else -1;
    var tags := if msg[0] == '@' then ReadParts(Split(msg[1..i], ';')) else map[];
    var rest := if msg[0] == '@' then msg[i + 1..] else msg;
    if rest[0] == ':' {
      var j := IndexByte(rest, ' ');
      ReprintParses(msg, tags, rest[1..j], rest[j + 1..]);
    } else {
      ReprintParses(msg, tags, "", rest);
    }
  }

  // ---- Outgoing lines -----------------------------------------------------------------------------

  const DELIM := '\U{01}'

  /** The line of Privmsg and Notice. */
  function TextLine(command: string, target: string, text: string): string {
    command + " " + target + " :" + text + "\r\n"
  }

  function ActionLine(target: string, text: string): string {
    "PRIVMSG " + target + " :" + [DELIM] + "ACTION " + text + [DELIM] + "\r\n"
  }

  function KickLine(channel: string, users: string, text: string): string {
    "KICK " + channel + " " + users + (if text != "" then " :" + text else "") + "\r\n"
  }

  function MultiKickLine(users: seq<string>, channel: string, text: string): string {
    KickLine(channel, Join(users, ','), text)
  }

  lemma PrintOne(source: Option<string>, command: string, target: string, text: string)
    ensures Print(Message(source, command, [target], Some(text)))
      == SourceText(source) + TextLine(command, target, text)
  {
    assert ([command] + [target])[1..] == [target];
    assert Join([command] + [target], ' ') == command + [' '] + target;
  }

  /** What the peer parses when a server relays a PRIVMSG or NOTICE, with or without a source. */
  lemma RelayedText(source: Option<string>, command: string, target: string, text: string)
    requires command == "PRIVMSG" || command == "NOTICE"
    requires ValidMiddle(target) && (source.Some? ==> ' ' !in source.value)
    ensures var r := Parse(SourceText(source) + TextLine(command, target, text));
      && r.Parsed? && r.event.code == command && r.event.arguments == [target, text]
      && r.event.source == (if source.Some? then source.value else "")
  {
    hide Print, Body, Parse;
    var m := Message(source, command, [target], Some(text));
    assert ToUpper(command) == command;
    PrintOne(source, command, target, text);
    ParsePrint(m);
    assert [target] + [text] == [target, text];
  }

  /** A KICK line names the channel, exactly the users, and the reason if there is one; without users it
      names one empty user. */
  lemma MultiKickRoundTrip(users: seq<string>, channel: string, text: string)
    requires Free(users, ',') && Free(users, ' ') && ValidMiddle(channel)
    requires users != [] && users[0] != "" ==> users[0][0] != ':'
    ensures var r := Parse(MultiKickLine(users, channel, text));
      && r.Parsed? && r.event.code == "KICK"
      && r.event.arguments == [channel, Join(users, ',')] + (if text == "" then [] else [text])
      && Split(r.event.arguments[1], ',') == if users == [] then [""] else users
  {
    hide Body, Parse, Split;
    var list := Join(users, ',');
    JoinLacks(users, ',', ' ');
    assert list != "" ==> list[0] != ':' by {
      if |users| > 1 && users[0] == "" { assert list[0] == ','; }
    }
    if users == [] {
      assert Join(users, ',') == Join([""], ',');
      SplitOfJoin([""], ',');
    } else {
      SplitOfJoin(users, ',');
    }
    var m := Message(None, "KICK", [channel, list], if text == "" then None else Some(text));
    assert ToUpper("KICK") == "KICK";
    assert WellFormed(m);
    KickPrints(m, channel, list, text);
    ParsePrint(m);
  }

  lemma KickHead(channel: string, list: string)
    ensures Join(["KICK"] + [channel, list], ' ') == "KICK " + channel + " " + list
  {
    var parts := ["KICK"] + [channel, list];
    assert parts[1..] == [channel, list] && parts[1..][1..] == [list];
    assert Join([channel, list], ' ') == channel + [' '] + list;
    assert Join(parts, ' ') == "KICK" + [' '] + (channel + [' '] + list);
  }

  lemma KickPrints(m: Message, channel: string, list: string, text: string)
    requires m == Message(None, "KICK", [channel, list], if text == "" then None else Some(text))
    ensures Print(m) == KickLine(channel, list, text)
  {
    hide Join;
    KickHead(channel, list);
  }

  // ---- CTCP -------------------------------------------------------------------------------------------

  function LastArgument(arguments: seq<string>): string {
    if arguments == [] then "" else Last(arguments)
  }

  function CtcpCode(body: string): string {
    if body == "VERSION" then "CTCP_VERSION"
    else if body == "TIME" then "CTCP_TIME"
    else if "PING" <= body then "CTCP_PING"
    else if body == "USERINFO" then "CTCP_USERINFO"
    else if body == "CLIENTINFO" then "CTCP_CLIENTINFO"
    else if "ACTION" <= body then "CTCP_ACTION"
    else "CTCP"
  }

  function CtcpText(body: string): string {
    if CtcpCode(body) != "CTCP_ACTION" then body
    else if |body| > 6 then body[7..]
    else ""
  }

  predicate LooksCtcp(code: string, text: string) {
    code == "PRIVMSG" && |text| > 2 && text[0] == DELIM
  }

  datatype Dispatch = Dispatch(code: string, arguments: seq<string>) | Dropped

  /** What is dispatched for an event: the CTCP request if the message holds one. */
  function Decode(code: string, arguments: seq<string>): Dispatch {
    var text := LastArgument(arguments);
    if !LooksCtcp(code, text) then Dispatch(code, arguments)
    else
      var i := LastIndexByte(text, DELIM);
      if i > 0 then
        var body := text[1..i];
        Dispatch(CtcpCode(body), Front(arguments) + [CtcpText(body)])
      else Dropped
  }

  /** The part of an event that dispatching rewrites in place. */
  class LiveEvent {
    var code: string
    var arguments: seq<string>

    constructor (code: string, arguments: seq<string>)
      ensures this.code == code && this.arguments == arguments
    {
      this.code, this.arguments := code, arguments;
    }

    method RewriteCtcp() returns (dispatched: bool)
      modifies this
      ensures dispatched <==> Decode(old(code), old(arguments)).Dispatch?
      ensures dispatched ==> Decode(old(code), old(arguments)) == Dispatch(code, arguments)
      ensures !dispatched ==> code == "CTCP" && arguments == old(arguments)
    {
      var msg := LastArgument(arguments);
      if code == "PRIVMSG" && |msg| > 2 && msg[0] == DELIM {
        code := "CTCP";
        var i := LastIndexByte(msg, DELIM);
        if i > 0 {
          msg := msg[1..i];
        } else {
          return false;
        }
        code := CtcpCode(msg);
        msg := CtcpText(msg);
        arguments := arguments[|arguments| - 1 := msg];
      }
      return true;
    }
  }

  lemma LastDelim(text: string)
    requires |text| >= 2 && text[|text| - 1] == DELIM
    ensures LastIndexByte(text, DELIM) == |text| - 1
  {}

  /** A delimited request of any content, even one holding further delimiters, is decoded whole. */
  lemma CtcpDecodes(before: seq<string>, body: string)
    requires body != ""
    ensures Decode("PRIVMSG", before + [[DELIM] + body + [DELIM]])
      == Dispatch(CtcpCode(body), before + [CtcpText(body)])
  {
    hide CtcpCode, CtcpText;
    var text := [DELIM] + body + [DELIM];
    LastDelim(text);
    assert text[1..|text| - 1] == body;
    assert Front(before + [text]) == before;
  }

  /** Which requests are told apart, whatever the message around them: four exact words, two
      beginnings, and the rest.  Only an action loses its first word, with the byte after it. */
  lemma CtcpRequests(before: seq<string>, body: string)
    requires body != ""
    ensures var d := Decode("PRIVMSG", before + [[DELIM] + body + [DELIM]]);
      && d.Dispatch? && |d.arguments| == |before| + 1 && Front(d.arguments) == before
      && (body == "VERSION" <==> d.code == "CTCP_VERSION")
      && (body == "TIME" <==> d.code == "CTCP_TIME")
      && (body == "USERINFO" <==> d.code == "CTCP_USERINFO")
      && (body == "CLIENTINFO" <==> d.code == "CTCP_CLIENTINFO")
      && ("PING" <= body <==> d.code == "CTCP_PING")
      && ("ACTION" <= body <==> d.code == "CTCP_ACTION")
      && (d.code in CtcpCodes)
      && (Last(d.arguments) ==
            if body == "ACTION" then "" else if "ACTION" <= body then body[7..] else body)
  {
    hide Decode;
    CtcpDecodes(before, body);
    WordsDiffer(body);
  }

  const CtcpCodes: set<string> := {
    "CTCP_VERSION", "CTCP_TIME", "CTCP_PING", "CTCP_USERINFO", "CTCP_CLIENTINFO", "CTCP_ACTION", "CTCP"}

  /** The words differ in their first bytes. */
  lemma WordsDiffer(body: string)
    ensures "PING" <= body ==> body[0] == 'P'
    ensures "ACTION" <= body ==> body[0] == 'A'
  {}

  /** A message is dropped just when it opens a CTCP request and never closes it. */
  lemma DroppedIff(code: string, arguments: seq<string>)
    ensures Decode(code, arguments) == Dropped <==>
      var text := LastArgument(arguments);
      code == "PRIVMSG" && |text| > 2 && text[0] == DELIM && DELIM !in text[1..]
  {
    hide CtcpCode, CtcpText;
    var text := LastArgument(arguments);
    if LooksCtcp(code, text) {
      var i := LastIndexByte(text, DELIM);
      if i > 0 {
        assert text[1..][i - 1] == DELIM;
      }
    }
  }

  /** Anything that does not open a request is dispatched as it is. */
  lemma PlainUnchanged(code: string, arguments: seq<string>)
    requires var text := LastArgument(arguments); code == "PRIVMSG" && |text| > 2 ==> text[0] != DELIM
    ensures Decode(code, arguments) == Dispatch(code, arguments)
  {}

  lemma ActionText(text: string)
    ensures CtcpCode("ACTION " + text) == "CTCP_ACTION" && CtcpText("ACTION " + text) == text
  {
    var body := "ACTION " + text;
    assert body[0] == 'A' && body[..6] == "ACTION" && body[7..] == text;
    assert "VERSION"[0] == 'V' && "TIME"[0] == 'T' && "USERINFO"[0] == 'U' && "CLIENTINFO"[0] == 'C';
  }

  /** Sending an action, relaying it, parsing it and decoding it yields the original text. */
  lemma ActionRoundTrip(source: Option<string>, target: string, text: string)
    requires ValidMiddle(target) && (source.Some? ==> ' ' !in source.value)
    ensures var r := Parse(SourceText(source) + ActionLine(target, text));
      r.Parsed? && Decode(r.event.code, r.event.arguments) == Dispatch("CTCP_ACTION", [target, text])
  {
    hide Parse, Decode, CtcpCode, CtcpText;
    var body := "ACTION " + text;
    var payload := [DELIM] + body + [DELIM];
    assert ActionLine(target, text) == TextLine("PRIVMSG", target, payload);
    RelayedText(source, "PRIVMSG", target, payload);
    CtcpDecodes([target], body);
    ActionText(text);
    assert [target] + [payload] == [target, payload];
    assert [target] + [text] == [target, text];
  }
}
