/** The nickname protocol on the wire: the lines a server sends for the events of `NickClient`, the
parser of `Wire`, and the dispatch of the parsed event to its handler. */
module NickWire {
  import opened Text
  import W = Wire
  import N = NickClient
  import A = NickAgreement
  import Q = NickQuiescence
  import NickRules

  function ErrorOf(code: string): Option<N.NickError> {
    if code == "432" then Some(N.Erroneous)
    else if code == "433" then Some(N.InUse)
    else if code == "436" then Some(N.Collision)
    else if code == "437" then Some(N.Unavailable)
    else None
  }

  /** What becomes of a line: a handler step, nothing, or the run-time panic of an index out of range
      in the parser or in the 001 handler. */
  datatype Outcome = Handler(event: N.Event) | Ignored | Panics

  function Dispatch(e: W.Event): Outcome {
    if e.code == "001" then (if e.arguments == [] then Panics else Handler(N.Welcome(e.arguments[0])))
    else if e.code == "NICK" then Handler(N.NickChange(e.nick, W.LastArgument(e.arguments)))
    else if ErrorOf(e.code).Some? then Handler(N.Rejected(ErrorOf(e.code).value, e.arguments))
    else if e.code == "431" then Handler(N.NoNickGiven)
    else if e.code == "484" then Handler(N.Restricted)
    else if e.code == "002" || e.code == "003" || e.code == "004" then Handler(N.Greeting)
    else if e.code == "005" then Handler(N.Support)
    else if e.code == "376" || e.code == "422" then Handler(N.MotdEnd)
    else Ignored
  }

  /** The read loop's treatment of a line, as far as nicknames and registration are concerned. */
  function Read(line: string): Outcome {
    match W.Parse(line)
    case Parsed(e) => Dispatch(e)
    case Malformed => Ignored
    case OutOfRange => Panics
  }

  function NumericOf(e: N.Event, p: Peer): string {
    match e
    case Welcome(_) => "001"
    case Rejected(Erroneous, _) => "432"
    case Rejected(InUse, _) => "433"
    case Rejected(Collision, _) => "436"
    case Rejected(Unavailable, _) => "437"
    case NoNickGiven => "431"
    case Restricted => "484"
    case Greeting => p.greeting
    case Support => "005"
    case MotdEnd => p.motdEnd
    case _ => "NICK"
  }

  /** The server's name, the user and host it shows for a nick, and which of the numerics 002 to 004 and
      376 or 422 it sends. */
  datatype Peer = Peer(server: string, user: string, host: string, greeting: string, motdEnd: string)

  predicate ValidPeer(p: Peer) {
    && ' ' !in p.server && ' ' !in p.user && '@' !in p.user && ' ' !in p.host
    && (p.greeting == "002" || p.greeting == "003" || p.greeting == "004")
    && (p.motdEnd == "376" || p.motdEnd == "422")
  }

  predicate Printable(e: N.Event) {
    match e
    case Welcome(n) => W.ValidMiddle(n)
    case NickChange(who, _) => ' ' !in who && '!' !in who && '@' !in who
    case Rejected(_, args) => forall i | 0 <= i < |args| - 1 :: W.ValidMiddle(args[i])
    case _ => true
  }

  /** The server's message for an event. */
  function MessageFor(e: N.Event, p: Peer): W.Message {
    match e
    case Welcome(n) => W.Message(Some(p.server), "001", [n], Some("Welcome"))
    case NickChange(who, to) =>
      W.Message(Some(who + "!" + p.user + "@" + p.host), "NICK", [], Some(to))
    case Rejected(_, args) =>
      if args == [] then W.Message(Some(p.server), NumericOf(e, p), [], None)
      else W.Message(Some(p.server), NumericOf(e, p), W.Front(args), Some(W.Last(args)))
    case _ => W.Message(Some(p.server), NumericOf(e, p), [], Some(""))
  }

  function LineFor(e: N.Event, p: Peer): string {
    W.Print(MessageFor(e, p))
  }

  lemma NumericUpper(e: N.Event, p: Peer)
    requires ValidPeer(p)
    ensures ToUpper(NumericOf(e, p)) == NumericOf(e, p) && ' ' !in NumericOf(e, p)
  {}

  lemma MessageWellFormed(e: N.Event, p: Peer)
    requires A.IsServerMessage(e) && Printable(e) && ValidPeer(p)
    ensures W.WellFormed(MessageFor(e, p)) && ToUpper(MessageFor(e, p).command) == NumericOf(e, p)
  {
    hide ToUpper;
    NumericUpper(e, p);
    if e.Rejected? && e.args != [] {
      var front := W.Front(e.args);
      forall i | 0 <= i < |front| ensures W.ValidMiddle(front[i]) {
        assert front[i] == e.args[i];
      }
    }
  }

  lemma CodeDispatches(e: N.Event, p: Peer, x: W.Event)
    requires A.IsServerMessage(e) && ValidPeer(p) && x.code == NumericOf(e, p)
    requires e.Welcome? ==> x.arguments != [] && x.arguments[0] == e.nick
    requires e.NickChange? ==> x.nick == e.who && x.arguments == [e.to]
    requires e.Rejected? ==> x.arguments == e.args
    ensures Dispatch(x) == Handler(e)
  {
    assert ErrorOf(x.code) == if e.Rejected? then Some(e.code) else None;
  }

  lemma ArgumentsArrive(e: N.Event, p: Peer)
    requires A.IsServerMessage(e)
    ensures var m := MessageFor(e, p); var args := W.Arguments(m.middles, m.trailing);
      && (e.Welcome? ==> args != [] && args[0] == e.nick)
      && (e.NickChange? ==> args == [e.to])
      && (e.Rejected? ==> args == e.args)
  {
    hide NumericOf;
    if e.Rejected? && e.args != [] {
      assert W.Front(e.args) + [W.Last(e.args)] == e.args;
    }
  }

  /** A server message printed as a line, parsed and dispatched is handled as that message. */
  lemma LineDelivers(e: N.Event, p: Peer)
    requires A.IsServerMessage(e) && Printable(e) && ValidPeer(p)
    ensures Read(LineFor(e, p)) == Handler(e)
  {
    hide Dispatch, W.Parse, W.WellFormed, NumericOf, W.IdentityOf, W.Body;
    MessageWellFormed(e, p);
    W.ParsePrint(MessageFor(e, p));
    ArgumentsArrive(e, p);
    if e.NickChange? {
      W.IdentityOfParts(e.who, p.user, p.host);
    }
    CodeDispatches(e, p, W.Parse(LineFor(e, p)).event);
  }

  // ---- NICK lines of any form ----------------------------------------------------------------

  /** The text before the command, without its colon. */
  function SourceOf(m: W.Message): string {
    if m.source.Some? then m.source.value else ""
  }

  /** Is the source of a NICK line recognised as the holder of the nick? */
  predicate NamesHolder(source: string, nick: string) {
    if W.HasIdentity(source) then NickRules.NickEqual(W.IdentityOf(source).nick, nick) else nick == ""
  }

  /** Every well-formed NICK line, whatever its source: our nick becomes the last argument if that is not
      empty and the source is nick!user@host with the nick we hold; otherwise nothing changes. */
  lemma NickLineEffect(c: N.Client, m: W.Message, now: int)
    requires W.WellFormed(m) && ToUpper(m.command) == "NICK"
    ensures var to := W.LastArgument(W.Arguments(m.middles, m.trailing));
      && Read(W.Print(m)).Handler?
      && N.Step(c, Read(W.Print(m)).event, now) ==
           if to != "" && NamesHolder(SourceOf(m), c.current) then N.Confirmed(c, to, now) else c
  {
    hide W.Parse, W.Print, W.Body, W.WellFormed, NickRules.Canonical;
    W.ParsePrint(m);
    EmptyNick(c.current);
  }

  lemma EmptyNick(nick: string)
    ensures NickRules.NickEqual("", nick) <==> nick == ""
  {
    assert |NickRules.Canonical("")| != |NickRules.Canonical(nick)| <==> nick != "";
  }

  /** So the full source is needed: without user and host a NICK line is not recognised as ours, even
      when its source is the nick we hold. */
  lemma BareSourceIgnored(c: N.Client, m: W.Message, now: int)
    requires W.WellFormed(m) && ToUpper(m.command) == "NICK" && !W.HasIdentity(SourceOf(m)) && c.current != ""
    ensures Read(W.Print(m)).Handler? && N.Step(c, Read(W.Print(m)).event, now) == c
  {
    hide Read, W.Print, W.WellFormed, N.Step;
    NickLineEffect(c, m, now);
  }

  // ---- Error numerics and other lines ---------------------------------------------------------

  /** What the user is told once the line of an error numeric is handled, whatever its arguments. */
  lemma ErrorReported(c: N.Client, m: W.Message, now: int)
    requires W.WellFormed(m) && m.command in {"431", "432", "433", "436", "437", "484"}
    ensures Read(W.Print(m)).Handler?
    ensures N.StatusOf(N.Step(c, Read(W.Print(m)).event, now), now).error ==
      if m.command == "431" then "No nickname given"
      else if m.command == "432" then "Erroneous nickname"
      else if m.command == "433" then "Nickname already in use"
      else if m.command == "436" then "Nickname collision"
      else if m.command == "437" then "Nickname temporarily unavailable"
      else "Restricted nickname"
  {
    hide W.Parse, W.Print, W.Body, W.WellFormed, N.Step, W.IdentityOf;
    W.ParsePrint(m);
    assert ToUpper(m.command) == m.command;
    ErrorKept(c, Read(W.Print(m)).event, now);
  }

  lemma ErrorKept(c: N.Client, e: N.Event, now: int)
    requires A.IsErrorReply(e)
    ensures N.Step(c, e, now).error ==
      match e
      case Rejected(code, _) => N.ErrorText(code)
      case NoNickGiven => "No nickname given"
      case _ => "Restricted nickname"
  {
    hide NickRules.NickEqual, NickRules.Alternative, N.ErrorText;
  }

  /** Only these commands, in any case of letters, reach a nickname or registration handler. */
  lemma OtherLinesIgnored(m: W.Message)
    requires W.WellFormed(m)
    ensures Read(W.Print(m)).Ignored? <==>
      ToUpper(m.command) !in {"001", "002", "003", "004", "005", "376", "422", "431", "432", "433", "436", "437",
                              "484", "NICK"}
  {
    hide W.Parse, W.Print, W.Body, W.WellFormed, ToUpper;
    W.ParsePrint(m);
  }

  // ---- 001 without arguments -----------------------------------------------------------------

  lemma NothingToCut(msg: string)
    requires ' ' !in msg
    ensures W.CutTrailing(msg) == (msg, None)
  {
    var i := Index(msg, " :");
    if i != -1 {
      OccurrenceByte(msg, " :", i, 0);
    }
  }

  lemma Blanks(s: string)
    ensures |Split(s, ' ')| == 1 <==> ' ' !in s
    ensures ' ' !in s ==> Split(s, ' ') == [s]
  {}

  lemma WithoutArguments(raw: string, tags: map<string, string>, source: string, msg: string)
    ensures W.ParseCommand(raw, tags, source, msg).arguments == [] <==> ' ' !in msg
    ensures ' ' !in msg ==> W.ParseCommand(raw, tags, source, msg).code == ToUpper(msg)
  {
    hide ToUpper, W.IdentityOf, W.CutTrailing, Split, Index;
    if ' ' !in msg {
      NothingToCut(msg);
      Blanks(msg);
    } else {
      NotCut(msg);
      Blanks(msg);
    }
  }

  lemma NotCut(msg: string)
    ensures W.CutTrailing(msg).1.None? ==> W.CutTrailing(msg).0 == msg
  {}

  lemma WelcomeCode(code: string)
    ensures ToUpper(code) == "001" <==> code == "001"
  {
    assert |ToUpper(code)| == |code|;
  }

  /** The 001 handler indexes out of range exactly if the line is, after tags and source, just 001. */
  lemma WelcomePanicsIff(raw: string, tags: map<string, string>, source: string, msg: string)
    ensures Dispatch(W.ParseCommand(raw, tags, source, msg)).Panics? <==> msg == "001"
  {
    hide ToUpper, W.ParseCommand;
    WithoutArguments(raw, tags, source, msg);
    WelcomeCode(msg);
  }

  // ---- The protocol over text ----------------------------------------------------------------

  /** A world of `NickAgreement` in which the messages towards the client are lines of text; the
      inbox of `core` is not used. */
  datatype TextWorld = TextWorld(core: A.World, lines: seq<string>)

  datatype TextMove =
    | Protocol(move: A.Move, peer: Peer)   // a move; what it sends to the client becomes lines
    | Chatter(line: string)                // a line that no nickname or registration handler sees

  datatype TextTick = TextTick(move: TextMove, now: int)

  /** The messages a move of the server sends. */
  function Posted(w: A.World, m: A.Move): seq<N.Event>
    requires A.Allowed(w, m) && !m.Deliver?
  {
    A.Play(w.(inbox := []), m, 0).inbox
  }

  function LinesFor(posted: seq<N.Event>, p: Peer): seq<string> {
    seq(|posted|, i requires 0 <= i < |posted| => LineFor(posted[i], p))
  }

  predicate TextAllowed(t: TextWorld, m: TextMove) {
    match m
    case Chatter(line) => Read(line).Ignored?
    case Protocol(move, p) =>
      if move.Deliver? then t.lines != []
      else A.Allowed(t.core, move) && ValidPeer(p) && forall e | e in Posted(t.core, move) :: Printable(e)
  }

  /** The client reads, parses and dispatches the next line; the other moves are those of the
      protocol. */
  function TextPlay(t: TextWorld, m: TextMove, now: int): TextWorld
    requires TextAllowed(t, m)
  {
    match m
    case Chatter(line) => t.(lines := t.lines + [line])
    case Protocol(move, p) =>
      if move.Deliver? then
        var core :=
          match Read(t.lines[0])
          case Handler(e) => A.Play(t.core.(inbox := [e]), A.Deliver, now)
          case _ => t.core;
        TextWorld(core, t.lines[1..])
      else
        TextWorld(A.Play(t.core, move, now),
                  (if move.Reopen? then [] else t.lines) + LinesFor(Posted(t.core, move), p))
  }

  ghost predicate TextRuns(t: TextWorld, run: seq<TextTick>)
    decreases |run|
  {
    run == [] || (TextAllowed(t, run[0].move) && TextRuns(TextPlay(t, run[0].move, run[0].now), run[1..]))
  }

  ghost function TextFinal(t: TextWorld, run: seq<TextTick>): TextWorld
    requires TextRuns(t, run)
    decreases |run|
  {
    if run == [] then t else TextFinal(TextPlay(t, run[0].move, run[0].now), run[1..])
  }

  function TextStart(c: N.Client, others: set<string>): TextWorld {
    TextWorld(A.Start(c, others), [])
  }

  // ---- Text refines messages -----------------------------------------------------------------

  /** The messages that the lines in flight stand for. */
  function Messages(lines: seq<string>): seq<N.Event>
    decreases |lines|
  {
    if lines == [] then []
    else (if Read(lines[0]).Handler? then [Read(lines[0]).event] else []) + Messages(lines[1..])
  }

  function Abstract(t: TextWorld): A.World {
    t.core.(inbox := Messages(t.lines))
  }

  /** Moves of the text that do not show in the protocol. */
  predicate Silent(t: TextWorld, m: TextMove) {
    m.Chatter? || (m.move.Deliver? && t.lines != [] && !Read(t.lines[0]).Handler?)
  }

  /** The run of the protocol that a run over text stands for. */
  ghost function AbstractRun(t: TextWorld, run: seq<TextTick>): seq<A.Tick>
    requires TextRuns(t, run)
    decreases |run|
  {
    if run == [] then []
    else
      (if Silent(t, run[0].move) then [] else [A.Tick(run[0].move.move, run[0].now)])
      + AbstractRun(TextPlay(t, run[0].move, run[0].now), run[1..])
  }

  lemma {:induction false} MessagesAppend(lines: seq<string>, more: seq<string>)
    ensures Messages(lines + more) == Messages(lines) + Messages(more)
    decreases |lines|
  {
    hide Read;
    if lines == [] {
      assert lines + more == more;
    } else {
      MessagesAppend(lines[1..], more);
      var whole := lines + more;
      assert whole[0] == lines[0] && whole[1..] == lines[1..] + more;
      var first := if Read(lines[0]).Handler? then [Read(lines[0]).event] else [];
      assert Messages(whole) == first + (Messages(lines[1..]) + Messages(more));
    }
  }

  lemma {:induction false} PostedArrive(posted: seq<N.Event>, p: Peer)
    requires ValidPeer(p) && forall e | e in posted :: A.IsServerMessage(e) && Printable(e)
    ensures Messages(LinesFor(posted, p)) == posted
    ensures forall line | line in LinesFor(posted, p) :: Read(line).Handler?
    decreases |posted|
  {
    hide Read, LineFor, Printable, ValidPeer;
    if posted != [] {
      assert posted[0] in posted;
      LineDelivers(posted[0], p);
      assert LinesFor(posted, p) == [LineFor(posted[0], p)] + LinesFor(posted[1..], p);
      PostedArrive(posted[1..], p);
    }
  }

  /** A move posts its messages behind those in flight and does not look at them. */
  lemma MovePosts(w: A.World, m: A.Move, inbox: seq<N.Event>, now: int)
    requires A.Allowed(w, m) && !m.Deliver?
    ensures A.Allowed(w.(inbox := inbox), m)
    ensures A.Play(w.(inbox := inbox), m, now) ==
      A.Play(w, m, now).(inbox := (if m.Reopen? then [] else inbox) + Posted(w, m))
    ensures forall e | e in Posted(w, m) :: A.IsServerMessage(e)
  {
    hide N.Step, N.Sent, NickRules.NickEqual;
  }

  lemma DeliveryRefines(t: TextWorld, now: int)
    requires t.lines != []
    ensures var t' := TextPlay(t, Protocol(A.Deliver, Peer("", "", "", "", "")), now); var w := Abstract(t);
      if Read(t.lines[0]).Handler?
      then A.Allowed(w, A.Deliver) && Abstract(t') == A.Play(w, A.Deliver, now)
      else Abstract(t') == w
  {
    hide Read, N.Step, N.Sent;
  }

  lemma MoveRefines(t: TextWorld, m: TextMove, now: int)
    requires TextAllowed(t, m)
    ensures var t' := TextPlay(t, m, now); var w := Abstract(t);
      if Silent(t, m) then Abstract(t') == w
      else A.Allowed(w, m.move) && Abstract(t') == A.Play(w, m.move, now)
  {
    hide Read, N.Step, N.Sent, A.Play, LinesFor, Printable, Posted;
    match m {
      case Chatter(line) => MessagesAppend(t.lines, [line]);
      case Protocol(move, p) =>
        if move.Deliver? {
          DeliveryRefines(t, now);
        } else {
          MovePosts(t.core, move, Messages(t.lines), now);
          PostedArrive(Posted(t.core, move), p);
          MessagesAppend(if move.Reopen? then [] else t.lines, LinesFor(Posted(t.core, move), p));
        }
    }
  }

  /** Every run over text is, read by the parser and the dispatcher, a run of the protocol. */
  lemma {:induction false} TextRefines(t: TextWorld, run: seq<TextTick>)
    requires TextRuns(t, run)
    ensures A.Runs(Abstract(t), AbstractRun(t, run))
    ensures A.Final(Abstract(t), AbstractRun(t, run)) == Abstract(TextFinal(t, run))
    decreases |run|
  {
    hide TextPlay, TextAllowed, Abstract, Read, A.Play, A.Allowed, A.Runs, A.Final;
    if run == [] {
      A.EmptyRun(Abstract(t));
    } else {
      var t' := TextPlay(t, run[0].move, run[0].now);
      MoveRefines(t, run[0].move, run[0].now);
      TextRefines(t', run[1..]);
      if Silent(t, run[0].move) {
        assert AbstractRun(t, run) == AbstractRun(t', run[1..]);
      } else {
        A.FirstMove(Abstract(t), A.Tick(run[0].move.move, run[0].now), AbstractRun(t', run[1..]));
      }
    }
  }

  ghost predicate TextDisciplined(t: TextWorld, run: seq<TextTick>, r: A.Regime)
    requires TextRuns(t, run)
  {
    TextRefines(t, run);
    A.AllDisciplined(Abstract(t), AbstractRun(t, run), r)
  }

  /** The client after reading, parsing and dispatching the lines. */
  function ReplayLines(c: N.Client, lines: seq<string>, now: int): N.Client
    decreases |lines|
  {
    if lines == [] then c
    else
      var c' := match Read(lines[0]) case Handler(e) => N.Step(c, e, now) case _ => c;
      ReplayLines(c', lines[1..], now)
  }

  lemma {:induction false} LinesReplay(c: N.Client, lines: seq<string>, now: int)
    ensures ReplayLines(c, lines, now) == A.Replay(c, Messages(lines), now)
    decreases |lines|
  {
    hide Read, N.Step;
    if lines != [] {
      var c' := match Read(lines[0]) case Handler(e) => N.Step(c, e, now) case _ => c;
      LinesReplay(c', lines[1..], now);
      if Read(lines[0]).Handler? {
        assert Messages(lines)[1..] == Messages(lines[1..]);
      } else {
        assert Messages(lines) == Messages(lines[1..]);
      }
    }
  }

  /** Agreement end to end: in every run whose messages travel as text, amid any other lines, the client
      that reads the lines in flight ends up on exactly the server's nick for us. */
  lemma TextAgreement(c: N.Client, others: set<string>, run: seq<TextTick>, r: A.Regime, now: int)
    requires TextRuns(TextStart(c, others), run) && TextDisciplined(TextStart(c, others), run, r)
    ensures var t := TextFinal(TextStart(c, others), run); var w := t.core;
      && (w.me.Some? && !r.NoDisplacement? ==> ReplayLines(w.client, t.lines, now).current == w.me.value)
      && (w.me.Some? && t.lines == [] ==> w.client.current == w.me.value)
  {
    hide A.Runs, A.Final, A.AllDisciplined, N.Step, A.Replay, ReplayLines, TextRuns, TextFinal, AbstractRun, Read;
    var t0 := TextStart(c, others);
    TextRefines(t0, run);
    A.Agreement(c, others, AbstractRun(t0, run), r, now);
    var t := TextFinal(t0, run);
    LinesReplay(t.core.client, t.lines, now);
  }

  /** Quiescence end to end: the same for a run that is orderly and in which no line read stalls the
      change for good. */
  lemma TextNothingLeftPending(c: N.Client, others: set<string>, run: seq<TextTick>)
    requires TextRuns(TextStart(c, others), run)
    requires Q.Orderly(A.Start(c, others), AbstractRun(TextStart(c, others), run))
    requires Q.NeverStalls(A.Start(c, others), AbstractRun(TextStart(c, others), run))
    ensures var t := TextFinal(TextStart(c, others), run); var w := t.core;
      w.me.Some? && w.unsent == [] && w.outbox == [] && t.lines == [] ==>
        Q.AtRest(w.client) && w.client.current == w.me.value
  {
    hide A.Runs, A.Final, TextRuns, TextFinal, AbstractRun, Read, Q.Orderly, Q.NeverStalls, Q.AtRest;
    TextRefines(TextStart(c, others), run);
    Q.NothingLeftPending(c, others, AbstractRun(TextStart(c, others), run));
  }

  predicate Readable(lines: seq<string>) {
    forall line | line in lines :: !Read(line).Panics?
  }

  lemma {:induction false} StaysReadable(t: TextWorld, run: seq<TextTick>)
    requires TextRuns(t, run) && Readable(t.lines)
    ensures Readable(TextFinal(t, run).lines)
    decreases |run|
  {
    hide TextPlay, TextAllowed, Readable;
    if run != [] {
      MoveReadable(t, run[0].move, run[0].now);
      StaysReadable(TextPlay(t, run[0].move, run[0].now), run[1..]);
    }
  }

  lemma MoveReadable(t: TextWorld, m: TextMove, now: int)
    requires TextAllowed(t, m) && Readable(t.lines)
    ensures Readable(TextPlay(t, m, now).lines)
  {
    hide Read, N.Step, N.Sent, A.Play, LinesFor, Printable, Posted;
    if m.Protocol? && !m.move.Deliver? {
      MovePosts(t.core, m.move, [], now);
      PostedArrive(Posted(t.core, m.move), m.peer);
    }
  }

  /** Nothing such a server writes makes the parser or the 001 handler panic. */
  lemma NoLinePanics(c: N.Client, others: set<string>, run: seq<TextTick>)
    requires TextRuns(TextStart(c, others), run)
    ensures Readable(TextFinal(TextStart(c, others), run).lines)
  {
    hide TextRuns, TextFinal, Read;
    StaysReadable(TextStart(c, others), run);
  }
}
