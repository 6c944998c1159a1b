/** The nickname protocol of section 3.1.2 of RFC 2812, end to end: the client of `NickClient`,
FIFO queues in both directions, and a server that keeps nicks unique up to casemapping. */
module NickAgreement {
  import opened Text
  import opened NickRules
  import opened NickClient

  datatype World = World(
    client: Client,
    unsent: seq<string>,     // lines of Nick() calls that have released the lock but not yet written
    claims: seq<string>,     // nicks of registrations claimed but not yet written
    outbox: seq<string>,     // NICK lines on their way to the server
    inbox: seq<Event>,       // server messages on their way to the client
    heard: bool,             // has the client processed the 001 of this session?
    me: Option<string>,      // the server's nick for us, once registered
    others: set<string>)     // the nicks of all other users

  datatype Move =
    | Call(wanted: string)                   // the user calls Nick()
    | Write(index: nat)                      // one of those calls writes its line
    | WriteClaim(index: nat)                 // a registration writes its NICK line
    | DropClaim(index: nat)                  // ... or finds its generation reset and writes nothing
    | Deliver                                // the client handles the next message
    | Accept                                 // the server grants the next NICK line
    | Refuse(reply: Event)                   // ... answers it with an error numeric
    | Swallow                                // ... or does not answer
    | Register(nick: string)                 // the server completes our registration
    | Force(nick: string)                    // the server renames us unasked
    | OtherTakes(nick: string)
    | OtherRenames(from: string, to: string)
    | OtherLeaves(nick: string)
    | Say(numeric: Event)                    // 002-005, 376, 422
    | Local(event: Event)                    // GetNickStatus, failed validation, disconnect, reset
    | Reopen                                 // a new session: Connect resets and starts afresh

  predicate IsErrorReply(e: Event) {
    e.Rejected? || e.NoNickGiven? || e.Restricted?
  }

  predicate IsNumeric(e: Event) {
    e.Greeting? || e.Support? || e.MotdEnd?
  }

  /** Local steps that may clear the fully-connected flag. */
  predicate IsLapse(e: Event) {
    e.ValidationFailed? || e.DisconnectEmitted? || e.Reset?
  }

  predicate IsServerMessage(e: Event) {
    IsErrorReply(e) || IsNumeric(e) || e.Welcome? || e.NickChange?
  }

  predicate Taken(nicks: set<string>, n: string) {
    exists o | o in nicks :: NickEqual(o, n)
  }

  predicate Allowed(w: World, m: Move) {
    match m
    case Write(i) => i < |w.unsent|
    case WriteClaim(i) => i < |w.claims|
    case DropClaim(i) => i < |w.claims|
    case Deliver => w.inbox != []
    case Accept => w.outbox != [] && w.me.Some? && w.outbox[0] != "" && !Taken(w.others, w.outbox[0])
    case Refuse(reply) => w.outbox != [] && IsErrorReply(reply)
    case Swallow => w.outbox != []
    case Register(n) => w.me.None? && n != "" && !Taken(w.others, n)
    case Force(n) => w.me.Some? && n != "" && !Taken(w.others, n)
    case OtherTakes(n) => !Taken(w.others, n) && (w.me.Some? ==> !NickEqual(n, w.me.value))
    case OtherRenames(a, b) =>
      a in w.others && !Taken(w.others - {a}, b) && (w.me.Some? ==> !NickEqual(b, w.me.value))
    case Say(e) => IsNumeric(e)
    case Local(e) => IsLapse(e) || e.StatusQuery? || e.RegistrationClaimed?
    case _ => true
  }

  function Lines(o: Option<string>): seq<string> {
    if o.Some? then [o.value] else []
  }

  function Play(w: World, m: Move, now: int): World
    requires Allowed(w, m)
  {
    match m
    case Call(n) =>
      w.(client := Step(w.client, UserNick(n), now),
         unsent := w.unsent + Lines(Sent(w.client, UserNick(n), now)))
    case Write(i) =>
      w.(unsent := w.unsent[..i] + w.unsent[i + 1..], outbox := w.outbox + [w.unsent[i]])
    case WriteClaim(i) =>
      w.(claims := w.claims[..i] + w.claims[i + 1..], outbox := w.outbox + [w.claims[i]])
    case DropClaim(i) => w.(claims := w.claims[..i] + w.claims[i + 1..])
    case Deliver =>
      var e := w.inbox[0];
      w.(client := Step(w.client, e, now), inbox := w.inbox[1..],
         outbox := w.outbox + Lines(Sent(w.client, e, now)),
         heard := w.heard || e.Welcome?)
    case Accept =>
      w.(outbox := w.outbox[1..], me := Some(w.outbox[0]),
         inbox := w.inbox + [NickChange(w.me.value, w.outbox[0])])
    case Refuse(reply) => w.(outbox := w.outbox[1..], inbox := w.inbox + [reply])
    case Swallow => w.(outbox := w.outbox[1..])
    case Register(n) => w.(me := Some(n), inbox := w.inbox + [Welcome(n)])
    case Force(n) => w.(me := Some(n), inbox := w.inbox + [NickChange(w.me.value, n)])
    case OtherTakes(n) => w.(others := w.others + {n})
    case OtherRenames(a, b) =>
      w.(others := w.others - {a} + {b}, inbox := w.inbox + [NickChange(a, b)])
    case OtherLeaves(n) => w.(others := w.others - {n})
    case Say(e) => w.(inbox := w.inbox + [e])
    case Local(e) =>
      w.(client := Step(w.client, e, now),
         claims := w.claims + if e.RegistrationClaimed? then [w.client.desired] else [])
    case Reopen =>
      w.(client := Step(w.client, Reset, now), outbox := [], inbox := [], heard := false, me := None)
  }

  // ---- The claim --------------------------------------------------------------

  /** The client state once it has handled all messages in flight. */
  function Replay(c: Client, inbox: seq<Event>, now: int): Client
    decreases |inbox|
  {
    if inbox == [] then c else Replay(Step(c, inbox[0], now), inbox[1..], now)
  }

  /** Three conditions, each of which guarantees agreement.  The server never rejects the very nick we
      hold; or, once 001 is handled, the connection stays fully connected; or no delivery displaces
      the client, which is the exact guard of the branch that breaks agreement. */
  datatype Regime = PoliteServer | SteadyConnection | NoDisplacement

  /** Does the handler abandon the nick the client holds? */
  predicate Abandons(c: Client, e: Event) {
    e.Rejected? && !c.connected && Recovers(c, e.code, e.args) && NickEqual(e.args[1], c.current)
  }

  /** Is the next delivery, in a session whose 001 was handled, of that kind? */
  predicate Displaced(w: World) {
    w.heard && w.inbox != [] && Abandons(w.client, w.inbox[0])
  }

  /** What each move must respect. */
  predicate Disciplined(w: World, m: Move, r: Regime) {
    match m
    case Refuse(reply) =>
      r.PoliteServer? && reply.Rejected? && |reply.args| > 1 && w.me.Some? ==> !NickEqual(reply.args[1], w.me.value)
    case Local(e) => r.SteadyConnection? && IsLapse(e) ==> !w.heard
    case Deliver => r.NoDisplacement? ==> !Displaced(w)
    case _ => true
  }

  datatype Tick = Tick(move: Move, now: int)

  ghost predicate Runs(w: World, run: seq<Tick>)
    decreases |run|
  {
    run == [] || (Allowed(w, run[0].move) && Runs(Play(w, run[0].move, run[0].now), run[1..]))
  }

  ghost function Final(w: World, run: seq<Tick>): World
    requires Runs(w, run)
    decreases |run|
  {
    if run == [] then w else Final(Play(w, run[0].move, run[0].now), run[1..])
  }

  /** Every move of the run respects the discipline. */
  ghost predicate AllDisciplined(w: World, run: seq<Tick>, r: Regime)
    requires Runs(w, run)
    decreases |run|
  {
    run == [] ||
    (&& Disciplined(w, run[0].move, r)
     && AllDisciplined(Play(w, run[0].move, run[0].now), run[1..], r))
  }

  /** Any state of the client before its first session. */
  function Start(c: Client, others: set<string>): World {
    World(c, [], [], [], [], false, None, others)
  }

  // ---- Following the server -------------------------------------------------------

  /** What an observer who only reads 001 and NICK messages believes our nick to be. */
  function Follow(view: Option<string>, e: Event): Option<string> {
    match e
    case Welcome(n) => Some(n)
    case NickChange(who, to) =>
      if view.Some? && NickEqual(who, view.value) && to != "" then Some(to) else view
    case _ => view
  }

  function Track(view: Option<string>, inbox: seq<Event>): Option<string>
    decreases |inbox|
  {
    if inbox == [] then view else Track(Follow(view, inbox[0]), inbox[1..])
  }

  /** Does this message reject the nick we hold? */
  predicate Displaces(view: Option<string>, e: Event) {
    view.Some? && e.Rejected? && |e.args| > 1 && NickEqual(e.args[1], view.value)
  }

  predicate Polite(view: Option<string>, inbox: seq<Event>)
    decreases |inbox|
  {
    inbox == [] || (!Displaces(view, inbox[0]) && Polite(Follow(view, inbox[0]), inbox[1..]))
  }

  lemma {:induction false} TrackAppend(view: Option<string>, inbox: seq<Event>, e: Event)
    ensures Track(view, inbox + [e]) == Follow(Track(view, inbox), e)
    ensures Polite(view, inbox + [e]) <==> Polite(view, inbox) && !Displaces(Track(view, inbox), e)
    decreases |inbox|
  {
    hide Follow, Displaces;
    if inbox == [] {
      assert (inbox + [e])[1..] == [];
    } else {
      TrackAppend(Follow(view, inbox[0]), inbox[1..], e);
      assert (inbox + [e])[1..] == inbox[1..] + [e];
    }
  }

  /** The nick the client holds by the messages of this session. */
  function Belief(c: Client, heard: bool): Option<string> {
    if heard then Some(c.current) else None
  }

  function Seen(w: World): Option<string> {
    Belief(w.client, w.heard)
  }

  ghost predicate Invariant(w: World, r: Regime) {
    && Track(Seen(w), w.inbox) == w.me
    && (forall e | e in w.inbox :: IsServerMessage(e))
    && (w.me.Some? ==> !Taken(w.others, w.me.value))
    && (r.PoliteServer? ==> Polite(Seen(w), w.inbox))
    && (r.SteadyConnection? && w.heard ==> w.client.connected)
  }

  // ---- The client follows ------------------------------------------------------------

  /** The handlers of the error numerics change the current nick exactly when the connection is
      not fully connected and they abandon the nick it believes to hold.  They then never end up
      on that nick, in any spelling. */
  lemma RejectionDisplacesIff(c: Client, code: NickError, args: seq<string>, now: int)
    ensures Step(c, Rejected(code, args), now).current != c.current
      <==> !c.connected && Recovers(c, code, args) && NickEqual(args[1], c.current)
  {
    hide Alternative, ErrorText;
    if |args| > 1 {
      AlternativeIsFresh(args[1]);
    }
  }

  lemma AbandonedIsNamed(c: Client, e: Event)
    ensures Abandons(c, e) ==> !c.connected && Displaces(Some(c.current), e)
  {}

  lemma ClientFollows(c: Client, e: Event, now: int)
    requires IsServerMessage(e)
    requires !Abandons(c, e)
    ensures Follow(Some(c.current), e) == Some(Step(c, e, now).current)
    ensures c.connected || e.Welcome? ==> Step(c, e, now).connected
  {
    hide Alternative, NickEqual, Concerns, ErrorText;
    if e.Rejected? {
      RejectionDisplacesIff(c, e.code, e.args, now);
    }
  }

  lemma LocalKeepsNick(c: Client, e: Event, now: int)
    requires e.UserNick? || IsLapse(e) || e.StatusQuery? || e.RegistrationClaimed?
    ensures Step(c, e, now).current == c.current
    ensures c.connected && !IsLapse(e) ==> Step(c, e, now).connected
  {
    hide NickEqual;
  }

  lemma NewMessage(w: World, e: Event, r: Regime)
    requires Invariant(w, r) && IsServerMessage(e)
    requires r.PoliteServer? ==> !Displaces(w.me, e)
    ensures Track(Seen(w), w.inbox + [e]) == Follow(w.me, e)
    ensures forall x | x in w.inbox + [e] :: IsServerMessage(x)
    ensures r.PoliteServer? ==> Polite(Seen(w), w.inbox + [e])
  {
    hide Follow, Displaces;
    TrackAppend(Seen(w), w.inbox, e);
  }

  lemma DeliverKeeps(w: World, now: int, r: Regime)
    requires Invariant(w, r) && Allowed(w, Deliver) && Disciplined(w, Deliver, r)
    ensures Invariant(Play(w, Deliver, now), r)
  {
    hide Step, Sent, Follow, NickEqual, Recovers;
    var e := w.inbox[0];
    assert e in w.inbox;
    var w' := Play(w, Deliver, now);
    if w.heard {
      AbandonedIsNamed(w.client, e);
      ClientFollows(w.client, e, now);
    } else {
      FirstWelcome(w.client, e, now);
    }
    assert Seen(w') == Follow(Seen(w), e);
  }

  lemma FirstWelcome(c: Client, e: Event, now: int)
    requires IsServerMessage(e)
    ensures Follow(None, e) == if e.Welcome? then Some(Step(c, e, now).current) else None
    ensures e.Welcome? ==> Step(c, e, now).connected
  {}

  lemma ServerMoveKeeps(w: World, m: Move, now: int, r: Regime)
    requires Invariant(w, r) && Allowed(w, m) && Disciplined(w, m, r)
    requires m.Accept? || m.Refuse? || m.Register? || m.Force? || m.OtherRenames? || m.Say?
    ensures Invariant(Play(w, m, now), r)
  {
    hide NickEqual, Step, Sent;
    match m {
      case Accept =>
        SameNick(w.me.value);
        NewMessage(w, NickChange(w.me.value, w.outbox[0]), r);
      case Refuse(reply) => NewMessage(w, reply, r);
      case Register(n) => NewMessage(w, Welcome(n), r);
      case Force(n) =>
        SameNick(w.me.value);
        NewMessage(w, NickChange(w.me.value, n), r);
      case OtherRenames(a, b) => NewMessage(w, NickChange(a, b), r);
      case Say(e) => NewMessage(w, e, r);
    }
  }

  lemma MoveKeeps(w: World, m: Move, now: int, r: Regime)
    requires Invariant(w, r) && Allowed(w, m) && Disciplined(w, m, r)
    ensures Invariant(Play(w, m, now), r)
  {
    hide NickEqual, Step, Sent, Track, Polite;
    match m {
      case Deliver => DeliverKeeps(w, now, r);
      case Call(n) => LocalKeepsNick(w.client, UserNick(n), now);
      case Local(e) => LocalKeepsNick(w.client, e, now);
      case Reopen => EmptyInbox(w, now, r);
      case Write(_) =>
      case WriteClaim(_) =>
      case DropClaim(_) =>
      case Swallow =>
      case OtherTakes(_) =>
      case OtherLeaves(_) =>
      case _ => ServerMoveKeeps(w, m, now, r);
    }
  }

  lemma EmptyInbox(w: World, now: int, r: Regime)
    ensures Invariant(Play(w, Reopen, now), r)
  {}

  lemma {:induction false} RunKeeps(w: World, run: seq<Tick>, r: Regime)
    requires Invariant(w, r) && Runs(w, run) && AllDisciplined(w, run, r)
    ensures Invariant(Final(w, run), r)
    decreases |run|
  {
    hide Play, Allowed, Disciplined, Invariant;
    if run != [] {
      MoveKeeps(w, run[0].move, run[0].now, r);
      RunKeeps(Play(w, run[0].move, run[0].now), run[1..], r);
    }
  }

  lemma {:induction false} ReplayFollows(c: Client, heard: bool, inbox: seq<Event>, now: int, r: Regime)
    requires forall e | e in inbox :: IsServerMessage(e)
    requires r.PoliteServer? ==> Polite(Belief(c, heard), inbox)
    requires !r.PoliteServer? && heard ==> c.connected
    ensures Track(Belief(c, heard), inbox).Some? ==>
      Track(Belief(c, heard), inbox) == Some(Replay(c, inbox, now).current)
    decreases |inbox|
  {
    hide Step, Follow, NickEqual, Recovers;
    if inbox != [] {
      var e := inbox[0];
      assert e in inbox;
      if heard {
        AbandonedIsNamed(c, e);
        ClientFollows(c, e, now);
      } else {
        FirstWelcome(c, e, now);
      }
      ReplayFollows(Step(c, e, now), heard || e.Welcome?, inbox[1..], now, r);
    }
  }

  /** Agreement.  In every run of user calls, deliveries, grants, refusals, forced renames and other
      users' renames, in any interleaving: once the server has registered us, replaying the messages
      in flight on the client's state gives exactly the server's nick for us; so whenever the
      inbound queue is empty, the client's current nick is the server's. */
  lemma Agreement(c: Client, others: set<string>, run: seq<Tick>, r: Regime, now: int)
    requires Runs(Start(c, others), run) && AllDisciplined(Start(c, others), run, r)
    ensures var w := Final(Start(c, others), run);
      && (w.me.Some? && !r.NoDisplacement? ==> Replay(w.client, w.inbox, now).current == w.me.value)
      && (w.me.Some? && w.inbox == [] ==> w.client.current == w.me.value)
  {
    hide Step, Play, Allowed, Disciplined;
    var w0 := Start(c, others);
    assert Invariant(w0, r);
    RunKeeps(w0, run, r);
    var w := Final(w0, run);
    if !r.NoDisplacement? {
      ReplayFollows(w.client, w.heard, w.inbox, now, r);
    }
  }

  /** The guard is exact: as long as no delivery displaced the client, handling the last message in
      flight keeps the agreement if and only if it does not displace the client either. */
  lemma LastDeliveryAgreesIff(c: Client, others: set<string>, run: seq<Tick>, now: int)
    requires Runs(Start(c, others), run) && AllDisciplined(Start(c, others), run, NoDisplacement)
    requires var w := Final(Start(c, others), run); w.heard && w.me.Some? && |w.inbox| == 1
    ensures var w := Final(Start(c, others), run);
      Play(w, Deliver, now).client.current == w.me.value <==> !Displaced(w)
  {
    hide Step, Recovers, NickEqual, Runs, Final, AllDisciplined;
    RunKeeps(Start(c, others), run, NoDisplacement);
    var w := Final(Start(c, others), run);
    var e := w.inbox[0];
    assert e in w.inbox && w.inbox[1..] == [];
    assert Track(Seen(w), w.inbox) == Follow(Seen(w), e);
    if e.Rejected? {
      RejectionDisplacesIff(w.client, e.code, e.args, now);
    } else {
      ClientFollows(w.client, e, now);
    }
  }

  /** Only server messages are ever in flight towards the client. */
  lemma OnlyServerMessages(c: Client, others: set<string>, run: seq<Tick>, r: Regime)
    requires Runs(Start(c, others), run) && AllDisciplined(Start(c, others), run, r)
    ensures forall e | e in Final(Start(c, others), run).inbox :: IsServerMessage(e)
  {
    hide Runs, Final, AllDisciplined;
    RunKeeps(Start(c, others), run, r);
  }

  // ---- The discipline is needed ----------------------------------------------------------

  lemma FirstMove(w: World, t: Tick, rest: seq<Tick>)
    requires Allowed(w, t.move) && Runs(Play(w, t.move, t.now), rest)
    ensures Runs(w, [t] + rest) && Final(w, [t] + rest) == Final(Play(w, t.move, t.now), rest)
  {
    hide Allowed, Play;
    assert ([t] + rest)[1..] == rest;
  }

  lemma EmptyRun(w: World)
    ensures Runs(w, []) && Final(w, []) == w
  {}

  /** A client registers its nick and asks for another one, whose line reaches the server. */
  function AskingRun(nick: string, other: string, now: int): seq<Tick> {
    [Tick(Register(nick), now), Tick(Deliver, now), Tick(Call(other), now), Tick(Write(0), now)]
  }

  function Settled(nick: string, now: int): World {
    World(Step(Initial(nick, now), Welcome(nick), now), [], [], [], [], true, Some(nick), {})
  }

  function Asked(nick: string, other: string, now: int): World {
    var w := Settled(nick, now);
    w.(client := Step(w.client, UserNick(other), now), outbox := [other])
  }

  lemma RegisteringReaches(nick: string, now: int, tail: seq<Tick>)
    requires nick != "" && Runs(Settled(nick, now), tail)
    ensures var w0 := Start(Initial(nick, now), {});
      var run := [Tick(Register(nick), now)] + ([Tick(Deliver, now)] + tail);
      Runs(w0, run) && Final(w0, run) == Final(Settled(nick, now), tail)
  {
    hide Runs, Final, Step;
    var w0 := Start(Initial(nick, now), {});
    var w1 := Play(w0, Register(nick), now);
    assert w1.inbox == [Welcome(nick)];
    assert Play(w1, Deliver, now) == Settled(nick, now);
    FirstMove(w1, Tick(Deliver, now), tail);
    FirstMove(w0, Tick(Register(nick), now), [Tick(Deliver, now)] + tail);
  }

  lemma AskingSends(nick: string, other: string, now: int)
    requires !NickEqual(nick, other)
    ensures Sent(Settled(nick, now).client, UserNick(other), now) == Some(other)
  {
    hide NickEqual;
  }

  lemma AskingReaches(nick: string, other: string, now: int, tail: seq<Tick>)
    requires nick != "" && !NickEqual(nick, other) && Runs(Asked(nick, other, now), tail)
    ensures var w0 := Start(Initial(nick, now), {}); var run := AskingRun(nick, other, now) + tail;
      Runs(w0, run) && Final(w0, run) == Final(Asked(nick, other, now), tail)
  {
    hide NickEqual, Runs, Final, Step, Sent;
    var run := AskingRun(nick, other, now);
    var w2 := Settled(nick, now);
    AskingSends(nick, other, now);
    var w3 := Play(w2, Call(other), now);
    assert w3.unsent == [other];
    assert Play(w3, Write(0), now) == Asked(nick, other, now);
    FirstMove(w3, run[3], tail);
    FirstMove(w2, run[2], [run[3]] + tail);
    RegisteringReaches(nick, now, [run[2]] + ([run[3]] + tail));
    assert run + tail == [run[0]] + ([run[1]] + ([run[2]] + ([run[3]] + tail)));
  }

  /** Then a validation fails and the server calls the nick the client holds erroneous. */
  function ImpoliteTail(nick: string, now: int): seq<Tick> {
    [Tick(Local(ValidationFailed), now), Tick(Refuse(Rejected(Erroneous, [nick, nick])), now), Tick(Deliver, now)]
  }

  /** For every nick such a run ends in disagreement, with no message in flight. */
  lemma ImpoliteLapseDisagrees(nick: string, other: string, now: int)
    requires nick != "" && !NickEqual(nick, other)
    ensures var w0 := Start(Initial(nick, now), {});
      var run := AskingRun(nick, other, now) + ImpoliteTail(nick, now);
      && Runs(w0, run)
      && Final(w0, run).me == Some(nick) && Final(w0, run).inbox == []
      && Final(w0, run).client.current != nick
  {
    hide NickEqual, Alternative, ErrorText, Runs, Final;
    var tail := ImpoliteTail(nick, now);
    var w4 := Asked(nick, other, now);
    var w5 := Play(w4, tail[0].move, now);
    var w6 := Play(w5, tail[1].move, now);
    assert w6.inbox == [Rejected(Erroneous, [nick, nick])];
    SameNick(nick);
    RejectionDisplacesIff(w6.client, Erroneous, [nick, nick], now);
    EmptyRun(Play(w6, Deliver, now));
    FirstMove(w6, tail[2], []);
    FirstMove(w5, tail[1], [tail[2]] + []);
    FirstMove(w4, tail[0], [tail[1]] + ([tail[2]] + []));
    assert tail == [tail[0]] + ([tail[1]] + ([tail[2]] + []));
    AskingReaches(nick, other, now, tail);
  }
}
