/** What is left pending once everything has been answered.

The in-progress flag is up only while a NICK line or its answer is under way, unless the client handles
a rejection that it neither gives up on nor recovers from.  That can happen only with recovery on. */
module NickQuiescence {
  import opened Text
  import opened NickRules
  import opened NickClient
  import opened NickAgreement

  /** A message that settles a change when the client, holding the nick `view`, handles it. */
  predicate IsAnswer(view: Option<string>, e: Event) {
    || IsErrorReply(e)
    || (e.NickChange? && view.Some? && NickEqual(e.who, view.value) && e.to != "")
  }

  predicate HasAnswer(view: Option<string>, inbox: seq<Event>)
    decreases |inbox|
  {
    inbox != [] && (IsAnswer(view, inbox[0]) || HasAnswer(Follow(view, inbox[0]), inbox[1..]))
  }

  lemma {:induction false} AnswerAppend(view: Option<string>, inbox: seq<Event>, e: Event)
    ensures HasAnswer(view, inbox + [e]) <==> HasAnswer(view, inbox) || IsAnswer(Track(view, inbox), e)
    decreases |inbox|
  {
    hide IsAnswer, Follow;
    if inbox == [] {
      assert (inbox + [e])[1..] == [];
    } else {
      AnswerAppend(Follow(view, inbox[0]), inbox[1..], e);
      assert (inbox + [e])[1..] == inbox[1..] + [e];
    }
  }

  /** A NICK line or an answer to one is under way. */
  predicate Outstanding(w: World) {
    w.unsent != [] || w.outbox != [] || HasAnswer(Seen(w), w.inbox)
  }

  /** The server answers every line of a registered client, and the user never asks for the empty
      nick. */
  predicate Answered(w: World, m: Move) {
    match m
    case Call(n) => n != ""
    case Swallow => w.me.None?
    case Local(e) => e.RegistrationClaimed? ==> !w.heard
    case _ => true
  }

  /** Every move of the run is answered in that sense. */
  ghost predicate AllAnswered(w: World, run: seq<Tick>)
    requires Runs(w, run)
    decreases |run|
  {
    run == [] ||
    (Answered(w, run[0].move) && AllAnswered(Play(w, run[0].move, run[0].now), run[1..]))
  }

  /** A rejection during a change that the handler neither gives up on nor answers with an
      alternative: it concerns a nick the user has meanwhile replaced. */
  predicate Stalls(c: Client, e: Event) {
    e.Rejected? && c.changing && !RecoveryOff(c) && !Recovers(c, e.code, e.args)
  }

  /** The next delivery stalls the change and leaves nothing under way that could end it. */
  predicate StallsQuietly(w: World, now: int) {
    w.heard && w.inbox != [] && Stalls(w.client, w.inbox[0]) && !Outstanding(Play(w, Deliver, now))
  }

  ghost predicate NeverStalls(w: World, run: seq<Tick>)
    requires Runs(w, run)
    decreases |run|
  {
    run == [] ||
    (&& (run[0].move.Deliver? ==> !StallsQuietly(w, run[0].now))
     && NeverStalls(Play(w, run[0].move, run[0].now), run[1..]))
  }

  predicate AtRest(c: Client) {
    !c.changing && c.pending == "" && NickEqual(c.desired, c.current)
  }

  ghost predicate Tidy(w: World) {
    && Invariant(w, SteadyConnection)
    && (forall e | e in w.inbox && e.Welcome? :: e.nick != "")
    && (w.heard ==> w.client.current != "" && w.client.desired != "")
    && (w.heard ==> AtRest(w.client) || (w.client.changing && Outstanding(w)))
  }

  // ---- The client's steps ---------------------------------------------------------------------

  lemma AnswerSettles(c: Client, e: Event, now: int)
    requires c.connected && c.current != "" && c.desired != "" && IsServerMessage(e)
    requires IsAnswer(Some(c.current), e) && (AtRest(c) || c.changing) && !Stalls(c, e)
    ensures var c' := Step(c, e, now);
      && c'.current != "" && c'.desired != ""
      && (AtRest(c') || (c'.changing && Sent(c, e, now).Some?))
  {
    hide Alternative, ErrorText, NickEqual;
    SameNick(c.current);
    if e.NickChange? { SameNick(e.to); }
    if e.Rejected? && |e.args| > 1 { NonemptyAlternative(e.args[1]); }
  }

  lemma NonemptyAlternative(nick: string)
    ensures Alternative(nick) != ""
  {
    ValidAlternative(nick);
  }

  lemma StalledKeeps(c: Client, e: Event, now: int)
    requires Stalls(c, e)
    ensures var c' := Step(c, e, now);
      && c'.desired == c.desired && c'.current == c.current && c'.changing && Sent(c, e, now) == None
  {
    hide NickEqual, Alternative, ErrorText;
  }

  lemma OtherMessageKeeps(c: Client, e: Event, now: int)
    requires IsServerMessage(e) && !e.Welcome? && !IsAnswer(Some(c.current), e)
    ensures var c' := Step(c, e, now);
      && c'.desired == c.desired && c'.current == c.current && c'.pending == c.pending && c'.changing == c.changing
      && Sent(c, e, now) == None && Follow(Some(c.current), e) == Some(c.current)
  {
    hide NickEqual;
  }

  lemma WelcomeSettles(c: Client, n: string, now: int)
    requires n != ""
    ensures var c' := Step(c, Welcome(n), now); AtRest(c') && c'.current != "" && c'.desired != ""
  {
    SameNick(n);
  }

  lemma CallKeeps(c: Client, n: string, now: int)
    requires n != ""
    ensures var c' := Step(c, UserNick(n), now);
      && c'.desired != "" && c'.current == c.current
      && (AtRest(c') || (c'.changing && (c.changing || Sent(c, UserNick(n), now).Some?)))
  {}

  // ---- The moves --------------------------------------------------------------------------------

  /** A delivery keeps the books in order if and only if it does not stall the change for good. */
  lemma DeliverTidyIff(w: World, now: int)
    requires Tidy(w) && Allowed(w, Deliver)
    ensures Tidy(Play(w, Deliver, now)) <==> !StallsQuietly(w, now)
  {
    hide Step, Sent, IsAnswer, Follow, NickEqual, Track, Polite, Displaces, Stalls, Abandons;
    SteadyIsHarmless(w);
    DeliverKeeps(w, now, SteadyConnection);
    var e := w.inbox[0];
    assert e in w.inbox;
    var w' := Play(w, Deliver, now);
    assert forall x | x in w'.inbox :: x in w.inbox;
    if e.Welcome? {
      WelcomeSettles(w.client, e.nick, now);
      WelcomeStallsNot(w.client, e);
    } else if w.heard {
      if Stalls(w.client, e) {
        StalledKeeps(w.client, e, now);
      } else if IsAnswer(Some(w.client.current), e) {
        AnswerSettles(w.client, e, now);
      } else {
        OtherMessageKeeps(w.client, e, now);
        StillAtRest(w.client, w'.client);
      }
    }
  }

  lemma SteadyIsHarmless(w: World)
    ensures Disciplined(w, Deliver, SteadyConnection)
  {}

  lemma WelcomeStallsNot(c: Client, e: Event)
    requires e.Welcome?
    ensures !Stalls(c, e)
  {}

  lemma StillAtRest(c: Client, c': Client)
    requires c'.desired == c.desired && c'.current == c.current && c'.pending == c.pending && c'.changing == c.changing
    ensures AtRest(c) <==> AtRest(c')
  {}

  lemma NewMessageKeepsAnswer(w: World, e: Event)
    requires Invariant(w, SteadyConnection)
    ensures HasAnswer(Seen(w), w.inbox) || IsAnswer(w.me, e) ==> HasAnswer(Seen(w), w.inbox + [e])
  {
    hide IsAnswer, Follow;
    AnswerAppend(Seen(w), w.inbox, e);
  }

  lemma ServerMoveTidy(w: World, m: Move, now: int)
    requires Tidy(w) && Allowed(w, m) && Disciplined(w, m, SteadyConnection) && Answered(w, m)
    requires m.Accept? || m.Refuse? || m.Register? || m.Force? || m.OtherRenames? || m.Say?
    ensures Tidy(Play(w, m, now))
  {
    hide Step, Sent, AtRest, HasAnswer, Invariant, Taken, NickEqual;
    ServerMoveKeeps(w, m, now, SteadyConnection);
    match m {
      case Accept =>
        SameNick(w.me.value);
        NewMessageKeepsAnswer(w, NickChange(w.me.value, w.outbox[0]));
      case Refuse(reply) => NewMessageKeepsAnswer(w, reply);
      case Register(n) => NewMessageKeepsAnswer(w, Welcome(n));
      case Force(n) => NewMessageKeepsAnswer(w, NickChange(w.me.value, n));
      case OtherRenames(a, b) => NewMessageKeepsAnswer(w, NickChange(a, b));
      case Say(e) => NewMessageKeepsAnswer(w, e);
    }
  }

  lemma LocalTidy(w: World, m: Move, now: int)
    requires Tidy(w) && Allowed(w, m) && Disciplined(w, m, SteadyConnection) && Answered(w, m)
    requires m.Call? || m.Local?
    ensures Tidy(Play(w, m, now))
  {
    hide Invariant, HasAnswer, NickEqual, Allowed, Step, Sent;
    MoveKeeps(w, m, now, SteadyConnection);
    if m.Call? {
      LocalKeepsNick(w.client, UserNick(m.wanted), now);
      CallKeeps(w.client, m.wanted, now);
    } else {
      if w.heard {
        QuietLocal(w, m, now);
        StillAtRest(w.client, Play(w, m, now).client);
      }
    }
  }

  lemma QuietLocal(w: World, m: Move, now: int)
    requires m.Local? && Allowed(w, m) && Disciplined(w, m, SteadyConnection) && Answered(w, m) && w.heard
    ensures var c := w.client; var c' := Play(w, m, now).client;
      c'.desired == c.desired && c'.current == c.current && c'.pending == c.pending && c'.changing == c.changing
  {}

  lemma MoveTidy(w: World, m: Move, now: int)
    requires Tidy(w) && Allowed(w, m) && Disciplined(w, m, SteadyConnection) && Answered(w, m)
    requires m.Deliver? ==> !StallsQuietly(w, now)
    ensures Tidy(Play(w, m, now))
  {
    hide Step, Sent, AtRest, HasAnswer, Invariant, StallsQuietly;
    match m {
      case Deliver => DeliverTidyIff(w, now);
      case Call(_) => LocalTidy(w, m, now);
      case Local(_) => LocalTidy(w, m, now);
      case Write(_) => MoveKeeps(w, m, now, SteadyConnection);
      case WriteClaim(_) => MoveKeeps(w, m, now, SteadyConnection);
      case DropClaim(_) => MoveKeeps(w, m, now, SteadyConnection);
      case Swallow =>
        MoveKeeps(w, m, now, SteadyConnection);
        UnregisteredUnheard(w);
      case Reopen =>
        MoveKeeps(w, m, now, SteadyConnection);
      case OtherTakes(_) => MoveKeeps(w, m, now, SteadyConnection);
      case OtherLeaves(_) => MoveKeeps(w, m, now, SteadyConnection);
      case _ => ServerMoveTidy(w, m, now);
    }
  }

  lemma {:induction false} TrackSome(view: Option<string>, inbox: seq<Event>)
    requires view.Some?
    ensures Track(view, inbox).Some?
    decreases |inbox|
  {
    if inbox != [] {
      TrackSome(Follow(view, inbox[0]), inbox[1..]);
    }
  }

  lemma UnregisteredUnheard(w: World)
    requires Invariant(w, SteadyConnection) && w.me.None?
    ensures !w.heard
  {
    hide Track;
    if w.heard {
      TrackSome(Seen(w), w.inbox);
    }
  }

  /** The connection stays up after 001 and the server answers. */
  ghost predicate Orderly(w: World, run: seq<Tick>) {
    Runs(w, run) && AllDisciplined(w, run, SteadyConnection) && AllAnswered(w, run)
  }

  lemma {:induction false} RunTidy(w: World, run: seq<Tick>)
    requires Tidy(w) && Orderly(w, run) && NeverStalls(w, run)
    ensures Tidy(Final(w, run))
    decreases |run|
  {
    hide Play, Allowed, Disciplined, Answered, Tidy, StallsQuietly;
    if run != [] {
      MoveTidy(w, run[0].move, run[0].now);
      RunTidy(Play(w, run[0].move, run[0].now), run[1..]);
    }
  }

  predicate NothingUnderWay(w: World) {
    w.unsent == [] && w.outbox == [] && w.inbox == []
  }

  /** Quiescence, with recovery on or off: in every orderly run in which no delivery stalls the change
      for good, once no line and no message is under way, no change is in progress, none is pending,
      the desired nick is the current one and that is the server's. */
  lemma NothingLeftPending(c: Client, others: set<string>, run: seq<Tick>)
    requires Orderly(Start(c, others), run) && NeverStalls(Start(c, others), run)
    ensures var w := Final(Start(c, others), run);
      w.me.Some? && NothingUnderWay(w) ==> AtRest(w.client) && w.client.current == w.me.value
  {
    hide Play, Allowed, Disciplined, Answered, NickEqual, StallsQuietly, AllAnswered, AllDisciplined, NeverStalls;
    var w0 := Start(c, others);
    assert Tidy(w0);
    RunTidy(w0, run);
  }

  /** The condition is exact: the delivery after which nothing is under way leaves the client at rest
      if and only if it does not stall. */
  lemma LastAnswerSettlesIff(c: Client, others: set<string>, run: seq<Tick>, now: int)
    requires Orderly(Start(c, others), run) && NeverStalls(Start(c, others), run)
    requires var w := Final(Start(c, others), run);
      w.heard && Allowed(w, Deliver) && NothingUnderWay(Play(w, Deliver, now))
    ensures var w := Final(Start(c, others), run);
      AtRest(Play(w, Deliver, now).client) <==> !Stalls(w.client, w.inbox[0])
  {
    hide Play, Disciplined, Answered, NickEqual, Stalls, AllAnswered, AllDisciplined, NeverStalls, Invariant;
    var w0 := Start(c, others);
    StartTidy(c, others);
    RunTidy(w0, run);
    var w := Final(w0, run);
    DeliverTidyIff(w, now);
    DeliverHeard(w, now);
    if Stalls(w.client, w.inbox[0]) {
      StalledFlag(w, now);
    }
  }

  lemma StartTidy(c: Client, others: set<string>)
    ensures Tidy(Start(c, others))
  {}

  lemma DeliverHeard(w: World, now: int)
    requires w.heard && Allowed(w, Deliver)
    ensures Play(w, Deliver, now).heard
  {}

  lemma StalledFlag(w: World, now: int)
    requires Allowed(w, Deliver) && Stalls(w.client, w.inbox[0])
    ensures Play(w, Deliver, now).client.changing
  {
    hide Step, Sent, Stalls;
    StalledKeeps(w.client, w.inbox[0], now);
  }

  // ---- Recovery off -----------------------------------------------------------------------------

  lemma OffNeverStalls(w: World, now: int)
    requires Invariant(w, SteadyConnection) && !w.client.autoRecovery
    ensures !StallsQuietly(w, now)
  {}

  lemma RecoverySettingStays(w: World, m: Move, now: int)
    requires Allowed(w, m)
    ensures Play(w, m, now).client.autoRecovery == w.client.autoRecovery
  {
    hide Step, Sent;
    match m {
      case Deliver => SettingStep(w.client, w.inbox[0], now);
      case Call(n) => SettingStep(w.client, UserNick(n), now);
      case Local(e) => SettingStep(w.client, e, now);
      case Reopen => SettingStep(w.client, Reset, now);
      case _ =>
    }
  }

  lemma {:induction false} OffRunNeverStalls(w: World, run: seq<Tick>)
    requires Invariant(w, SteadyConnection) && !w.client.autoRecovery && Runs(w, run)
    requires AllDisciplined(w, run, SteadyConnection)
    ensures NeverStalls(w, run)
    decreases |run|
  {
    hide Play, Allowed, Disciplined, Invariant, StallsQuietly;
    if run != [] {
      OffNeverStalls(w, run[0].now);
      MoveKeeps(w, run[0].move, run[0].now, SteadyConnection);
      RecoverySettingStays(w, run[0].move, run[0].now);
      OffRunNeverStalls(Play(w, run[0].move, run[0].now), run[1..]);
    }
  }

  /** With recovery off the proviso about stalling always holds. */
  lemma NothingLeftPendingRecoveryOff(c: Client, others: set<string>, run: seq<Tick>)
    requires !c.autoRecovery && Orderly(Start(c, others), run)
    ensures var w := Final(Start(c, others), run);
      w.me.Some? && NothingUnderWay(w) ==> AtRest(w.client) && w.client.current == w.me.value
  {
    hide AtRest, NothingUnderWay, NeverStalls, AllAnswered, AllDisciplined, Runs, Final;
    StartTidy(c, others);
    OffRunNeverStalls(Start(c, others), run);
    NothingLeftPending(c, others, run);
  }

  // ---- Recovery on --------------------------------------------------------------------------------

  function StallTail(nick: string, a: string, b: string, now: int): seq<Tick> {
    [Tick(Call(b), now), Tick(Refuse(Rejected(InUse, [nick, a])), now), Tick(Deliver, now)]
  }

  /** For all nicks: a new client, with recovery on by default, registers, asks for a, asks for b before
      the answer, and the server refuses a.  Nothing is under way any more, yet the change to b counts
      as in progress and no line asks for b. */
  lemma RejectionLeavesFlag(nick: string, a: string, b: string, now: int)
    requires nick != "" && !NickEqual(nick, a) && !NickEqual(a, b)
    ensures var w0 := Start(Initial(nick, now), {});
      var run := AskingRun(nick, a, now) + StallTail(nick, a, b, now);
      && Runs(w0, run)
      && var w := Final(w0, run);
      && w.me == Some(nick) && NothingUnderWay(w)
      && w.client.changing && w.client.pending == b && w.client.desired == b
  {
    hide NickEqual, Alternative, ErrorText, Runs, Final;
    var tail := StallTail(nick, a, b, now);
    var w4 := Asked(nick, a, now);
    var w5 := Play(w4, tail[0].move, now);
    var w6 := Play(w5, tail[1].move, now);
    assert w6.inbox == [Rejected(InUse, [nick, a])];
    EmptyRun(Play(w6, Deliver, now));
    FirstMove(w6, tail[2], []);
    FirstMove(w5, tail[1], [tail[2]] + []);
    FirstMove(w4, tail[0], [tail[1]] + ([tail[2]] + []));
    assert tail == [tail[0]] + ([tail[1]] + ([tail[2]] + []));
    AskingReaches(nick, a, now, tail);
  }
}
