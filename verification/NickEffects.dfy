/** What the handlers do to the wishes of the user and to what the user is told.

The statements speak of the steps, the lines sent and the status reported, over whole runs where that
matters, and not of how a handler computes them. */
module NickEffects {
  import opened Text
  import opened NickRules
  import opened NickClient

  // ---- Rejections --------------------------------------------------------------------------

  /** A rejection is answered exactly if recovery is allowed and it names a nick we try to get, or, for an
      erroneous nick, the one we hold.  The answer is a valid nick that is not the refused one in any
      spelling, and it becomes pending.  Only 432 gives up the desired nick, for the one sent. */
  lemma RejectionAnswered(c: Client, code: NickError, args: seq<string>, now: int)
    ensures var e := Rejected(code, args); var c' := Step(c, e, now); var sent := Sent(c, e, now);
      && (sent.Some? <==>
            && (c.connected ==> c.autoRecovery) && |args| > 1
            && (|| NickEqual(args[1], c.desired) || NickEqual(args[1], c.pending)
                || (code == Erroneous && NickEqual(args[1], c.current))))
      && (sent.Some? ==>
            && ValidNick(sent.value) && !NickEqual(sent.value, args[1])
            && c'.pending == sent.value && c'.changing && c'.changedAt == now
            && c'.desired == (if code == Erroneous then sent.value else c.desired)
            && c'.current == (if !c.connected && NickEqual(args[1], c.current) then sent.value else c.current))
  {
    hide NickEqual, Alternative, ErrorText, ValidNick;
    if |args| > 1 {
      AlternativeIsFresh(args[1]);
      EqualBothWays(args[1], c.current);
    }
  }

  lemma EqualBothWays(a: string, b: string)
    ensures NickEqual(a, b) <==> NickEqual(b, a)
  {}

  /** A rejection that is not answered changes no nick while recovery is allowed; otherwise it ends the
      change, as 484 does, and the desired nick falls back to the one we hold, if we hold one. */
  lemma RejectionUnanswered(c: Client, e: Event, now: int)
    requires (e.Rejected? && Sent(c, e, now) == None) || e.Restricted?
    ensures var c' := Step(c, e, now);
      && c'.current == c.current && c'.connected == c.connected && Sent(c, e, now) == None
      && if e.Rejected? && (c.connected ==> c.autoRecovery)
         then c'.desired == c.desired && c'.pending == c.pending && c'.changing == c.changing
         else
           && c'.pending == "" && !c'.changing
           && c'.desired == if c.current == "" then c.desired else c.current
  {
    hide NickEqual, Alternative, ErrorText;
  }

  /** Events by which neither the user nor the server settles on a nick. */
  predicate Unsettled(e: Event) {
    !e.UserNick? && !e.Welcome? && !e.NickChange? && !e.Restricted? && !(e.Rejected? && e.code == Erroneous)
  }

  lemma WishStep(c: Client, e: Event, now: int)
    requires c.autoRecovery && Unsettled(e)
    ensures Step(c, e, now).desired == c.desired
  {
    hide NickEqual, Alternative, ErrorText;
  }

  /** No chain of 433, 436 and 437, amid any resets, lapses, queries and other numerics, makes the client
      forget the nick the user asked for, however many alternatives it tries; a 431 asks for it again. */
  lemma {:induction false} WishSurvives(c: Client, run: seq<Timed>, now: int)
    requires c.autoRecovery && forall t | t in run :: Unsettled(t.event)
    ensures After(c, run).desired == c.desired
    ensures Sent(After(c, run), NoNickGiven, now) == if c.desired == "" then None else Some(c.desired)
  {
    hide Step, Unsettled;
    if run != [] {
      var last, before := run[|run| - 1], run[..|run| - 1];
      assert last in run;
      WishSurvives(c, before, now);
      RecoverySettingKept(c, before);
      WishStep(After(c, before), last.event, last.now);
    }
  }

  /** A 431 asks for the desired nick, and the change to it is then under way. */
  lemma NoNickGivenAsksAgain(c: Client, now: int)
    ensures var c' := Step(c, NoNickGiven, now);
      && Sent(c, NoNickGiven, now) == (if c.desired == "" then None else Some(c.desired))
      && (c.desired != "" ==> c'.pending == c.desired && c'.changing && c'.changedAt == now)
      && c'.desired == c.desired && c'.current == c.current
  {}

  /** After an answered 432 the desired nick is valid and not the refused one, and stays so: a 431 later in
      such a chain sends that nick. */
  lemma ErroneousReplaced(c: Client, args: seq<string>, at: int, run: seq<Timed>, now: int)
    requires c.autoRecovery && Sent(c, Rejected(Erroneous, args), at).Some?
    requires forall t | t in run :: Unsettled(t.event)
    ensures var c' := After(Step(c, Rejected(Erroneous, args), at), run);
      && ValidNick(c'.desired) && |args| > 1 && !NickEqual(c'.desired, args[1])
      && Sent(c', NoNickGiven, now) == Some(c'.desired)
  {
    hide Step, Sent, After, NickEqual, Unsettled;
    RejectionAnswered(c, Erroneous, args, at);
    SettingStep(c, Rejected(Erroneous, args), at);
    WishSurvives(Step(c, Rejected(Erroneous, args), at), run, now);
  }

  /** A refused registration: before 001 a rejection of the claimed nick is answered whatever the recovery
      setting, and a 001 for the answer settles everything on it. */
  lemma RefusedRegistration(c: Client, code: NickError, args: seq<string>, now: int)
    requires !c.connected && |args| > 1 && NickEqual(args[1], c.desired)
    ensures var claimed := Step(c, RegistrationClaimed, now); var e := Rejected(code, args);
      && claimed.pending == claimed.desired == c.desired && claimed.current == c.current
      && Sent(claimed, e, now).Some?
      && var n := Sent(claimed, e, now).value;
      && ValidNick(n)
      && StatusOf(Step(Step(claimed, e, now), Welcome(n), now), now) == NickStatus(n, n, true, now, false, "")
  {
    hide NickEqual, Alternative, ErrorText, ValidNick;
    var claimed := Step(c, RegistrationClaimed, now);
    RejectionAnswered(claimed, code, args, now);
    SameNick(Sent(claimed, Rejected(code, args), now).value);
  }

  // ---- Nick() is not held up for ever --------------------------------------------------------

  lemma ChangeTime(c: Client, e: Event, now: int, bound: int)
    requires now <= bound && (c.changing ==> c.changedAt <= bound)
    ensures Step(c, e, now).changing ==> Step(c, e, now).changedAt <= bound
  {
    hide NickEqual, Alternative, ErrorText;
  }

  lemma {:induction false} ChangeTimes(c: Client, run: seq<Timed>, bound: int)
    requires !c.changing && forall t | t in run :: t.now <= bound
    ensures After(c, run).changing ==> After(c, run).changedAt <= bound
  {
    hide Step;
    if run != [] {
      var last, before := run[|run| - 1], run[..|run| - 1];
      assert last in run;
      ChangeTimes(c, before, bound);
      ChangeTime(After(c, before), last.event, last.now, bound);
    }
  }

  /** Whatever happened, once nothing has happened for 30 seconds a call of Nick() is not held back: it
      sends exactly if the nick is not the current one in another spelling. */
  lemma NickUnblocked(c: Client, run: seq<Timed>, n: string, now: int)
    requires !c.changing && forall t | t in run :: t.now <= now - 30 * 1_000_000_000
    ensures Sent(After(c, run), UserNick(n), now) ==
      if NickEqual(n, After(c, run).current) then None else Some(n)
    ensures var c' := Step(After(c, run), UserNick(n), now); var sent := Sent(After(c, run), UserNick(n), now).Some?;
      && c'.desired == n && c'.current == After(c, run).current && c'.changing == sent
      && c'.pending == (if sent then n else "") && (sent ==> c'.changedAt == now)
  {
    hide NickEqual, After;
    ChangeTimes(c, run, now - 30 * 1_000_000_000);
    EqualBothWays(n, After(c, run).current);
  }

  /** ... and a call less than 30 seconds after the one that sent only records the wish. */
  lemma NickHeldBack(c: Client, a: string, b: string, at: int, now: int)
    requires Sent(c, UserNick(a), at).Some? && at <= now < at + 30 * 1_000_000_000
    ensures var c' := Step(c, UserNick(a), at);
      && Sent(c', UserNick(b), now) == None
      && Step(c', UserNick(b), now).desired == b && Step(c', UserNick(b), now).pending == b
  {
    hide NickEqual;
  }

  /** A reset clears the way at once. */
  lemma ResetUnblocks(c: Client, n: string, at: int, now: int)
    ensures var c' := Step(c, Reset, at);
      && Sent(c', UserNick(n), now) == (if NickEqual(c.current, n) then None else Some(n))
      && c'.desired == c.desired && c'.current == c.current && c'.pending == ""
      && !StatusOf(Step(c', StatusQuery, now), now).confirmed
  {
    hide NickEqual;
  }

  // ---- What the user is told ---------------------------------------------------------------------

  /** The status after each event that concerns the user's nick. */
  lemma StatusTells(c: Client, n: string, who: string, now: int, later: int)
    ensures StatusOf(Step(c, UserNick(n), now), later)
      == NickStatus(c.current, n, c.connected, now, !NickEqual(n, c.current), c.error)
    ensures StatusOf(Step(c, Welcome(n), now), later) == NickStatus(n, n, true, now, false, "")
    ensures n != "" && NickEqual(who, c.current) ==>
      StatusOf(Step(c, NickChange(who, n), now), later) == NickStatus(n, n, c.connected, now, false, "")
    ensures StatusOf(Initial(n, now), later) == NickStatus(n, n, false, now, false, "")
  {
    hide NickEqual;
    SameNick(n);
  }

  /** An answered error counts as a change of the nick at that time. */
  lemma StatusAfterError(c: Client, e: Event, now: int, later: int)
    requires (e.Rejected? || e.NoNickGiven?) && Sent(c, e, now).Some?
    ensures StatusOf(Step(c, e, now), later).lastChangeTime == now
  {
    hide NickEqual, Alternative;
  }

  // ---- Becoming connected ------------------------------------------------------------------------

  /** The reconnect counter: it is zeroed whenever the connection becomes established, except by a status
      query, and nothing else changes it. */
  lemma CounterZeroed(c: Client, e: Event, now: int)
    ensures var c' := Step(c, e, now);
      && (c'.reconnects == 0 || c'.reconnects == c.reconnects)
      && (!c.connected && c'.connected && !e.StatusQuery? ==> c'.reconnects == 0)
      && (!(e.Welcome? || e.Greeting? || e.Support? || e.MotdEnd?) ==> c'.reconnects == c.reconnects)
  {
    hide NickEqual, Alternative;
  }

  /** An established connection lapses exactly by a failed validation, a DISCONNECTED event or a reset. */
  lemma LapsesIff(c: Client, e: Event, now: int)
    requires c.connected
    ensures !Step(c, e, now).connected <==> e.ValidationFailed? || e.DisconnectEmitted? || e.Reset?
  {
    hide NickEqual, Alternative, ErrorText;
  }

  predicate IsWelcomeBlock(e: Event) {
    e.Greeting? || e.Support?
  }

  /** Connected again after a lapse: with n steps counted, a block of 002-005 connects exactly if a 005 in
      it is at least the fourth step. */
  lemma {:induction false} SupportConnectsIff(c: Client, run: seq<Timed>)
    requires !c.connected && c.steps >= 1 && forall t | t in run :: IsWelcomeBlock(t.event)
    ensures After(c, run).connected <==>
      exists k | 0 <= k < |run| :: run[k].event.Support? && c.steps + k + 1 >= 4
    ensures !After(c, run).connected ==> After(c, run).steps == c.steps + |run|
    ensures After(c, run).steps >= 1
  {
    hide Step;
    if run != [] {
      var last, before := run[|run| - 1], run[..|run| - 1];
      assert last in run;
      SupportConnectsIff(c, before);
      BlockStep(After(c, before), last.event, last.now);
      assert forall k | 0 <= k < |before| :: before[k] == run[k];
    }
  }

  lemma BlockStep(c: Client, e: Event, now: int)
    requires IsWelcomeBlock(e) && c.steps >= 1
    ensures var c' := Step(c, e, now);
      && (c'.connected <==> c.connected || (e.Support? && c.steps + 1 >= 4))
      && (!c.connected ==> c'.steps == c.steps + 1) && c'.steps >= 1
  {}

  /** So after a 001 and a lapse, a block of 002-005 connects exactly from its third message on. */
  lemma BlockAfterWelcome(c: Client, n: string, at: int, lapse: Event, run: seq<Timed>)
    requires lapse.ValidationFailed? || lapse.DisconnectEmitted?
    requires forall t | t in run :: IsWelcomeBlock(t.event)
    ensures After(Step(Step(c, Welcome(n), at), lapse, at), run).connected <==>
      exists k | 2 <= k < |run| :: run[k].event.Support?
  {
    hide After, IsWelcomeBlock;
    SupportConnectsIff(Step(Step(c, Welcome(n), at), lapse, at), run);
  }

  /** 376 and 422 connect at once, given a step. */
  lemma MotdConnectsIff(c: Client, now: int)
    ensures Step(c, MotdEnd, now).connected <==> c.connected || c.steps >= 1
  {}

  lemma StartKept(c: Client, e: Event, now: int)
    requires !e.Welcome? && !e.Reset? && c.steps >= 1
    ensures Step(c, e, now).startedAt == c.startedAt && Step(c, e, now).steps >= 1
  {
    hide NickEqual, Alternative, ErrorText;
  }

  lemma SettingsKept(c: Client, e: Event, now: int)
    ensures var c' := Step(c, e, now);
      c'.timeoutFallback == c.timeoutFallback && c'.registrationTimeout == c.registrationTimeout
  {
    hide NickEqual, Alternative, ErrorText;
    match e {
      case UserNick(_) =>
      case Rejected(_, _) =>
      case NickChange(_, _) =>
      case Support =>
      case _ =>
    }
  }

  lemma {:induction false} StartKeptOver(c: Client, run: seq<Timed>)
    requires c.steps >= 1 && forall t | t in run :: !t.event.Welcome? && !t.event.Reset?
    ensures var c' := After(c, run);
      && c'.startedAt == c.startedAt && c'.steps >= 1
      && c'.timeoutFallback == c.timeoutFallback && c'.registrationTimeout == c.registrationTimeout
  {
    hide Step;
    if run != [] {
      var last, before := run[|run| - 1], run[..|run| - 1];
      assert last in run;
      StartKeptOver(c, before);
      StartKept(After(c, before), last.event, last.now);
      SettingsKept(After(c, before), last.event, last.now);
    }
  }

  /** The timeout fallback, over the life of a registration: after a 001 and any events but another 001 or a
      reset, a status query reports a confirmed nick exactly if the connection stands, or the fallback
      is enabled, a nick is held and the timeout has passed since the 001. */
  lemma FallbackIff(c: Client, n: string, at: int, run: seq<Timed>, now: int)
    requires forall t | t in run :: !t.event.Welcome? && !t.event.Reset?
    ensures var c' := After(Step(c, Welcome(n), at), run);
      StatusOf(Step(c', StatusQuery, now), now).confirmed <==>
        || c'.connected
        || (c.timeoutFallback && c'.current != "" && now - at >= c.registrationTimeout)
  {
    hide After, NickEqual;
    StartKeptOver(Step(c, Welcome(n), at), run);
  }

  lemma {:induction false} FallbackSettingKept(c: Client, run: seq<Timed>)
    ensures After(c, run).timeoutFallback == c.timeoutFallback
  {
    hide Step;
    if run != [] {
      var last, before := run[|run| - 1], run[..|run| - 1];
      FallbackSettingKept(c, before);
      SettingsKept(After(c, before), last.event, last.now);
    }
  }

  /** For a new client the fallback is off: in every run a status query confirms the nick just when the
      connection stands.  Switched on, it waits 30 seconds from the 001. */
  lemma NewClientFallback(nick: string, start: int, run: seq<Timed>, n: string, at: int, now: int)
    ensures var c := After(Initial(nick, start), run);
      StatusOf(Step(c, StatusQuery, now), now).confirmed <==> c.connected
    ensures n != "" ==>
      var c := Step(Step(Initial(nick, start).(timeoutFallback := true), Welcome(n), at), ValidationFailed, at);
      StatusOf(Step(c, StatusQuery, now), now).confirmed <==> now - at >= 30_000_000_000
  {
    hide After, NickEqual;
    FallbackSettingKept(Initial(nick, start), run);
  }
}
