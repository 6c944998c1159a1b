/** The nickname and registration state of a connection, and its handlers.

Each handler runs under the connection's mutex, so one handler call is one atomic step.
`Step` and `Sent` give every step as a function of the state; class `Connection` is the
object the program mutates, proved against them. */
module NickClient {
  import opened Text
  import opened NickRules

  const SECOND := 1_000_000_000
  const NICK_WINDOW := 30 * SECOND

  datatype Client = Client(
    desired: string, current: string, pending: string,
    changing: bool, changedAt: int,
    connected: bool, steps: nat, startedAt: Option<int>,
    error: string, reconnects: nat,
    autoRecovery: bool, timeoutFallback: bool, registrationTimeout: int,
    lastChange: Option<int>)

  /** The numerics 432, 433, 436 and 437. */
  datatype NickError = Erroneous | InUse | Collision | Unavailable

  datatype Event =
    | UserNick(wanted: string)                       // Nick()
    | Welcome(nick: string)                          // 001
    | NickChange(who: string, to: string)            // NICK
    | Rejected(code: NickError, args: seq<string>)   // 432, 433, 436, 437
    | NoNickGiven                                    // 431
    | Restricted                                     // 484
    | Greeting                                       // 002, 003, 004
    | Support                                        // 005
    | MotdEnd                                        // 376, 422
    | StatusQuery                                    // GetNickStatus()
    | ValidationFailed                               // ValidateConnectionState()
    | DisconnectEmitted                              // emitDisconnected()
    | RegistrationClaimed                            // sendRegistrationOnce()
    | Reset                                          // resetRegistrationStateLocked()

  function ErrorText(code: NickError): string {
    match code
    case Erroneous => "Erroneous nickname"
    case InUse => "Nickname already in use"
    case Collision => "Nickname collision"
    case Unavailable => "Nickname temporarily unavailable"
  }

  // ---- The steps as functions ----------------------------------------------

  /** Is a change still under way at time `now`? */
  predicate Busy(c: Client, now: int) {
    c.changing && now - c.changedAt < NICK_WINDOW
  }

  function NickStep(c: Client, n: string, now: int): Client {
    var c := c.(lastChange := Some(now));
    if Busy(c, now) then c.(desired := n, pending := n)
    else if NickEqual(c.current, n) then c.(desired := n, pending := "", changing := false)
    else c.(desired := n, pending := n, changing := true, changedAt := now)
  }

  function StopRetry(c: Client): Client {
    c.(pending := "", changing := false,
       desired := if c.current != "" then c.current else c.desired)
  }

  /** Does the rejection concern a nick the client is trying to get? */
  predicate Concerns(c: Client, code: NickError, attempted: string) {
    || NickEqual(attempted, c.desired)
    || NickEqual(attempted, c.pending)
    || (code == Erroneous && NickEqual(attempted, c.current))
  }

  predicate RecoveryOff(c: Client) {
    c.connected && !c.autoRecovery
  }

  predicate Recovers(c: Client, code: NickError, args: seq<string>) {
    !RecoveryOff(c) && |args| > 1 && Concerns(c, code, args[1])
  }

  /** Move on to the alternative; before 001 the nick assumed to be ours moves along. */
  function TryStep(c: Client, code: NickError, attempted: string, now: int): Client {
    var alt := Alternative(attempted);
    c.(pending := alt, changing := true, changedAt := now, lastChange := Some(now),
       desired := if code == Erroneous then alt else c.desired,
       current := if !c.connected && NickEqual(c.current, attempted) then alt else c.current)
  }

  function RejectStep(c: Client, code: NickError, args: seq<string>, now: int): Client {
    var c := c.(error := ErrorText(code));
    if RecoveryOff(c) then StopRetry(c)
    else if Recovers(c, code, args) then TryStep(c, code, args[1], now)
    else c
  }

  function NoNickStep(c: Client, now: int): Client {
    var c := c.(error := "No nickname given");
    if c.desired == "" then c
    else c.(pending := c.desired, changing := true, changedAt := now, lastChange := Some(now))
  }

  /** The server's word on our nick ends any change. */
  function Confirmed(c: Client, to: string, now: int): Client {
    c.(current := to, desired := to, pending := "", changing := false, error := "",
       lastChange := Some(now))
  }

  function NickChangeStep(c: Client, who: string, to: string, now: int): Client {
    if NickEqual(who, c.current) && to != "" then Confirmed(c, to, now) else c
  }

  function MarkConnected(c: Client): Client {
    c.(connected := true, reconnects := 0)
  }

  function WelcomeStep(c: Client, nick: string, now: int): Client {
    MarkConnected(Confirmed(c, nick, now)).(steps := 1, startedAt := Some(now))
  }

  function GreetingStep(c: Client): Client {
    if c.steps == 0 then c
    else if c.connected then MarkConnected(c)
    else c.(steps := c.steps + 1)
  }

  function SupportStep(c: Client): Client {
    var c' := GreetingStep(c);
    if c.steps > 0 && c'.steps >= 4 then MarkConnected(c') else c'
  }

  function MotdEndStep(c: Client): Client {
    if !c.connected && c.steps > 0 then MarkConnected(c) else c
  }

  predicate FallbackDue(c: Client, now: int) {
    && c.timeoutFallback && !c.connected && c.current != "" && c.steps > 0
    && c.startedAt.Some? && now - c.startedAt.value >= c.registrationTimeout
  }

  function StatusStep(c: Client, now: int): Client {
    if FallbackDue(c, now) then c.(connected := true) else c
  }

  function ResetStep(c: Client): Client {
    c.(connected := false, steps := 0, startedAt := None, pending := "", changing := false)
  }

  function Step(c: Client, e: Event, now: int): Client {
    match e
    case UserNick(n) => NickStep(c, n, now)
    case Welcome(nick) => WelcomeStep(c, nick, now)
    case NickChange(who, to) => NickChangeStep(c, who, to, now)
    case Rejected(code, args) => RejectStep(c, code, args, now)
    case NoNickGiven => NoNickStep(c, now)
    case Restricted => StopRetry(c).(error := "Restricted nickname")
    case Greeting => GreetingStep(c)
    case Support => SupportStep(c)
    case MotdEnd => MotdEndStep(c)
    case StatusQuery => StatusStep(c, now)
    case ValidationFailed => c.(connected := false)
    case DisconnectEmitted => c.(connected := false)
    case RegistrationClaimed => c.(pending := c.desired)
    case Reset => ResetStep(c)
  }

  /** The nick of the NICK line the step sends, if it sends one. */
  function Sent(c: Client, e: Event, now: int): Option<string> {
    match e
    case UserNick(n) => if !Busy(c, now) && !NickEqual(c.current, n) then Some(n) else None
    case Rejected(code, args) => if Recovers(c, code, args) then Some(Alternative(args[1])) else None
    case NoNickGiven => if c.desired != "" then Some(c.desired) else None
    case _ => None
  }

  // ---- The object ------------------------------------------------------------

  datatype NickStatus = NickStatus(
    current: string, desired: string, confirmed: bool, lastChangeTime: int,
    pendingChange: bool, error: string)

  class Connection {
    var nick: string
    var nickCurrent: string
    var nickPending: string
    var nickChangeInProgress: bool
    var nickChangeTimeout: int
    var fullyConnected: bool
    var registrationSteps: nat
    var registrationStartTime: Option<int>
    var nickError: string
    var recoverableReconnects: nat
    var autoNickRecoveryPostRegistration: bool
    var enableTimeoutFallback: bool
    var registrationTimeout: int
    var lastNickChange: Option<int>   // None is Go's zero time

    ghost function View(): Client
      reads this
    {
      Client(nick, nickCurrent, nickPending, nickChangeInProgress, nickChangeTimeout,
             fullyConnected, registrationSteps, registrationStartTime, nickError,
             recoverableReconnects, autoNickRecoveryPostRegistration, enableTimeoutFallback,
             registrationTimeout, lastNickChange)
    }

    constructor (nick: string, now: int)
      ensures View() == Initial(nick, now)
    {
      this.nick, nickCurrent, nickPending := nick, nick, "";
      nickChangeInProgress, nickChangeTimeout := false, 0;
      fullyConnected, registrationSteps, registrationStartTime := false, 0, None;
      nickError, recoverableReconnects := "", 0;
      autoNickRecoveryPostRegistration, enableTimeoutFallback := true, false;
      registrationTimeout := 30 * SECOND;
      lastNickChange := Some(now);
    }

    method Nick(n: string, now: int) returns (sent: Option<string>)
      modifies this
      ensures View() == Step(old(View()), UserNick(n), now)
      ensures sent == Sent(old(View()), UserNick(n), now)
    {
      sent := None;
      if nickChangeInProgress && now - nickChangeTimeout < 30 * SECOND {
        nick := n;
        nickPending := n;
        lastNickChange := Some(now);
        return;
      }
      nick := n;
      lastNickChange := Some(now);
      if !NickEqual(nickCurrent, n) {
        nickChangeInProgress := true;
        nickChangeTimeout := now;
        nickPending := n;
        sent := Some(n);
        return;
      }
      nickPending := "";
      nickChangeInProgress := false;
    }

    method StopNickRetry()
      modifies this
      ensures View() == StopRetry(old(View()))
    {
      nickPending := "";
      nickChangeInProgress := false;
      if nickCurrent != "" {
        nick := nickCurrent;
      }
    }

    /** The common part of the handlers of 432, 433, 436 and 437: move on to an alternative. */
    method TryAlternative(code: NickError, attempted: string, now: int) returns (alternative: string)
      modifies this
      ensures View() == TryStep(old(View()), code, attempted, now)
      ensures alternative == Alternative(attempted)
    {
      hide NickEqual, Alternative;
      alternative := GenerateAlternative(attempted);
      if code == Erroneous {
        nick := alternative;
      }
      nickPending := alternative;
      nickChangeInProgress := true;
      nickChangeTimeout := now;
      lastNickChange := Some(now);
      if !fullyConnected && NickEqual(nickCurrent, attempted) {
        nickCurrent := alternative;
      }
    }

    /** The handlers of 432, 433, 436 and 437, which differ in the error text and in that
        432 also gives up the desired nick. */
    method OnRejected(code: NickError, args: seq<string>, now: int) returns (sent: Option<string>)
      modifies this
      ensures View() == Step(old(View()), Rejected(code, args), now)
      ensures sent == Sent(old(View()), Rejected(code, args), now)
    {
      hide NickEqual, Alternative, ErrorText, TryStep;
      sent := None;
      nickError := ErrorText(code);
      if fullyConnected && !autoNickRecoveryPostRegistration {
        StopNickRetry();
      } else if |args| > 1 {
        var attempted := args[1];
        if NickEqual(attempted, nick) || NickEqual(attempted, nickPending)
           || (code == Erroneous && NickEqual(attempted, nickCurrent)) {
          var alternative := TryAlternative(code, attempted, now);
          sent := Some(alternative);
        }
      }
    }

    method OnNoNickGiven(now: int) returns (sent: Option<string>)
      modifies this
      ensures View() == Step(old(View()), NoNickGiven, now)
      ensures sent == Sent(old(View()), NoNickGiven, now)
    {
      sent := None;
      nickError := "No nickname given";
      if nick != "" {
        nickPending := nick;
        nickChangeInProgress := true;
        nickChangeTimeout := now;
        lastNickChange := Some(now);
        sent := Some(nick);
      }
    }

    method OnRestricted(now: int)
      modifies this
      ensures View() == Step(old(View()), Restricted, now)
    {
      nickError := "Restricted nickname";
      nickPending := "";
      nickChangeInProgress := false;
      if nickCurrent != "" {
        nick := nickCurrent;
      }
    }

    method ConfirmNick(confirmed: string, now: int)
      modifies this
      ensures View() == Confirmed(old(View()), confirmed, now)
    {
      nickCurrent := confirmed;
      nickChangeInProgress := false;
      nickPending := "";
      nick := confirmed;
      lastNickChange := Some(now);
      nickError := "";
    }

    method OnNick(who: string, newNick: string, now: int)
      modifies this
      ensures View() == Step(old(View()), NickChange(who, newNick), now)
    {
      hide NickEqual, Confirmed;
      if NickEqual(who, nickCurrent) {
        if newNick != "" {
          ConfirmNick(newNick, now);
        }
      }
    }

    method MarkFullyConnected()
      modifies this`fullyConnected, this`recoverableReconnects
      ensures View() == MarkConnected(old(View()))
    {
      fullyConnected := true;
      recoverableReconnects := 0;
    }

    /** 001.  The handler indexes its first argument; without one it panics. */
    method OnWelcome(args: seq<string>, now: int) returns (panicked: bool)
      modifies this
      ensures panicked <==> args == []
      ensures View() == if panicked then old(View()) else Step(old(View()), Welcome(args[0]), now)
    {
      panicked := |args| == 0;
      if !panicked {
        ConfirmNick(args[0], now);
        MarkFullyConnected();
        StartSteps(now);
      }
    }

    method StartSteps(now: int)
      modifies this`registrationSteps, this`registrationStartTime
      ensures View() == old(View()).(steps := 1, startedAt := Some(now))
    {
      registrationSteps := 1;
      registrationStartTime := Some(now);
    }

    method OnGreeting(now: int)
      modifies this
      ensures View() == Step(old(View()), Greeting, now)
    {
      if !fullyConnected && registrationSteps > 0 {
        registrationSteps := registrationSteps + 1;
      } else if registrationSteps > 0 {
        MarkFullyConnected();
      }
    }

    method OnSupport(now: int)
      modifies this
      ensures View() == Step(old(View()), Support, now)
    {
      if !fullyConnected && registrationSteps > 0 {
        registrationSteps := registrationSteps + 1;
        if registrationSteps >= 4 {
          MarkFullyConnected();
        }
      } else if registrationSteps > 0 {
        MarkFullyConnected();
      }
    }

    method OnMotdEnd(now: int)
      modifies this
      ensures View() == Step(old(View()), MotdEnd, now)
    {
      if !fullyConnected && registrationSteps > 0 {
        MarkFullyConnected();
      }
    }

    method GetNickStatus(now: int) returns (status: NickStatus)
      modifies this
      ensures View() == Step(old(View()), StatusQuery, now)
      ensures status == StatusOf(View(), now)
    {
      hide NickEqual;
      var lastChangeTime := now;
      if lastNickChange.Some? {
        lastChangeTime := lastNickChange.value;
      }
      if enableTimeoutFallback && !fullyConnected && nickCurrent != "" && registrationSteps > 0 {
        if registrationStartTime.Some? && now - registrationStartTime.value >= registrationTimeout {
          fullyConnected := true;
        }
      }
      status := NickStatus(nickCurrent, nick, fullyConnected, lastChangeTime,
                           !NickEqual(nick, nickCurrent), nickError);
    }

    method ResetRegistrationState(now: int)
      modifies this
      ensures View() == Step(old(View()), Reset, now)
    {
      fullyConnected := false;
      registrationSteps := 0;
      registrationStartTime := None;
      nickPending := "";
      nickChangeInProgress := false;
    }
  }

  /** The exported constructor: no connection for an empty nick or user. */
  method NewConnection(nick: string, user: string, now: int) returns (c: Connection?)
    ensures c == null <==> nick == "" || user == ""
    ensures c != null ==> fresh(c) && c.View() == Initial(nick, now)
  {
    if |nick| == 0 || |user| == 0 {
      return null;
    }
    c := new Connection(nick, now);
  }

  function Initial(nick: string, now: int): Client {
    Client(nick, nick, "", false, 0, false, 0, None, "", 0, true, false, 30 * SECOND, Some(now))
  }

  /** What a status query reports of a state. */
  function StatusOf(c: Client, now: int): NickStatus {
    NickStatus(c.current, c.desired, c.connected,
               if c.lastChange.Some? then c.lastChange.value else now,
               !NickEqual(c.desired, c.current), c.error)
  }

  // ---- Runs ------------------------------------------------------------------

  datatype Timed = Timed(event: Event, now: int)

  /** The state after a run of steps. */
  function After(c: Client, run: seq<Timed>): Client {
    if run == [] then c
    else
      var last := run[|run| - 1];
      Step(After(c, run[..|run| - 1]), last.event, last.now)
  }

  lemma AfterPrefix(c: Client, run: seq<Timed>, k: nat)
    requires k < |run|
    ensures After(c, run[..k + 1]) == Step(After(c, run[..k]), run[k].event, run[k].now)
  {
    assert run[..k + 1][..k] == run[..k];
  }

  // ---- No ghost registration -------------------------------------------------

  /** Was a 001 processed since the last reset? */
  predicate Welcomed(run: seq<Timed>) {
    run != [] &&
    match run[|run| - 1].event
    case Welcome(_) => true
    case Reset => false
    case _ => Welcomed(run[..|run| - 1])
  }

  lemma GhostStep(c: Client, e: Event, now: int)
    requires c.connected ==> c.steps >= 1
    ensures Step(c, e, now).connected ==> Step(c, e, now).steps >= 1
    ensures Step(c, e, now).steps >= 1 <==> !e.Reset? && (e.Welcome? || c.steps >= 1)
  {
    hide NickEqual, Alternative;
  }

  /** Whatever order the numerics, status queries with the timeout fallback, failed validations
      and disconnects come in, a connection counts as established only after a 001 of the
      current registration. */
  lemma {:induction false} NoGhostRegistration(c: Client, run: seq<Timed>)
    requires !c.connected && c.steps == 0
    ensures After(c, run).connected ==> After(c, run).steps >= 1
    ensures After(c, run).steps >= 1 <==> Welcomed(run)
  {
    hide Step;
    if run != [] {
      var last := run[|run| - 1];
      NoGhostRegistration(c, run[..|run| - 1]);
      GhostStep(After(c, run[..|run| - 1]), last.event, last.now);
    }
  }

  // ---- Pacing of Nick() --------------------------------------------------------

  predicate ClockRuns(run: seq<Timed>) {
    forall i, j | 0 <= i <= j < |run| :: run[i].now <= run[j].now
  }

  /** Step k of the run is a Nick() call that sends a NICK line. */
  predicate NickSends(c: Client, run: seq<Timed>, k: nat)
    requires k < |run|
  {
    run[k].event.UserNick? && Sent(After(c, run[..k]), run[k].event, run[k].now).Some?
  }

  /** The events by which the server, or a reset, ends a change. */
  predicate Ends(c: Client, e: Event) {
    match e
    case NickChange(who, to) => NickEqual(who, c.current) && to != ""
    case Rejected(_, _) => RecoveryOff(c)
    case Welcome(_) => true
    case Restricted => true
    case Reset => true
    case _ => false
  }

  predicate EndsAt(c: Client, run: seq<Timed>, k: nat)
    requires k < |run|
  {
    After(c, run[..k]).changing && !After(c, run[..k + 1]).changing
    && Ends(After(c, run[..k]), run[k].event)
  }

  /** The in-progress flag drops only by such an event or by a Nick() call outside the window. */
  lemma FlagDrops(c: Client, e: Event, now: int)
    requires c.changing
    ensures Step(c, e, now).changing || Ends(c, e) || (e.UserNick? && now - c.changedAt >= NICK_WINDOW)
  {
    hide NickEqual, Alternative;
  }

  lemma FlagSince(c: Client, e: Event, now: int, since: int)
    requires c.changing ==> c.changedAt >= since
    requires now >= since
    ensures Step(c, e, now).changing ==> Step(c, e, now).changedAt >= since
  {
    hide NickEqual, Alternative;
  }

  lemma SendRaisesFlag(c: Client, e: Event, now: int)
    requires e.UserNick?
    ensures Sent(c, e, now).Some? ==> Step(c, e, now).changing && Step(c, e, now).changedAt == now
    ensures Sent(c, e, now).Some? ==> !Busy(c, now)
  {
    hide NickEqual;
  }

  lemma {:induction false} FlagPersists(c: Client, run: seq<Timed>, i: nat, m: nat, end: nat)
    requires ClockRuns(run) && i < m <= end < |run|
    requires NickSends(c, run, i) && run[end].now - run[i].now < NICK_WINDOW
    requires forall k | i < k < m :: !EndsAt(c, run, k)
    ensures After(c, run[..m]).changing && After(c, run[..m]).changedAt >= run[i].now
  {
    hide Step, Sent, Ends;
    AfterPrefix(c, run, m - 1);
    if m > i + 1 {
      FlagPersists(c, run, i, m - 1, end);
      var before := After(c, run[..m - 1]);
      var step := run[m - 1];
      FlagSince(before, step.event, step.now, run[i].now);
      FlagDrops(before, step.event, step.now);
      assert !EndsAt(c, run, m - 1);
      assert step.now <= run[end].now;
    } else {
      SendRaisesFlag(After(c, run[..i]), run[i].event, run[i].now);
    }
  }

  /** Two NICK lines that Nick() sends less than 30 seconds apart have an answer of the server
      (or a reset) between them, although the error handlers keep moving the timestamp. */
  lemma NickPacing(c: Client, run: seq<Timed>, i: nat, j: nat)
    requires ClockRuns(run) && i < j < |run|
    requires NickSends(c, run, i) && NickSends(c, run, j)
    requires run[j].now - run[i].now < NICK_WINDOW
    ensures exists k | i < k < j :: EndsAt(c, run, k)
  {
    hide Step, Sent, Ends, After;
    SendRaisesFlag(After(c, run[..j]), run[j].event, run[j].now);
    if forall k | i < k < j :: !EndsAt(c, run, k) {
      FlagPersists(c, run, i, j, j);
      assert false;
    }
  }

  // ---- Recovery switched off -----------------------------------------------------

  function LinesSent(c: Client, run: seq<Timed>): nat {
    if run == [] then 0
    else
      var last := run[|run| - 1];
      var before := run[..|run| - 1];
      LinesSent(c, before) + if Sent(After(c, before), last.event, last.now).Some? then 1 else 0
  }

  function Requests(run: seq<Timed>): nat {
    if run == [] then 0
    else
      var last := run[|run| - 1].event;
      Requests(run[..|run| - 1]) + if last.UserNick? || last.NoNickGiven? then 1 else 0
  }

  lemma SettingStep(c: Client, e: Event, now: int)
    ensures Step(c, e, now).autoRecovery == c.autoRecovery
    ensures RecoveryOff(c) && Sent(c, e, now).Some? ==> e.UserNick? || e.NoNickGiven?
  {
    hide NickEqual, Alternative;
  }

  lemma {:induction false} RecoverySettingKept(c: Client, run: seq<Timed>)
    ensures After(c, run).autoRecovery == c.autoRecovery
  {
    hide Step;
    if run != [] {
      var last := run[|run| - 1];
      RecoverySettingKept(c, run[..|run| - 1]);
      SettingStep(After(c, run[..|run| - 1]), last.event, last.now);
    }
  }

  /** With post-registration recovery off, the client never invents a NICK line while it stays
      connected: there are at most as many as Nick() calls and 431 replies. */
  lemma {:induction false} NoInventedNicks(c: Client, run: seq<Timed>)
    requires !c.autoRecovery
    requires forall k | 0 <= k <= |run| :: After(c, run[..k]).connected
    ensures LinesSent(c, run) <= Requests(run)
  {
    hide Step, Sent;
    if run != [] {
      var last := run[|run| - 1];
      var before := run[..|run| - 1];
      SettingStep(After(c, before), last.event, last.now);
      forall k | 0 <= k <= |before| ensures After(c, before[..k]).connected {
        assert before[..k] == run[..k];
      }
      NoInventedNicks(c, before);
      RecoverySettingKept(c, before);
      assert before == before[..|before|];
      assert RecoveryOff(After(c, before));
    }
  }

  /** ... and a rejection then leaves the client content with the nick it has. */
  lemma RejectionGivesUp(c: Client, code: NickError, args: seq<string>, now: int)
    requires RecoveryOff(c) && c.current != ""
    ensures var c' := Step(c, Rejected(code, args), now);
      && c'.desired == c.current == c'.current && c'.pending == "" && !c'.changing
      && Sent(c, Rejected(code, args), now) == None
  {}

  // ---- A chain of rejections --------------------------------------------------------

  /** The state after k rejections, each naming the nick then pending. */
  function Chased(c: Client, code: NickError, k: nat): Client {
    if k == 0 then c
    else
      var before := Chased(c, code, k - 1);
      Step(before, Rejected(code, ["*", before.pending]), 0)
  }

  /** The nick sent by the k-th rejection of such a chain. */
  function ChaseLine(c: Client, code: NickError, k: nat): Option<string>
    requires k >= 1
  {
    var before := Chased(c, code, k - 1);
    Sent(before, Rejected(code, ["*", before.pending]), 0)
  }

  lemma ChaseStep(c: Client, code: NickError)
    requires !RecoveryOff(c)
    ensures var e := Rejected(code, ["*", c.pending]);
      && !RecoveryOff(Step(c, e, 0)) && Step(c, e, 0).pending == Alternative(c.pending)
      && Sent(c, e, 0) == Some(Alternative(c.pending))
  {
    hide Alternative, NickEqual, ErrorText;
    SameNick(c.pending);
  }

  /** However long the server goes on refusing, the client sends one line per rejection and they
      range over at most nine nicks, all valid and each different from the one just refused. */
  lemma {:induction false} ChaseIsFinite(c: Client, code: NickError, k: nat)
    requires k >= 1 && !RecoveryOff(c)
    ensures !RecoveryOff(Chased(c, code, k)) && Chased(c, code, k).pending == Retry(c.pending, k)
    ensures ChaseLine(c, code, k) == Some(Retry(c.pending, k))
    ensures Retry(c.pending, k) in Proposed(c.pending, 9) && |Proposed(c.pending, 9)| <= 9
    ensures ValidNick(Retry(c.pending, k))
    ensures !NickEqual(Retry(c.pending, k), Retry(c.pending, k - 1))
  {
    hide Alternative, NickEqual, ValidNick, Proposed, Step, Sent, RecoveryOff;
    OrbitIsSmall(c.pending, k);
    AlternativeIsFresh(Retry(c.pending, k - 1));
    if k > 1 {
      ChaseIsFinite(c, code, k - 1);
    }
    ChaseStep(Chased(c, code, k - 1), code);
  }

  lemma SameNick(a: string)
    ensures NickEqual(a, a)
  {}
}
