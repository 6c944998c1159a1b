/** The reconnect loop as a thread with a program counter, next to any number of concurrent
`Disconnect`, `Connect`, `StopReconnect` and `Quit` calls and completing registrations.

Every critical section is one atomic move.  The moves of `Disconnect` and of the user's own `Connect`
are allowed at any moment and in any order, which covers every interleaving of such calls.  `Connect`
replaces the write channel and clears its flag in two separate moves, as it does so unlocked. */
module Lifecycle {
  import opened Text
  import opened ErrorClass

  datatype Pc =
    | OuterCheck                                   // for !irc.isQuitting()
    | Waiting                                      // err := <-errChan
    | Deciding(err: string)
    | FinishClosing(err: string)                   // finishDisconnectedLoop
    | FinishEmitting(err: string)
    | Closing(err: string)
    | InnerCheck(err: string)                      // the retry loop
    | LimitCheck(err: string)
    | Noting(err: string)
    | Starting(err: string)                        // Reconnect
    | Dialing(err: string)                         // Connect
    | MakingPwrite(err: string)
    | ClearingFlag(err: string)
    | Negotiating(err: string)
    | StopEmitting(err: string)
    | LastEmitting
    | Done

  /** What happened so far. */
  datatype Entry =
    | Dialed         // a successful dial
    | Emitted        // a DISCONNECTED event claimed
    | LoopEmit       // Loop went through its emit step
    | Attempt        // a limited reconnect attempt counted
    | Registered     // a registration completed
    | QuitAsked      // StopReconnect or Quit
    | Reconnecting   // Loop started Reconnect

  /** The channels `end` and `pwrite`.  Channels have identities; a second close panics. */
  datatype Channels = Channels(
    end: Option<nat>, endClosed: bool,
    pwrite: Option<nat>, pwriteClosed: bool,
    nextId: nat, closed: set<nat>, panicked: bool)

  datatype State = State(
    handleErrors: bool, max: int,
    quit: bool, emitted: bool, reconnects: nat,
    channels: Channels, pc: Pc, log: seq<Entry>)

  datatype Move =
    | LoopStep(err: string, ok: bool)   // the error received, or the outcome of a dial or negotiation
    | StopReconnect
    | CompleteRegistration
    | DisconnectClose | DisconnectClear | DisconnectEmit
    | ConnectDialed | ConnectPwrite | ConnectFlag
    | UserReconnect

  // ---- Critical sections --------------------------------------------------------------

  predicate LimitReached(s: State) {
    s.max > 0 && s.reconnects >= s.max
  }

  function CloseEnd(c: Channels): Channels {
    if c.end.Some? && !c.endClosed then
      c.(endClosed := true, closed := c.closed + {c.end.value},
         panicked := c.panicked || c.end.value in c.closed)
    else c
  }

  function ClosePwrite(c: Channels): Channels {
    if c.pwrite.Some? && !c.pwriteClosed then
      c.(pwriteClosed := true, closed := c.closed + {c.pwrite.value},
         panicked := c.panicked || c.pwrite.value in c.closed)
    else c
  }

  /** The last critical section of Disconnect. */
  function Clear(c: Channels): Channels {
    ClosePwrite(c.(end := None)).(pwrite := None)
  }

  function NewEnd(c: Channels): Channels {
    c.(end := Some(c.nextId), nextId := c.nextId + 1, endClosed := false)
  }

  function NewPwrite(c: Channels): Channels {
    c.(pwrite := Some(c.nextId), nextId := c.nextId + 1)
  }

  function ReopenFlag(c: Channels): Channels {
    c.(pwriteClosed := false)
  }

  function Emit(s: State): State {
    if s.emitted then s else s.(emitted := true, log := s.log + [Emitted])
  }

  function LoopEmitStep(s: State): State {
    var e := Emit(s);
    e.(pc := Done, log := e.log + [LoopEmit])
  }

  function Dial(s: State): State {
    s.(emitted := false, log := s.log + [Dialed])
  }

  // ---- The loop ------------------------------------------------------------------------

  function DecideStep(s: State, err: string): State {
    if s.handleErrors && (LooksPermanent(err) || (LooksLimited(err) && LimitReached(s))) then
      s.(pc := FinishClosing(err))
    else s.(pc := Closing(err))
  }

  function LimitStep(s: State, err: string): State {
    if !LooksLimited(err) then s.(pc := Starting(err))
    else if LimitReached(s) then s.(pc := StopEmitting(err))
    else s.(pc := Noting(err))
  }

  function LoopNext(s: State, err: string, ok: bool): State {
    match s.pc
    case OuterCheck => s.(pc := if s.quit then LastEmitting else Waiting)
    case Waiting => s.(pc := Deciding(err))
    case Deciding(e) => DecideStep(s, e)
    case FinishClosing(e) => s.(channels := CloseEnd(s.channels), pc := FinishEmitting(e))
    case FinishEmitting(_) => LoopEmitStep(s)
    case Closing(e) => s.(channels := CloseEnd(s.channels), pc := InnerCheck(e))
    case InnerCheck(e) => s.(pc := if s.quit then OuterCheck else LimitCheck(e))
    case LimitCheck(e) => LimitStep(s, e)
    case Noting(e) => s.(reconnects := s.reconnects + 1, log := s.log + [Attempt], pc := Starting(e))
    case Starting(e) =>
      s.(channels := NewEnd(s.channels), log := s.log + [Reconnecting], pc := Dialing(e))
    case Dialing(e) => if ok then Dial(s).(pc := MakingPwrite(e)) else s.(pc := InnerCheck(e))
    case MakingPwrite(e) => s.(channels := NewPwrite(s.channels), pc := ClearingFlag(e))
    case ClearingFlag(e) => s.(channels := ReopenFlag(s.channels), pc := Negotiating(e))
    case Negotiating(e) => s.(pc := if ok then OuterCheck else InnerCheck(e))
    case StopEmitting(_) => LoopEmitStep(s)
    case LastEmitting => LoopEmitStep(s)
    case Done => s
  }

  function Play(s: State, m: Move): State {
    match m
    case LoopStep(err, ok) => LoopNext(s, err, ok)
    case StopReconnect => s.(quit := true, log := s.log + [QuitAsked])
    case CompleteRegistration => s.(reconnects := 0, log := s.log + [Registered])
    case DisconnectClose => s.(channels := CloseEnd(s.channels))
    case DisconnectClear => s.(channels := Clear(s.channels))
    case DisconnectEmit => Emit(s)
    case ConnectDialed => Dial(s)
    case ConnectPwrite => s.(channels := NewPwrite(s.channels))
    case ConnectFlag => s.(channels := ReopenFlag(s.channels))
    case UserReconnect => s.(channels := NewEnd(s.channels))
  }

  function After(s: State, run: seq<Move>): State
    decreases |run|
  {
    if run == [] then s else After(Play(s, run[0]), run[1..])
  }

  /** A connection as `IRC` makes it, before its first Connect. */
  function Start(handleErrors: bool, max: int): State {
    State(handleErrors, max, false, false, 0,
          Channels(Some(0), false, None, false, 1, {}, false), OuterCheck, [])
  }

  // ---- The object ---------------------------------------------------------------------------

  /** The fields behind the mutex, with the critical sections as methods.  Ghost fields record
      channel identities, Loop's position and the history. */
  class Connection {
    var handleErrorAsDisconnect: bool
    var maxRecoverableReconnects: int
    var quit: bool
    var disconnectedEmitted: bool
    var recoverableReconnects: nat
    var end: Option<nat>
    var endClosed: bool
    var pwrite: Option<nat>
    var pwriteClosed: bool
    var nextId: nat
    ghost var closed: set<nat>
    ghost var panicked: bool
    ghost var pc: Pc
    ghost var log: seq<Entry>

    ghost function View(): State
      reads this
    {
      State(handleErrorAsDisconnect, maxRecoverableReconnects, quit, disconnectedEmitted,
            recoverableReconnects,
            Channels(end, endClosed, pwrite, pwriteClosed, nextId, closed, panicked), pc, log)
    }

    ghost method Close(c: nat)
      modifies this`closed, this`panicked
      ensures closed == old(closed) + {c} && panicked == (old(panicked) || c in old(closed))
    {
      panicked := panicked || c in closed;
      closed := closed + {c};
    }

    method CloseEnd()
      modifies this
      ensures View() == Play(old(View()), DisconnectClose)
    {
      if end.Some? && !endClosed {
        Close(end.value);
        endClosed := true;
      }
    }

    method ClearChannels()
      modifies this
      ensures View() == Play(old(View()), DisconnectClear)
    {
      end := None;
      if pwrite.Some? && !pwriteClosed {
        Close(pwrite.value);
        pwriteClosed := true;
      }
      pwrite := None;
    }

    method EmitDisconnected() returns (claimed: bool)
      modifies this
      ensures View() == Play(old(View()), DisconnectEmit) && claimed == !old(disconnectedEmitted)
    {
      if disconnectedEmitted {
        return false;
      }
      disconnectedEmitted := true;
      log := log + [Emitted];
      return true;
    }

    method StopReconnecting()
      modifies this
      ensures View() == Play(old(View()), StopReconnect)
    {
      quit := true;
      log := log + [QuitAsked];
    }

    method ReconnectLimitReached() returns (reached: bool)
      ensures reached <==> LimitReached(View())
    {
      return maxRecoverableReconnects > 0 && recoverableReconnects >= maxRecoverableReconnects;
    }

    method NoteReconnectAttempt() returns (count: nat)
      requires pc.Noting?
      modifies this
      ensures View() == LoopNext(old(View()), "", true) && count == recoverableReconnects
    {
      recoverableReconnects := recoverableReconnects + 1;
      log := log + [Attempt];
      pc := Starting(pc.err);
      return recoverableReconnects;
    }

    /** The critical section of Reconnect. */
    method BeginReconnect()
      requires pc.Starting?
      modifies this
      ensures View() == LoopNext(old(View()), "", true)
    {
      end := Some(nextId);
      nextId := nextId + 1;
      endClosed := false;
      log := log + [Reconnecting];
      pc := Dialing(pc.err);
    }
  }

  // ---- Reading the log --------------------------------------------------------------------

  function EmitsSinceDial(log: seq<Entry>): nat {
    if log == [] then 0
    else
      match log[|log| - 1]
      case Dialed => 0
      case Emitted => EmitsSinceDial(log[..|log| - 1]) + 1
      case _ => EmitsSinceDial(log[..|log| - 1])
  }

  function AttemptsSinceRegistered(log: seq<Entry>): nat {
    if log == [] then 0
    else
      match log[|log| - 1]
      case Registered => 0
      case Attempt => AttemptsSinceRegistered(log[..|log| - 1]) + 1
      case _ => AttemptsSinceRegistered(log[..|log| - 1])
  }

  function ReconnectsAfterQuit(log: seq<Entry>): nat {
    if log == [] then 0
    else
      var before := log[..|log| - 1];
      ReconnectsAfterQuit(before) + if log[|log| - 1] == Reconnecting && QuitAsked in before then 1 else 0
  }

  function Reconnects(log: seq<Entry>): nat {
    if log == [] then 0
    else Reconnects(log[..|log| - 1]) + if log[|log| - 1] == Reconnecting then 1 else 0
  }

  /** Each time Loop passed its emit step, a DISCONNECTED event had been emitted since the last dial. */
  ghost predicate EmitsCovered(log: seq<Entry>) {
    forall k | 0 <= k < |log| && log[k] == LoopEmit :: EmitsSinceDial(log[..k]) == 1
  }

  lemma Logged(log: seq<Entry>, e: Entry)
    ensures EmitsSinceDial(log + [e]) ==
      if e == Dialed then 0 else EmitsSinceDial(log) + if e == Emitted then 1 else 0
    ensures AttemptsSinceRegistered(log + [e]) ==
      if e == Registered then 0 else AttemptsSinceRegistered(log) + if e == Attempt then 1 else 0
    ensures ReconnectsAfterQuit(log + [e]) ==
      ReconnectsAfterQuit(log) + if e == Reconnecting && QuitAsked in log then 1 else 0
    ensures Reconnects(log + [e]) == Reconnects(log) + if e == Reconnecting then 1 else 0
    ensures (e == LoopEmit ==> EmitsSinceDial(log) == 1) && EmitsCovered(log) ==> EmitsCovered(log + [e])
  {
    assert (log + [e])[..|log|] == log;
    assert forall k | 0 <= k < |log| :: (log + [e])[..k] == log[..k];
  }

  // ---- The invariant --------------------------------------------------------------------------

  /** Between the loop test and Reconnect. */
  predicate Committed(pc: Pc) {
    pc.LimitCheck? || pc.Noting? || pc.Starting?
  }

  ghost predicate Sound(c: Channels) {
    && !c.panicked
    && (forall x | x in c.closed :: x < c.nextId)
    && (c.end.Some? ==> c.end.value < c.nextId)
    && (c.pwrite.Some? ==> c.pwrite.value < c.nextId)
    && (c.end.Some? ==> (c.endClosed <==> c.end.value in c.closed))
    && (c.pwrite.Some? ==> c.pwrite.value !in c.closed)
    && (c.end.Some? && c.pwrite.Some? ==> c.end.value != c.pwrite.value)
  }

  ghost predicate Emissions(s: State) {
    && EmitsSinceDial(s.log) == (if s.emitted then 1 else 0)
    && EmitsCovered(s.log)
    && (s.pc == Done <==> LoopEmit in s.log)
  }

  ghost predicate Counting(s: State) {
    && s.reconnects == AttemptsSinceRegistered(s.log)
    && (s.max > 0 ==> s.reconnects <= s.max)
    && (s.max > 0 && s.pc.Noting? ==> s.reconnects < s.max)
  }

  ghost predicate Latched(s: State) {
    && (s.quit <==> QuitAsked in s.log)
    && ReconnectsAfterQuit(s.log) <= (if Committed(s.pc) || !s.quit then 0 else 1)
  }

  ghost predicate Invariant(s: State) {
    Sound(s.channels) && Emissions(s) && Counting(s) && Latched(s)
  }

  // ---- What a move does, seen from the log -----------------------------------------------

  datatype Effect = Silent | Logs(entry: Entry) | FinalEmit

  function EffectOf(s: State, m: Move): Effect {
    match m
    case LoopStep(_, ok) =>
      (match s.pc
       case Noting(_) => Logs(Attempt)
       case Starting(_) => Logs(Reconnecting)
       case Dialing(_) => if ok then Logs(Dialed) else Silent
       case FinishEmitting(_) => FinalEmit
       case StopEmitting(_) => FinalEmit
       case LastEmitting => FinalEmit
       case _ => Silent)
    case StopReconnect => Logs(QuitAsked)
    case CompleteRegistration => Logs(Registered)
    case DisconnectEmit => if s.emitted then Silent else Logs(Emitted)
    case ConnectDialed => Logs(Dialed)
    case _ => Silent
  }

  function LogAfter(s: State, effect: Effect): seq<Entry> {
    match effect
    case Silent => s.log
    case Logs(e) => s.log + [e]
    case FinalEmit => (if s.emitted then s.log else s.log + [Emitted]) + [LoopEmit]
  }

  lemma EffectOnLog(s: State, m: Move)
    ensures Play(s, m).log == LogAfter(s, EffectOf(s, m))
  {
    hide LooksPermanent, LooksLimited, CloseEnd, Clear, NewEnd, NewPwrite, ReopenFlag;
  }

  lemma EffectOnFlags(s: State, m: Move)
    ensures var s' := Play(s, m); var effect := EffectOf(s, m);
      && s'.max == s.max && s'.handleErrors == s.handleErrors
      && s'.quit == (s.quit || effect == Logs(QuitAsked))
      && s'.emitted == (effect == FinalEmit || effect == Logs(Emitted) || (s.emitted && effect != Logs(Dialed)))
      && s'.reconnects == (if effect == Logs(Registered) then 0
                           else if effect == Logs(Attempt) then s.reconnects + 1 else s.reconnects)
  {
    hide LooksPermanent, LooksLimited, CloseEnd, Clear, NewEnd, NewPwrite, ReopenFlag;
  }

  lemma EffectOnPc(s: State, m: Move)
    ensures var pc' := Play(s, m).pc; var effect := EffectOf(s, m);
      && (pc' == Done <==> s.pc == Done || effect == FinalEmit)
      && (pc'.Noting? ==> s.pc.Noting? || !LimitReached(s))
      && (effect == Logs(Attempt) ==> s.pc.Noting? && !pc'.Noting?)
      && (effect == Logs(Reconnecting) ==> s.pc.Starting? && !Committed(pc'))
      && (Committed(pc') ==> Committed(s.pc) || (s.pc.InnerCheck? && !s.quit && effect == Silent))
  {
    hide LooksPermanent, LooksLimited, CloseEnd, Clear, NewEnd, NewPwrite, ReopenFlag;
  }

  lemma EffectOnChannels(s: State, m: Move)
    ensures var c, c' := s.channels, Play(s, m).channels;
      c' == c || c' == CloseEnd(c) || c' == Clear(c) || c' == NewEnd(c) || c' == NewPwrite(c) || c' == ReopenFlag(c)
  {
    hide LooksPermanent, LooksLimited, CloseEnd, Clear, NewEnd, NewPwrite, ReopenFlag;
  }

  lemma ChannelsKept(c: Channels)
    requires Sound(c)
    ensures Sound(CloseEnd(c)) && Sound(Clear(c)) && Sound(NewEnd(c)) && Sound(NewPwrite(c)) && Sound(ReopenFlag(c))
  {}

  lemma EffectLogged(s: State, effect: Effect)
    ensures var log := LogAfter(s, effect);
      && EmitsSinceDial(log) == (
           if effect == Logs(Dialed) then 0
           else EmitsSinceDial(s.log) +
                if effect == Logs(Emitted) || (effect == FinalEmit && !s.emitted) then 1 else 0)
      && AttemptsSinceRegistered(log) == (
           if effect == Logs(Registered) then 0
           else AttemptsSinceRegistered(s.log) + if effect == Logs(Attempt) then 1 else 0)
      && Reconnects(log) == Reconnects(s.log) + (if effect == Logs(Reconnecting) then 1 else 0)
      && ReconnectsAfterQuit(log) == ReconnectsAfterQuit(s.log) +
           (if effect == Logs(Reconnecting) && QuitAsked in s.log then 1 else 0)
      && (QuitAsked in log <==> QuitAsked in s.log || effect == Logs(QuitAsked))
  {
    hide EmitsSinceDial, AttemptsSinceRegistered, Reconnects, ReconnectsAfterQuit;
    match effect {
      case Silent =>
      case Logs(e) => Logged(s.log, e);
      case FinalEmit =>
        Logged(s.log, Emitted);
        Logged(if s.emitted then s.log else s.log + [Emitted], LoopEmit);
    }
  }

  lemma CoverKept(s: State, effect: Effect)
    requires EmitsCovered(s.log) && EmitsSinceDial(s.log) == (if s.emitted then 1 else 0)
    requires effect != Logs(LoopEmit)
    ensures EmitsCovered(LogAfter(s, effect))
  {
    hide EmitsSinceDial, EmitsCovered;
    match effect {
      case Silent =>
      case Logs(e) => Logged(s.log, e);
      case FinalEmit =>
        Logged(s.log, Emitted);
        Logged(if s.emitted then s.log else s.log + [Emitted], LoopEmit);
    }
  }

  lemma LoopEmitLogged(s: State, effect: Effect)
    requires effect != Logs(LoopEmit)
    ensures LoopEmit in LogAfter(s, effect) <==> LoopEmit in s.log || effect == FinalEmit
  {}

  lemma EmissionsKept(s: State, m: Move)
    requires Emissions(s)
    ensures Emissions(Play(s, m))
  {
    hide Play, EffectOf, EmitsSinceDial, EmitsCovered, LogAfter;
    EffectOnLog(s, m);
    EffectOnFlags(s, m);
    EffectOnPc(s, m);
    OnlyFinalLogsLoopEmit(s, m);
    EffectLogged(s, EffectOf(s, m));
    CoverKept(s, EffectOf(s, m));
    LoopEmitLogged(s, EffectOf(s, m));
  }

  lemma OnlyFinalLogsLoopEmit(s: State, m: Move)
    ensures EffectOf(s, m) != Logs(LoopEmit)
    ensures EffectOf(s, m) == Logs(Emitted) ==> !s.emitted
  {}

  lemma CountingKept(s: State, m: Move)
    requires Counting(s)
    ensures Counting(Play(s, m))
  {
    hide Play, EffectOf, AttemptsSinceRegistered, LogAfter;
    EffectOnLog(s, m);
    EffectOnFlags(s, m);
    EffectOnPc(s, m);
    EffectLogged(s, EffectOf(s, m));
  }

  lemma LatchedKept(s: State, m: Move)
    requires Latched(s)
    ensures Latched(Play(s, m))
  {
    hide Play, EffectOf, ReconnectsAfterQuit, LogAfter;
    EffectOnLog(s, m);
    EffectOnFlags(s, m);
    EffectOnPc(s, m);
    EffectLogged(s, EffectOf(s, m));
  }

  lemma {:induction false} RunKeeps(s: State, run: seq<Move>)
    requires Invariant(s)
    ensures Invariant(After(s, run))
    decreases |run|
  {
    hide Play, Sound, Emissions, Counting, Latched;
    if run != [] {
      EffectOnChannels(s, run[0]);
      ChannelsKept(s.channels);
      EmissionsKept(s, run[0]);
      CountingKept(s, run[0]);
      LatchedKept(s, run[0]);
      RunKeeps(Play(s, run[0]), run[1..]);
    }
  }

  lemma Reachable(handleErrors: bool, max: int, run: seq<Move>)
    ensures Invariant(After(Start(handleErrors, max), run))
  {
    hide After;
    RunKeeps(Start(handleErrors, max), run);
  }

  // ---- Results over every run ----------------------------------------------------------------

  /** At most one DISCONNECTED between two successful dials, and Loop never returns without one having
      been emitted since the last dial. */
  lemma OneDisconnectedPerLifecycle(handleErrors: bool, max: int, run: seq<Move>)
    ensures var s := After(Start(handleErrors, max), run);
      && EmitsSinceDial(s.log) <= 1
      && (s.pc == Done ==> exists k | 0 <= k < |s.log| :: s.log[k] == LoopEmit && EmitsSinceDial(s.log[..k]) == 1)
  {
    hide After, EmitsSinceDial;
    Reachable(handleErrors, max, run);
  }

  /** No channel is ever closed a second time. */
  lemma ClosedOnce(handleErrors: bool, max: int, run: seq<Move>)
    ensures !After(Start(handleErrors, max), run).channels.panicked
  {
    hide After;
    Reachable(handleErrors, max, run);
  }

  /** The counter is the number of limited attempts since the last completed registration, and a
      positive cap is never exceeded. */
  lemma ReconnectBound(handleErrors: bool, max: int, run: seq<Move>)
    ensures var s := After(Start(handleErrors, max), run);
      && s.reconnects == AttemptsSinceRegistered(s.log)
      && (max > 0 ==> AttemptsSinceRegistered(s.log) <= max)
  {
    hide After, AttemptsSinceRegistered;
    Reachable(handleErrors, max, run);
    SettingsKept(Start(handleErrors, max), run);
  }

  /** Once asked to stop, Loop starts at most one further Reconnect: the one it had decided on. */
  lemma QuitLatch(handleErrors: bool, max: int, run: seq<Move>)
    ensures var s := After(Start(handleErrors, max), run);
      && (QuitAsked in s.log ==> s.quit)
      && ReconnectsAfterQuit(s.log) <= 1
  {
    hide After, ReconnectsAfterQuit;
    Reachable(handleErrors, max, run);
  }

  lemma {:induction false} SettingsKept(s: State, run: seq<Move>)
    ensures After(s, run).max == s.max && After(s, run).handleErrors == s.handleErrors
    decreases |run|
  {
    hide Play;
    if run != [] {
      EffectOnFlags(s, run[0]);
      SettingsKept(Play(s, run[0]), run[1..]);
    }
  }

  // ---- Stopping for good ------------------------------------------------------------------------

  /** Loop is on its way out. */
  predicate Leaving(s: State) {
    match s.pc
    case Deciding(e) => s.handleErrors && LooksPermanent(e)
    case FinishClosing(_) => true
    case FinishEmitting(_) => true
    case StopEmitting(_) => true
    case LastEmitting => true
    case Done => true
    case _ => false
  }

  lemma LeavingPc(s: State, m: Move)
    requires Leaving(s)
    ensures Leaving(Play(s, m)) && EffectOf(s, m) != Logs(Reconnecting)
  {
    hide LooksPermanent, LooksLimited, CloseEnd, Clear, NewEnd, NewPwrite, ReopenFlag;
  }

  lemma {:induction false} LeavingStays(s: State, run: seq<Move>)
    requires Leaving(s)
    ensures Reconnects(After(s, run).log) == Reconnects(s.log)
    decreases |run|
  {
    hide Play, Leaving, EffectOf, Reconnects, LogAfter;
    if run != [] {
      LeavingPc(s, run[0]);
      EffectOnLog(s, run[0]);
      EffectLogged(s, EffectOf(s, run[0]));
      LeavingStays(Play(s, run[0]), run[1..]);
    }
  }

  /** From the wire to the loop: once Loop has received the report of an ERROR whose text is classified
      permanent, it never starts another Reconnect, whatever else happens. */
  lemma PermanentErrorStops(s: State, msg: string, run: seq<Move>)
    requires s.pc == Waiting && s.handleErrors && Classify(msg) == PermanentError
    ensures var received := LoopNext(s, Report(Classify(msg), msg), true);
      Reconnects(After(received, run).log) == Reconnects(s.log)
  {
    hide LooksPermanent, LooksLimited, Reconnects, Classify, Report, After;
    ReportDecodes(Classify(msg), msg);
    LeavingStays(LoopNext(s, Report(Classify(msg), msg), true), run);
  }

  // ---- The cap is exact ----------------------------------------------------------------------------

  /** Do the attempts since the last registration use up a positive cap? */
  predicate UsedUp(log: seq<Entry>, max: int) {
    max > 0 && AttemptsSinceRegistered(log) == max
  }

  lemma LimitIsExact(handleErrors: bool, max: int, past: seq<Move>)
    ensures var s := After(Start(handleErrors, max), past);
      s.max == max && s.handleErrors == handleErrors && (LimitReached(s) <==> UsedUp(s.log, max))
  {
    hide After, AttemptsSinceRegistered;
    Reachable(handleErrors, max, past);
    SettingsKept(Start(handleErrors, max), past);
  }

  /** A server or recoverable error that Loop decides on when the cap is used up stops it for good too. */
  lemma CapStops(handleErrors: bool, max: int, past: seq<Move>, msg: string, run: seq<Move>)
    requires Classify(msg) == ServerError || Classify(msg) == RecoverableError
    requires var s := After(Start(handleErrors, max), past);
      handleErrors && s.pc == Deciding(Report(Classify(msg), msg)) && UsedUp(s.log, max)
    ensures var s := After(Start(handleErrors, max), past);
      Reconnects(After(LoopNext(s, "", true), run).log) == Reconnects(s.log)
  {
    hide LooksPermanent, LooksLimited, Reconnects, Classify, Report, After, LimitReached, UsedUp;
    LimitIsExact(handleErrors, max, past);
    ReportDecodes(Classify(msg), msg);
    LeavingStays(LoopNext(After(Start(handleErrors, max), past), "", true), run);
  }

  /** In all other cases Loop goes on to reconnect, unless the server's text itself holds a marker. */
  lemma ErrorContinuesIff(handleErrors: bool, max: int, past: seq<Move>, msg: string)
    requires var s := After(Start(handleErrors, max), past);
      s.pc == Deciding(Report(Classify(msg), msg)) && Classify(msg) != PermanentError
    ensures var s := After(Start(handleErrors, max), past);
      LoopNext(s, "", true).pc.Closing? <==>
        !handleErrors ||
        (&& !LooksPermanent(msg)
         && !(UsedUp(s.log, max) && (Classify(msg) != NetworkError || LooksLimited(msg))))
  {
    hide LooksPermanent, LooksLimited, Classify, Report, After, LimitReached, UsedUp;
    LimitIsExact(handleErrors, max, past);
    ReportDecodes(Classify(msg), msg);
  }

  /** The retry loop stops exactly when a limited error meets a used-up cap.  Otherwise it starts a
      Reconnect, having counted an attempt just for a limited error. */
  lemma RetryStopsIff(handleErrors: bool, max: int, past: seq<Move>, e: string, step: Move)
    requires step.LoopStep? && After(Start(handleErrors, max), past).pc == LimitCheck(e)
    ensures var s := After(Start(handleErrors, max), past);
      var stops := LooksLimited(e) && UsedUp(s.log, max);
      && (Play(s, step).pc == StopEmitting(e) <==> stops)
      && (stops ==> Play(Play(s, step), step).pc == Done)
      && (!stops && LooksLimited(e) ==> Play(Play(Play(s, step), step), step).log == s.log + [Attempt, Reconnecting])
      && (!LooksLimited(e) ==> Play(Play(s, step), step).log == s.log + [Reconnecting])
  {
    hide LooksPermanent, LooksLimited, After, LimitReached, UsedUp, NewEnd;
    LimitIsExact(handleErrors, max, past);
  }

  /** A Reconnect that succeeds leaves Loop waiting again, with a fresh open write channel and a new
      lifecycle for DISCONNECTED; one that fails is retried with the same error. */
  lemma ReconnectEnds(s: State, e: string, err: string)
    requires s.pc == Dialing(e) && !s.quit && Sound(s.channels)
    ensures var ok := LoopStep(err, true); var failed := LoopStep(err, false);
      var dialed := Play(Play(Play(s, ok), ok), ok);
      && Play(Play(s, failed), ok).pc == LimitCheck(e)
      && dialed.pc == Negotiating(e) && !dialed.emitted && dialed.log == s.log + [Dialed]
      && dialed.channels.pwrite.Some? && !dialed.channels.pwriteClosed
      && dialed.channels.pwrite.value !in dialed.channels.closed && dialed.channels.pwrite != s.channels.pwrite
      && Play(Play(dialed, failed), ok).pc == LimitCheck(e)
      && Play(Play(dialed, ok), ok).pc == Waiting
  {}

  // ---- Quitting ends Loop ----------------------------------------------------------------------------

  /** A bound on the steps Loop still takes once it is told to quit. */
  function Rank(pc: Pc): nat {
    match pc
    case Done => 0
    case LastEmitting => 1
    case StopEmitting(_) => 1
    case FinishEmitting(_) => 1
    case FinishClosing(_) => 2
    case OuterCheck => 2
    case InnerCheck(_) => 3
    case Closing(_) => 4
    case Negotiating(_) => 4
    case ClearingFlag(_) => 5
    case Deciding(_) => 5
    case MakingPwrite(_) => 6
    case Waiting => 6
    case Dialing(_) => 7
    case Starting(_) => 8
    case Noting(_) => 9
    case LimitCheck(_) => 10
  }

  function LoopSteps(run: seq<Move>): nat {
    if run == [] then 0 else (if run[0].LoopStep? then 1 else 0) + LoopSteps(run[1..])
  }

  lemma LoopRankFalls(s: State, err: string, ok: bool)
    requires s.quit && s.pc != Done
    ensures LoopNext(s, err, ok).quit && Rank(LoopNext(s, err, ok).pc) < Rank(s.pc)
  {
    hide LooksPermanent, LooksLimited, LimitReached, CloseEnd, NewEnd, NewPwrite, ReopenFlag;
  }

  lemma RankFalls(s: State, m: Move)
    requires s.quit
    ensures Play(s, m).quit
    ensures if m.LoopStep? && s.pc != Done then Rank(Play(s, m).pc) < Rank(s.pc) else Play(s, m).pc == s.pc
  {
    hide LoopNext, CloseEnd, Clear, NewEnd, NewPwrite, ReopenFlag, Rank;
    if m.LoopStep? {
      if s.pc == Done {
        DoneStays(s, m.err, m.ok);
      } else {
        LoopRankFalls(s, m.err, m.ok);
      }
    }
  }

  lemma DoneStays(s: State, err: string, ok: bool)
    requires s.pc == Done
    ensures LoopNext(s, err, ok) == s
  {}

  lemma {:induction false} RankBounds(s: State, run: seq<Move>)
    requires s.quit && LoopSteps(run) >= Rank(s.pc)
    ensures After(s, run).pc == Done
    decreases |run|
  {
    hide Play;
    if run != [] {
      RankFalls(s, run[0]);
      RankBounds(Play(s, run[0]), run[1..]);
    }
  }

  /** Once asked to stop, Loop returns within ten of its own steps, whatever else happens meanwhile and
      however its dials end; waiting for the next error counts as one step. */
  lemma QuitTerminates(s: State, run: seq<Move>)
    requires s.quit && LoopSteps(run) >= 10
    ensures After(s, run).pc == Done
  {
    RankBounds(s, run);
  }

  // ---- Channels are closed ---------------------------------------------------------------------------

  /** Before Loop reconnects or gives up on an error, the `end` channel it leaves behind is closed. */
  lemma EndIsClosed(handleErrors: bool, max: int, past: seq<Move>, step: Move)
    requires step.LoopStep?
    requires var pc := After(Start(handleErrors, max), past).pc; pc.Closing? || pc.FinishClosing?
    ensures var s := After(Start(handleErrors, max), past);
      var c, c' := s.channels, Play(s, step).channels;
      c'.end == c.end && (c.end.Some? ==> c.end.value in c'.closed)
  {
    hide After;
    Reachable(handleErrors, max, past);
  }

  /** The last section of Disconnect forgets both channels.  It closes the write channel exactly if its
      flag is down; `Connect` makes a new channel before it lowers the flag. */
  lemma PwriteClosedIff(handleErrors: bool, max: int, past: seq<Move>)
    ensures var s := After(Start(handleErrors, max), past);
      var c, c' := s.channels, Play(s, DisconnectClear).channels;
      && c'.end == None && c'.pwrite == None
      && (c.pwrite.Some? ==> (c.pwrite.value in c'.closed <==> !c.pwriteClosed))
  {
    hide After;
    Reachable(handleErrors, max, past);
  }

  lemma ThreeMoves(s: State, a: Move, b: Move, c: Move, rest: seq<Move>)
    ensures After(s, [a, b, c] + rest) == After(Play(Play(Play(s, a), b), c), rest)
  {
    hide Play;
    OneMove(s, a, [b, c] + rest);
    OneMove(Play(s, a), b, [c] + rest);
    OneMove(Play(Play(s, a), b), c, rest);
    assert [a, b, c] + rest == [a] + ([b, c] + rest) && [b, c] + rest == [b] + ([c] + rest);
  }

  /** Once the flag is lowered, Disconnect closes the write channel. */
  lemma PwriteClosedLater(handleErrors: bool, max: int, past: seq<Move>)
    ensures var s := After(Start(handleErrors, max), past);
      s.channels.pwrite.Some? ==>
        s.channels.pwrite.value in Play(Play(s, ConnectFlag), DisconnectClear).channels.closed
  {}

  lemma OneMove(s: State, m: Move, rest: seq<Move>)
    ensures After(s, [m] + rest) == After(Play(s, m), rest)
  {
    hide Play;
    assert ([m] + rest)[1..] == rest;
  }

  lemma NoMoves(s: State)
    ensures After(s, []) == s
  {}

  /** A first session, its Disconnect, and a second session up to its new write channel. */
  const SecondConnect: seq<Move> :=
    [ConnectDialed, ConnectPwrite, ConnectFlag] +
    ([DisconnectClose, DisconnectClear, DisconnectEmit] + ([UserReconnect, ConnectDialed, ConnectPwrite] + []))

  /** So a Disconnect at that moment loses the new channel unclosed. */
  lemma PwriteLost(handleErrors: bool, max: int)
    ensures var s := After(Start(handleErrors, max), SecondConnect);
      var c' := Play(s, DisconnectClear).channels;
      s.channels.pwrite == Some(3) && c'.pwrite == None && 3 !in c'.closed
  {
    hide After;
    var s0 := Start(handleErrors, max);
    var s3 := Play(Play(Play(s0, ConnectDialed), ConnectPwrite), ConnectFlag);
    var s6 := Play(Play(Play(s3, DisconnectClose), DisconnectClear), DisconnectEmit);
    var s9 := Play(Play(Play(s6, UserReconnect), ConnectDialed), ConnectPwrite);
    var third := [UserReconnect, ConnectDialed, ConnectPwrite] + [];
    NoMoves(s9);
    ThreeMoves(s6, UserReconnect, ConnectDialed, ConnectPwrite, []);
    ThreeMoves(s3, DisconnectClose, DisconnectClear, DisconnectEmit, third);
    ThreeMoves(s0, ConnectDialed, ConnectPwrite, ConnectFlag,
               [DisconnectClose, DisconnectClear, DisconnectEmit] + third);
  }

  // ---- The retry loop is bounded ------------------------------------------------------------------

  /** Inside the retry loop for the error e. */
  predicate Retrying(pc: Pc, e: string) {
    match pc
    case Closing(x) => x == e
    case InnerCheck(x) => x == e
    case LimitCheck(x) => x == e
    case Noting(x) => x == e
    case Starting(x) => x == e
    case Dialing(x) => x == e
    case MakingPwrite(x) => x == e
    case ClearingFlag(x) => x == e
    case Negotiating(x) => x == e
    case _ => false
  }

  /** The attempts not yet counted as started. */
  function Owed(pc: Pc): nat {
    if pc.Starting? then 1 else 0
  }

  lemma RetryPc(s: State, m: Move, e: string)
    requires Retrying(s.pc, e) && LooksLimited(e)
    ensures var effect := EffectOf(s, m); var pc' := Play(s, m).pc;
      && (Owed(pc') == if effect == Logs(Attempt) then 1 else if effect == Logs(Reconnecting) then 0 else Owed(s.pc))
      && (effect == Logs(Reconnecting) ==> Owed(s.pc) == 1)
      && (effect == Logs(Attempt) ==> Owed(s.pc) == 0)
      && (effect == Logs(Registered) ==> m == CompleteRegistration)
  {
    hide LooksPermanent, LooksLimited, CloseEnd, Clear, NewEnd, NewPwrite, ReopenFlag;
  }

  lemma RetryMove(s: State, m: Move, e: string)
    requires Retrying(s.pc, e) && LooksLimited(e) && m != CompleteRegistration
    ensures var s' := Play(s, m);
      Reconnects(s'.log) + Owed(s'.pc) - Reconnects(s.log) - Owed(s.pc) == s'.reconnects - s.reconnects
  {
    hide Play, LooksLimited, Reconnects, LogAfter;
    EffectOnLog(s, m);
    EffectOnFlags(s, m);
    EffectLogged(s, EffectOf(s, m));
    RetryPc(s, m, e);
  }

  /** While Loop retries one limited error and no registration completes, the Reconnects it starts are
      bounded by what is left of the cap, however often dialling fails. */
  lemma RetriesBounded(handleErrors: bool, max: nat, before: seq<Move>, run: seq<Move>, e: string)
    requires max > 0 && LooksLimited(e) && CompleteRegistration !in run
    requires var s := After(Start(handleErrors, max), before);
      s.pc == InnerCheck(e) && forall k | 0 <= k < |run| :: Retrying(After(s, run[..k]).pc, e)
    ensures var s := After(Start(handleErrors, max), before);
      Reconnects(After(s, run).log) - Reconnects(s.log) <= max - s.reconnects
  {
    hide After, Play, LooksLimited, Retrying, Reconnects;
    var s0 := Start(handleErrors, max);
    var s := After(s0, before);
    Reachable(handleErrors, max, before);
    RunKeeps(s, run);
    RetriesCounted(s, run, e);
    SettingsKept(s0, before);
    SettingsKept(s, run);
  }

  lemma {:induction false} RetriesCounted(s: State, run: seq<Move>, e: string)
    requires LooksLimited(e) && CompleteRegistration !in run
    requires forall k | 0 <= k < |run| :: Retrying(After(s, run[..k]).pc, e)
    ensures var s' := After(s, run);
      Reconnects(s'.log) + Owed(s'.pc) - Reconnects(s.log) - Owed(s.pc) == s'.reconnects - s.reconnects
    decreases |run|
  {
    hide Play, LooksLimited, Retrying, Reconnects;
    if run != [] {
      assert run[..0] == [] && After(s, run[..0]) == s;
      assert run[0] in run;
      RetryMove(s, run[0], e);
      var s1, rest := Play(s, run[0]), run[1..];
      forall k | 0 <= k < |rest| ensures Retrying(After(s1, rest[..k]).pc, e) {
        assert run[..k + 1][1..] == rest[..k];
        assert After(s, run[..k + 1]) == After(s1, rest[..k]);
      }
      RetriesCounted(s1, rest, e);
    }
  }
}
