/** Sending NICK and USER exactly once per session.

`sendRegistrationOnce` may be called by several goroutines of a session (the CAP LS handler, the
800 ms fallback, the path without capabilities).  It releases the mutex, may sleep, and takes the
mutex again before it writes; `Disconnect` and `Connect` may reset the registration, and `Disconnect`
may close the channel, at any point in between.  Each critical section and each channel send is one
atomic step of a caller. */
module Registration {
  import opened Text
  import W = Wire

  datatype Claim = Claim(caller: nat, nick: string, user: string, realName: string)

  datatype Pc =
    | Entering                // before the first critical section
    | Waiting(claim: Claim)   // claimed the registration; mutex released
    | Writing(claim: Claim)   // found the generation still current
    | Between(claim: Claim)   // NICK sent, USER not yet
    | Returned(ok: bool)
    | Panicked(claim: Claim)  // sent on a closed channel

  /** A caller carries the session whose channel and generation negotiateCaps captured for it. */
  datatype Caller = Caller(session: nat, pc: Pc)

  datatype Session = Session(
    generation: Option<nat>,     // set when negotiateCaps reads the counter
    claim: Option<Claim>,        // who set sentRegistration, with the values it read
    lines: seq<string>,          // registration lines written to the session's channel
    closed: bool)                // has Disconnect closed that channel?

  datatype State = State(
    generation: nat, sent: bool,
    nick: string, user: string, realName: string,
    sessions: seq<Session>, callers: seq<Caller>)

  datatype Move =
    | Reset                    // resetRegistrationStateLocked by Disconnect, at any moment
    | Open                     // Connect: reset, then a fresh channel
    | Capture                  // negotiateCaps reads the generation
    | Spawn(session: nat)      // another goroutine calls sendRegistrationOnce
    | Run(caller: nat)         // a caller takes its next step
    | Rename(nick: string)     // the desired nick changes
    | Close(session: nat)      // a Disconnect closes the channel, at any moment

  function NickLine(c: Claim): string {
    "NICK " + c.nick + "\r\n"
  }

  function UserLine(c: Claim): string {
    "USER " + c.user + " 0 * :" + c.realName + "\r\n"
  }

  /** The values a caller reads when it claims the registration; the real name defaults to the user. */
  function MakeClaim(caller: nat, nick: string, user: string, realName: string): Claim {
    Claim(caller, nick, user, if realName != "" then realName else user)
  }

  predicate Captured(sessions: seq<Session>, k: nat) {
    k < |sessions| && sessions[k].generation.Some?
  }

  /** Is the session's generation the counter's present value? */
  predicate Current(session: Session, generation: nat) {
    session.generation == Some(generation)
  }

  predicate Done(pc: Pc) {
    pc.Returned? || pc.Panicked?
  }

  predicate Allowed(s: State, m: Move) {
    match m
    case Open => s.sessions == [] || Captured(s.sessions, |s.sessions| - 1)
    case Capture => s.sessions != [] && !Captured(s.sessions, |s.sessions| - 1)
    case Spawn(k) => Captured(s.sessions, k)
    case Run(i) =>
      i < |s.callers| && !Done(s.callers[i].pc) && Captured(s.sessions, s.callers[i].session)
    case Close(k) => k < |s.sessions| && !s.sessions[k].closed
    case _ => true
  }

  function WithPc(s: State, i: nat, pc: Pc): State
    requires i < |s.callers|
  {
    s.(callers := s.callers[i := s.callers[i].(pc := pc)])
  }

  function WithSession(s: State, k: nat, session: Session): State
    requires k < |s.sessions|
  {
    s.(sessions := s.sessions[k := session])
  }

  /** One step of caller i through sendRegistrationOnce. */
  function RunStep(s: State, i: nat): State
    requires Allowed(s, Run(i))
  {
    var k := s.callers[i].session;
    var session := s.sessions[k];
    match s.callers[i].pc
    case Entering =>
      if !Current(session, s.generation) || s.sent then WithPc(s, i, Returned(false))
      else
        var claim := MakeClaim(i, s.nick, s.user, s.realName);
        WithPc(WithSession(s, k, session.(claim := Some(claim))), i, Waiting(claim)).(sent := true)
    case Waiting(claim) => WithPc(s, i, if Current(session, s.generation) then Writing(claim) else Returned(false))
    case Writing(claim) =>
      if session.closed then WithPc(s, i, Panicked(claim))
      else WithPc(WithSession(s, k, session.(lines := session.lines + [NickLine(claim)])), i, Between(claim))
    case Between(claim) =>
      if session.closed then WithPc(s, i, Panicked(claim))
      else WithPc(WithSession(s, k, session.(lines := session.lines + [UserLine(claim)])), i, Returned(true))
  }

  function Play(s: State, m: Move): State
    requires Allowed(s, m)
  {
    match m
    case Reset => s.(generation := s.generation + 1, sent := false)
    case Open =>
      s.(generation := s.generation + 1, sent := false, sessions := s.sessions + [Session(None, None, [], false)])
    case Capture =>
      var k := |s.sessions| - 1;
      WithSession(s, k, s.sessions[k].(generation := Some(s.generation)))
    case Spawn(k) => s.(callers := s.callers + [Caller(k, Entering)])
    case Run(i) => RunStep(s, i)
    case Rename(n) => s.(nick := n)
    case Close(k) => WithSession(s, k, s.sessions[k].(closed := true))
  }

  /** The fields behind the mutex, with the critical sections as methods. */
  class Registrar {
    var generation: nat
    var sent: bool
    var nick: string
    var user: string
    var realName: string

    /** These fields in a state with the given sessions and callers. */
    ghost function View(sessions: seq<Session>, callers: seq<Caller>): State
      reads this
    {
      State(generation, sent, nick, user, realName, sessions, callers)
    }

    method ResetRegistrationState(ghost sessions: seq<Session>, ghost callers: seq<Caller>)
      modifies this
      ensures View(sessions, callers) == Play(old(View(sessions, callers)), Reset)
    {
      sent := false;
      generation := generation + 1;
    }

    /** The first critical section of sendRegistrationOnce, for caller i. */
    method TryClaim(captured: nat, i: nat, ghost sessions: seq<Session>, ghost callers: seq<Caller>)
      returns (claim: Option<Claim>)
      requires Allowed(View(sessions, callers), Run(i)) && callers[i].pc == Entering
      requires sessions[callers[i].session].generation == Some(captured)
      modifies this
      ensures var s' := RunStep(old(View(sessions, callers)), i);
        && View(s'.sessions, s'.callers) == s'
        && s'.callers[i].pc == (if claim.Some? then Waiting(claim.value) else Returned(false))
    {
      if captured != generation || sent {
        return None;
      }
      var shown := user;
      if realName != "" {
        shown := realName;
      }
      sent := true;
      return Some(Claim(i, nick, user, shown));
    }

    /** The second critical section. */
    method StillCurrent(captured: nat, i: nat, ghost sessions: seq<Session>, ghost callers: seq<Caller>)
      returns (current: bool)
      requires Allowed(View(sessions, callers), Run(i)) && callers[i].pc.Waiting?
      requires sessions[callers[i].session].generation == Some(captured)
      ensures RunStep(View(sessions, callers), i).callers[i].pc
        == if current then Writing(callers[i].pc.claim) else Returned(false)
    {
      current := captured == generation;
    }
  }

  ghost predicate Runs(s: State, run: seq<Move>)
    decreases |run|
  {
    run == [] || (Allowed(s, run[0]) && Runs(Play(s, run[0]), run[1..]))
  }

  ghost function Final(s: State, run: seq<Move>): State
    requires Runs(s, run)
    decreases |run|
  {
    if run == [] then s else Final(Play(s, run[0]), run[1..])
  }

  function Start(nick: string, user: string, realName: string): State {
    State(0, false, nick, user, realName, [], [])
  }

  // ---- The invariant ---------------------------------------------------------------

  predicate Older(a: Session, b: Session, generation: nat) {
    && a.generation.Some? && a.generation.value < generation
    && (b.generation.Some? ==> a.generation.value < b.generation.value)
  }

  /** Generations grow from session to session and none is ahead of the counter. */
  ghost predicate Ordered(sessions: seq<Session>, generation: nat) {
    && (forall k | 0 <= k < |sessions| && sessions[k].generation.Some? ::
          sessions[k].generation.value <= generation)
    && (forall j, k | 0 <= j < k < |sessions| :: Older(sessions[j], sessions[k], generation))
  }

  predicate FlagOk(session: Session, generation: nat, sent: bool) {
    && (Current(session, generation) ==> (sent <==> session.claim.Some?))
    && (session.generation.None? ==> session.claim.None?)
  }

  /** The flag is up exactly when the current generation's session is claimed. */
  ghost predicate FlagMeansClaim(sessions: seq<Session>, generation: nat, sent: bool) {
    && (forall k | 0 <= k < |sessions| :: FlagOk(sessions[k], generation, sent))
    && (sent ==> exists k | 0 <= k < |sessions| :: Current(sessions[k], generation))
  }

  /** What a session's channel holds is determined by how far its claimant has come. */
  predicate LinesMatch(session: Session, pc: Pc) {
    session.claim.Some? &&
    var c := session.claim.value;
    match pc
    case Entering => false
    case Waiting(claim) => claim == c && session.lines == []
    case Writing(claim) => claim == c && session.lines == []
    case Between(claim) => claim == c && session.lines == [NickLine(c)]
    case Panicked(claim) => claim == c && (session.lines == [] || session.lines == [NickLine(c)])
    case Returned(ok) => session.lines == if ok then [NickLine(c), UserLine(c)] else []
  }

  predicate SessionOk(session: Session, k: nat, callers: seq<Caller>) {
    match session.claim
    case None => session.lines == []
    case Some(c) =>
      && c.caller < |callers| && callers[c.caller].session == k
      && LinesMatch(session, callers[c.caller].pc)
  }

  predicate OwnsClaim(session: Session, i: nat) {
    session.claim.Some? && session.claim.value.caller == i
  }

  predicate CallerOk(caller: Caller, i: nat, sessions: seq<Session>) {
    && Captured(sessions, caller.session)
    && (OwnsClaim(sessions[caller.session], i) || caller.pc == Entering || caller.pc == Returned(false))
  }

  ghost predicate ClaimsMatch(sessions: seq<Session>, callers: seq<Caller>) {
    && (forall k | 0 <= k < |sessions| :: SessionOk(sessions[k], k, callers))
    && (forall i | 0 <= i < |callers| :: CallerOk(callers[i], i, sessions))
  }

  /** While its generation is current, a session somebody has returned to is claimed, and the claimant
      has not given up. */
  predicate NotIdle(caller: Caller, i: nat, sessions: seq<Session>, generation: nat) {
    caller.session < |sessions| &&
    var session := sessions[caller.session];
    Current(session, generation) ==>
      && (caller.pc.Returned? ==> session.claim.Some?)
      && (OwnsClaim(session, i) ==> caller.pc != Returned(false))
  }

  ghost predicate NoIdleFailure(sessions: seq<Session>, callers: seq<Caller>, generation: nat) {
    forall i | 0 <= i < |callers| :: NotIdle(callers[i], i, sessions, generation)
  }

  ghost predicate Invariant(s: State) {
    && Ordered(s.sessions, s.generation)
    && FlagMeansClaim(s.sessions, s.generation, s.sent)
    && ClaimsMatch(s.sessions, s.callers)
    && NoIdleFailure(s.sessions, s.callers, s.generation)
  }

  // ---- One lemma per part of the invariant and kind of move ---------------------------

  /** A caller's step touches its own entry and its own session, and no generation. */
  predicate Frame(s: State, s': State, i: nat)
    requires i < |s.callers| && s.callers[i].session < |s.sessions|
  {
    var k := s.callers[i].session;
    && s'.generation == s.generation && |s'.sessions| == |s.sessions| && |s'.callers| == |s.callers|
    && (forall j | 0 <= j < |s.sessions| && j != k :: s'.sessions[j] == s.sessions[j])
    && s'.sessions[k].generation == s.sessions[k].generation
    && (forall j | 0 <= j < |s.callers| && j != i :: s'.callers[j] == s.callers[j])
    && s'.callers[i].session == k
  }

  lemma StepFrame(s: State, i: nat)
    requires Allowed(s, Run(i))
    ensures Frame(s, RunStep(s, i), i)
  {
    hide NickLine, UserLine;
  }

  /** The effect of the step on the caller and its session, under the invariant. */
  lemma StepLocal(s: State, i: nat)
    requires Allowed(s, Run(i)) && Invariant(s)
    ensures var s' := RunStep(s, i); var k := s.callers[i].session;
      var before := s.sessions[k]; var after := s'.sessions[k];
      && (before.claim.Some? ==> after.claim == before.claim)
      && (after.claim.None? ==> after.lines == [] && s'.callers[i].pc == Returned(false)
                                && !Current(before, s.generation))
      && (OwnsClaim(after, i) ==> LinesMatch(after, s'.callers[i].pc))
      && (after.claim.Some? && !OwnsClaim(after, i) ==>
            after == before && s'.callers[i].pc == Returned(false))
      && (OwnsClaim(after, i) && s'.callers[i].pc == Returned(false) ==> !Current(before, s.generation))
      && (s'.sent == (s.sent || after.claim != before.claim))
      && (after.claim != before.claim ==> Current(before, s.generation))
  {
    hide NickLine, UserLine, Ordered, NotIdle;
    var k := s.callers[i].session;
    assert CallerOk(s.callers[i], i, s.sessions);
    assert SessionOk(s.sessions[k], k, s.callers);
    assert FlagOk(s.sessions[k], s.generation, s.sent);
  }

  lemma StepOrdered(s: State, i: nat)
    requires Allowed(s, Run(i)) && Invariant(s)
    ensures Ordered(RunStep(s, i).sessions, s.generation)
  {
    hide RunStep;
    StepFrame(s, i);
    var s' := RunStep(s, i);
    assert forall j | 0 <= j < |s.sessions| :: s'.sessions[j].generation == s.sessions[j].generation;
    forall j, k | 0 <= j < k < |s'.sessions|
      ensures Older(s'.sessions[j], s'.sessions[k], s.generation)
    {
      assert Older(s.sessions[j], s.sessions[k], s.generation);
    }
  }

  lemma StepFlag(s: State, i: nat)
    requires Allowed(s, Run(i)) && Invariant(s)
    ensures var s' := RunStep(s, i); FlagMeansClaim(s'.sessions, s'.generation, s'.sent)
  {
    hide RunStep, ClaimsMatch, NoIdleFailure, LinesMatch;
    StepFrame(s, i);
    StepLocal(s, i);
    var s' := RunStep(s, i);
    var k := s.callers[i].session;
    forall j | 0 <= j < |s'.sessions|
      ensures FlagOk(s'.sessions[j], s'.generation, s'.sent)
    {
      assert FlagOk(s.sessions[j], s.generation, s.sent);
      assert j < k ==> Older(s.sessions[j], s.sessions[k], s.generation);
      assert k < j ==> Older(s.sessions[k], s.sessions[j], s.generation);
    }
    if s.sent {
      var j :| 0 <= j < |s.sessions| && Current(s.sessions[j], s.generation);
      assert Current(s'.sessions[j], s'.generation);
    } else if s'.sent {
      assert Current(s'.sessions[k], s'.generation);
    }
  }

  lemma StepClaims(s: State, i: nat)
    requires Allowed(s, Run(i)) && Invariant(s)
    ensures var s' := RunStep(s, i);
      && ClaimsMatch(s'.sessions, s'.callers)
      && NoIdleFailure(s'.sessions, s'.callers, s'.generation)
  {
    hide RunStep, LinesMatch, FlagMeansClaim, Ordered;
    StepFrame(s, i);
    StepLocal(s, i);
    var s' := RunStep(s, i);
    var k := s.callers[i].session;
    forall j | 0 <= j < |s'.sessions|
      ensures SessionOk(s'.sessions[j], j, s'.callers)
    {
      assert SessionOk(s.sessions[j], j, s.callers);
    }
    forall j | 0 <= j < |s'.callers|
      ensures CallerOk(s'.callers[j], j, s'.sessions)
      ensures NotIdle(s'.callers[j], j, s'.sessions, s'.generation)
    {
      assert CallerOk(s.callers[j], j, s.sessions);
      assert NotIdle(s.callers[j], j, s.sessions, s.generation);
    }
  }

  lemma ResetKeeps(s: State, generation: nat)
    requires Invariant(s) && generation == s.generation + 1
    ensures Ordered(s.sessions, generation) && FlagMeansClaim(s.sessions, generation, false)
    ensures NoIdleFailure(s.sessions, s.callers, generation)
    ensures forall k | 0 <= k < |s.sessions| && s.sessions[k].generation.Some? ::
              s.sessions[k].generation.value < generation
  {
    forall j, k | 0 <= j < k < |s.sessions|
      ensures Older(s.sessions[j], s.sessions[k], generation)
    {
      assert Older(s.sessions[j], s.sessions[k], s.generation);
    }
    forall k | 0 <= k < |s.sessions|
      ensures FlagOk(s.sessions[k], generation, false)
    {
      assert FlagOk(s.sessions[k], s.generation, s.sent);
    }
    forall i | 0 <= i < |s.callers|
      ensures NotIdle(s.callers[i], i, s.sessions, generation)
    {
      assert NotIdle(s.callers[i], i, s.sessions, s.generation);
    }
  }

  lemma OpenKeeps(s: State)
    requires Invariant(s) && Allowed(s, Open)
    ensures Invariant(Play(s, Open))
  {
    hide LinesMatch;
    ResetKeeps(s, s.generation + 1);
    var s' := Play(s, Open);
    var n := |s.sessions|;
    assert forall j | 0 <= j < n :: s'.sessions[j] == s.sessions[j];
    forall j, k | 0 <= j < k < |s'.sessions|
      ensures Older(s'.sessions[j], s'.sessions[k], s'.generation)
    {
      if k < n {
        assert Older(s.sessions[j], s.sessions[k], s.generation);
      } else if j < n - 1 {
        assert Older(s.sessions[j], s.sessions[n - 1], s.generation);
      }
    }
    forall j | 0 <= j < n ensures SessionOk(s'.sessions[j], j, s'.callers) {
      assert SessionOk(s.sessions[j], j, s.callers);
    }
    forall i | 0 <= i < |s.callers|
      ensures CallerOk(s'.callers[i], i, s'.sessions)
      ensures NotIdle(s'.callers[i], i, s'.sessions, s'.generation)
    {
      assert CallerOk(s.callers[i], i, s.sessions);
      assert NotIdle(s.callers[i], i, s.sessions, s.generation + 1);
    }
  }

  lemma CaptureKeeps(s: State)
    requires Invariant(s) && Allowed(s, Capture)
    ensures Invariant(Play(s, Capture))
  {
    hide LinesMatch;
    var k := |s.sessions| - 1;
    var s' := Play(s, Capture);
    assert forall j | 0 <= j < k :: s'.sessions[j] == s.sessions[j];
    assert FlagOk(s.sessions[k], s.generation, s.sent);
    forall j | 0 <= j < k
      ensures Older(s'.sessions[j], s'.sessions[k], s'.generation)
    {
      assert Older(s.sessions[j], s.sessions[k], s.generation);
    }
    forall j | 0 <= j <= k
      ensures FlagOk(s'.sessions[j], s'.generation, s'.sent) && SessionOk(s'.sessions[j], j, s'.callers)
    {
      assert FlagOk(s.sessions[j], s.generation, s.sent) && SessionOk(s.sessions[j], j, s.callers);
    }
    assert Current(s'.sessions[k], s'.generation);
    forall i | 0 <= i < |s.callers|
      ensures CallerOk(s'.callers[i], i, s'.sessions)
      ensures NotIdle(s'.callers[i], i, s'.sessions, s'.generation)
    {
      assert CallerOk(s.callers[i], i, s.sessions);
      assert NotIdle(s.callers[i], i, s.sessions, s.generation);
    }
  }

  lemma SpawnKeeps(s: State, k: nat)
    requires Invariant(s) && Allowed(s, Spawn(k))
    ensures Invariant(Play(s, Spawn(k)))
  {
    hide LinesMatch;
    var s' := Play(s, Spawn(k));
    forall j | 0 <= j < |s.sessions| ensures SessionOk(s'.sessions[j], j, s'.callers) {
      assert SessionOk(s.sessions[j], j, s.callers);
    }
    assert s'.callers[|s.callers|] == Caller(k, Entering);
    assert !OwnsClaim(s.sessions[k], |s.callers|) by {
      assert SessionOk(s.sessions[k], k, s.callers);
    }
    forall i | 0 <= i < |s'.callers|
      ensures CallerOk(s'.callers[i], i, s'.sessions)
      ensures NotIdle(s'.callers[i], i, s'.sessions, s'.generation)
    {
      if i < |s.callers| {
        assert CallerOk(s.callers[i], i, s.sessions);
        assert NotIdle(s.callers[i], i, s.sessions, s.generation);
      }
    }
  }

  lemma CloseKeeps(s: State, k: nat)
    requires Invariant(s) && Allowed(s, Close(k))
    ensures Invariant(Play(s, Close(k)))
  {
    hide LinesMatch;
    var s' := Play(s, Close(k));
    assert forall j | 0 <= j < |s.sessions| :: s'.sessions[j].(closed := false) == s.sessions[j].(closed := false);
    forall i, j | 0 <= i < j < |s'.sessions|
      ensures Older(s'.sessions[i], s'.sessions[j], s'.generation)
    {
      assert Older(s.sessions[i], s.sessions[j], s.generation);
    }
    forall j | 0 <= j < |s.sessions|
      ensures FlagOk(s'.sessions[j], s'.generation, s'.sent) && SessionOk(s'.sessions[j], j, s'.callers)
    {
      assert FlagOk(s.sessions[j], s.generation, s.sent) && SessionOk(s.sessions[j], j, s.callers);
      ClosingKeepsLines(s.sessions[j], s'.sessions[j]);
    }
    if s.sent {
      var j :| 0 <= j < |s.sessions| && Current(s.sessions[j], s.generation);
      assert Current(s'.sessions[j], s'.generation);
    }
    forall i | 0 <= i < |s.callers|
      ensures CallerOk(s'.callers[i], i, s'.sessions)
      ensures NotIdle(s'.callers[i], i, s'.sessions, s'.generation)
    {
      assert CallerOk(s.callers[i], i, s.sessions);
      assert NotIdle(s.callers[i], i, s.sessions, s.generation);
    }
  }

  lemma ClosingKeepsLines(a: Session, b: Session)
    requires a.(closed := b.closed) == b
    ensures forall pc :: LinesMatch(a, pc) ==> LinesMatch(b, pc)
  {}

  lemma MoveKeeps(s: State, m: Move)
    requires Invariant(s) && Allowed(s, m)
    ensures Invariant(Play(s, m))
  {
    hide RunStep, Ordered, FlagMeansClaim, ClaimsMatch, NoIdleFailure;
    match m {
      case Run(i) =>
        StepFrame(s, i);
        StepOrdered(s, i);
        StepFlag(s, i);
        StepClaims(s, i);
      case Reset => ResetKeeps(s, s.generation + 1);
      case Open => OpenKeeps(s);
      case Capture => CaptureKeeps(s);
      case Spawn(k) => SpawnKeeps(s, k);
      case Close(k) => CloseKeeps(s, k);
      case Rename(_) =>
    }
  }

  lemma StartInvariant(nick: string, user: string, realName: string)
    ensures Invariant(Start(nick, user, realName))
  {}

  lemma {:induction false} RunKeeps(s: State, run: seq<Move>)
    requires Invariant(s) && Runs(s, run)
    ensures Invariant(Final(s, run))
    decreases |run|
  {
    hide Play, Allowed, Invariant;
    if run != [] {
      MoveKeeps(s, run[0]);
      RunKeeps(Play(s, run[0]), run[1..]);
    }
  }

  // ---- Results -----------------------------------------------------------------------

  /** The channel of every session of every run holds nothing, one NICK line, or that NICK line
      followed by its USER line, all written by one caller of that session. */
  lemma AtMostOneRegistration(nick: string, user: string, realName: string, run: seq<Move>, k: nat)
    requires Runs(Start(nick, user, realName), run)
    requires k < |Final(Start(nick, user, realName), run).sessions|
    ensures var s := Final(Start(nick, user, realName), run);
      var session := s.sessions[k];
      session.lines != [] ==>
        && session.claim.Some?
        && var c := session.claim.value;
        && c.caller < |s.callers| && s.callers[c.caller].session == k
        && session.lines <= [NickLine(c), UserLine(c)]
  {
    hide Play, Allowed, NickLine, UserLine;
    var s0 := Start(nick, user, realName);
    RunKeeps(s0, run);
    var s := Final(s0, run);
    assert SessionOk(s.sessions[k], k, s.callers);
  }

  /** If the session's generation was never reset, then a caller that reports success has written the
      whole pair, and once every caller of the session has returned (at least one having called)
      the channel holds the pair exactly once. */
  lemma ExactlyOneRegistration(nick: string, user: string, realName: string, run: seq<Move>, k: nat, i: nat)
    requires Runs(Start(nick, user, realName), run)
    requires var s := Final(Start(nick, user, realName), run);
      && k < |s.sessions| && Current(s.sessions[k], s.generation)
      && i < |s.callers| && s.callers[i].session == k
      && (s.callers[i].pc == Returned(true) ||
            forall j | 0 <= j < |s.callers| && s.callers[j].session == k :: s.callers[j].pc.Returned?)
    ensures var session := Final(Start(nick, user, realName), run).sessions[k];
      && session.claim.Some?
      && session.lines == [NickLine(session.claim.value), UserLine(session.claim.value)]
  {
    hide Play, Allowed, NickLine, UserLine;
    var s0 := Start(nick, user, realName);
    RunKeeps(s0, run);
    var s := Final(s0, run);
    assert NotIdle(s.callers[i], i, s.sessions, s.generation);
    assert CallerOk(s.callers[i], i, s.sessions);
    assert SessionOk(s.sessions[k], k, s.callers);
    var c := s.sessions[k].claim.value.caller;
    assert NotIdle(s.callers[c], c, s.sessions, s.generation);
  }

  // ---- What is written --------------------------------------------------------------------

  /** The desired nick when caller i takes its first step, read off the moves alone. */
  function NickAtFirstStep(nick: string, run: seq<Move>, i: nat): string
    decreases |run|
  {
    if run == [] then nick
    else
      match run[0]
      case Run(j) => if j == i then nick else NickAtFirstStep(nick, run[1..], i)
      case Rename(n) => NickAtFirstStep(n, run[1..], i)
      case _ => NickAtFirstStep(nick, run[1..], i)
  }

  /** Caller i has not taken a step. */
  predicate Fresh(s: State, i: nat) {
    i < |s.callers| ==> s.callers[i].pc == Entering
  }

  function ClaimOf(s: State, k: nat): Option<Claim> {
    if k < |s.sessions| then s.sessions[k].claim else None
  }

  /** A move makes a claim only as the first step of the claimant, from the values of that moment. */
  lemma ClaimMade(s: State, m: Move, k: nat)
    requires Invariant(s) && Allowed(s, m)
    ensures ClaimOf(s, k).Some? ==> ClaimOf(Play(s, m), k) == ClaimOf(s, k)
    ensures ClaimOf(s, k).None? && ClaimOf(Play(s, m), k).Some? ==>
      && m.Run? && Fresh(s, m.caller)
      && ClaimOf(Play(s, m), k).value ==
           Claim(m.caller, s.nick, s.user, if s.realName == "" then s.user else s.realName)
  {
    hide NickLine, UserLine, Ordered, NotIdle, SessionOk;
    if m.Run? {
      assert FlagOk(s.sessions[s.callers[m.caller].session], s.generation, s.sent);
    }
  }

  lemma FreshMove(s: State, m: Move, i: nat)
    requires Allowed(s, m) && Fresh(Play(s, m), i)
    ensures Fresh(s, i) && m != Run(i)
  {
    hide NickLine, UserLine, MakeClaim;
  }

  lemma UserStays(s: State, m: Move)
    requires Allowed(s, m)
    ensures Play(s, m).user == s.user && Play(s, m).realName == s.realName
    ensures Play(s, m).nick == if m.Rename? then m.nick else s.nick
  {
    hide NickLine, UserLine, MakeClaim;
  }

  lemma {:induction false} ClaimStays(s: State, run: seq<Move>, k: nat)
    requires Invariant(s) && Runs(s, run) && ClaimOf(s, k).Some?
    ensures ClaimOf(Final(s, run), k) == ClaimOf(s, k)
    decreases |run|
  {
    hide Play, Allowed, Invariant, ClaimOf;
    if run != [] {
      MoveKeeps(s, run[0]);
      ClaimMade(s, run[0], k);
      ClaimStays(Play(s, run[0]), run[1..], k);
    }
  }

  lemma {:induction false} ClaimContent(s: State, run: seq<Move>, k: nat)
    requires Invariant(s) && Runs(s, run) && ClaimOf(s, k).None? && ClaimOf(Final(s, run), k).Some?
    ensures var c := ClaimOf(Final(s, run), k).value;
      && Fresh(s, c.caller)
      && c == Claim(c.caller, NickAtFirstStep(s.nick, run, c.caller), s.user,
                    if s.realName == "" then s.user else s.realName)
    decreases |run|
  {
    hide Play, Allowed, Invariant, ClaimOf, Fresh;
    if run != [] {
      var s' := Play(s, run[0]);
      MoveKeeps(s, run[0]);
      ClaimMade(s, run[0], k);
      UserStays(s, run[0]);
      if ClaimOf(s', k).Some? {
        ClaimStays(s', run[1..], k);
      } else {
        ClaimContent(s', run[1..], k);
        FreshMove(s, run[0], ClaimOf(Final(s', run[1..]), k).value.caller);
      }
    }
  }

  lemma RegistrationLines(c: Claim)
    requires W.ValidMiddle(c.nick) && W.ValidMiddle(c.user)
    ensures var r := W.Parse(NickLine(c));
      r.Parsed? && r.event.code == "NICK" && r.event.arguments == [c.nick]
    ensures var r := W.Parse(UserLine(c));
      r.Parsed? && r.event.code == "USER" && r.event.arguments == [c.user, "0", "*", c.realName]
  {
    hide W.Parse, W.Body;
    NickPrints(c);
    UserPrints(c);
    var nick := W.Message(None, "NICK", [c.nick], None);
    var user := W.Message(None, "USER", [c.user, "0", "*"], Some(c.realName));
    assert ToUpper("NICK") == "NICK" && ToUpper("USER") == "USER";
    W.ParsePrint(nick);
    W.ParsePrint(user);
  }

  lemma NickPrints(c: Claim)
    ensures W.Print(W.Message(None, "NICK", [c.nick], None)) == NickLine(c)
  {
    assert (["NICK"] + [c.nick])[1..] == [c.nick];
    assert Join(["NICK"] + [c.nick], ' ') == "NICK" + [' '] + c.nick;
  }

  lemma UserPrints(c: Claim)
    ensures W.Print(W.Message(None, "USER", [c.user, "0", "*"], Some(c.realName))) == UserLine(c)
  {
    var parts := ["USER"] + [c.user, "0", "*"];
    assert parts[1..] == [c.user, "0", "*"] && parts[1..][1..] == ["0", "*"] && parts[1..][1..][1..] == ["*"];
    assert Join(["0", "*"], ' ') == "0 *";
    assert Join([c.user, "0", "*"], ' ') == c.user + [' '] + "0 *";
    assert Join(parts, ' ') == "USER" + [' '] + (c.user + [' '] + "0 *");
  }

  /** What the server reads on the channel of a session with a complete registration: the nick desired when
      the claimant took its first step, the user, and the real name, which defaults to the user. */
  lemma RegistrationContent(nick: string, user: string, realName: string, run: seq<Move>, k: nat)
    requires Runs(Start(nick, user, realName), run)
    requires k < |Final(Start(nick, user, realName), run).sessions|
    ensures var session := Final(Start(nick, user, realName), run).sessions[k];
      session.lines != [] ==>
        && session.claim.Some?
        && var i := session.claim.value.caller;
        && var wish := NickAtFirstStep(nick, run, i);
        && (W.ValidMiddle(wish) && W.ValidMiddle(user) ==>
              && Says(session.lines[0], "NICK", [wish])
              && (|session.lines| > 1 ==>
                    Says(session.lines[1], "USER", [user, "0", "*", if realName == "" then user else realName])))
  {
    hide Play, Allowed, W.Parse, NickLine, UserLine, W.ValidMiddle, Invariant;
    var s0 := Start(nick, user, realName);
    StartInvariant(nick, user, realName);
    AtMostOneRegistration(nick, user, realName, run, k);
    var session := Final(s0, run).sessions[k];
    if session.lines != [] {
      ClaimContent(s0, run, k);
      if W.ValidMiddle(session.claim.value.nick) && W.ValidMiddle(user) {
        RegistrationLines(session.claim.value);
      }
    }
  }

  /** The line parses as this command with these arguments. */
  predicate Says(line: string, command: string, arguments: seq<string>) {
    var r := W.Parse(line);
    r.Parsed? && r.event.code == command && r.event.arguments == arguments
  }

  /** Was the counter moved on since the session's negotiation read it? */
  predicate Stale(s: State, k: nat) {
    Captured(s.sessions, k) && s.sessions[k].generation.value < s.generation
  }

  predicate Unwritten(caller: Caller, k: nat) {
    caller.session == k ==> !caller.pc.Writing? && !caller.pc.Between?
  }

  /** After a reset no caller of an older generation starts writing: the channel stays as it is
      unless its claimant had already passed the second check. */
  lemma {:induction false} ResetSilences(s: State, run: seq<Move>, k: nat)
    requires Runs(s, run) && Stale(s, k)
    requires forall i | 0 <= i < |s.callers| :: Unwritten(s.callers[i], k)
    ensures k < |Final(s, run).sessions| && Final(s, run).sessions[k].lines == s.sessions[k].lines
    decreases |run|
  {
    hide Play, Allowed;
    if run != [] {
      SilentMove(s, run[0], k);
      ResetSilences(Play(s, run[0]), run[1..], k);
    }
  }

  lemma SilentMove(s: State, m: Move, k: nat)
    requires Allowed(s, m) && Stale(s, k)
    requires forall i | 0 <= i < |s.callers| :: Unwritten(s.callers[i], k)
    ensures var s' := Play(s, m);
      && Stale(s', k) && s'.sessions[k].lines == s.sessions[k].lines
      && (forall i | 0 <= i < |s'.callers| :: Unwritten(s'.callers[i], k))
  {
    hide NickLine, UserLine;
  }

  // ---- Sending on a closed channel ------------------------------------------------------

  /** Has the caller passed the second check, or can it still pass both? */
  predicate Exposed(s: State, i: nat)
    requires i < |s.callers| && s.callers[i].session < |s.sessions|
  {
    var current := Current(s.sessions[s.callers[i].session], s.generation);
    match s.callers[i].pc
    case Entering => current && !s.sent
    case Waiting(_) => current
    case Writing(_) => true
    case Between(_) => true
    case _ => false
  }

  /** Caller i of a closed session is not going to send. */
  predicate Safe(s: State, i: nat) {
    && i < |s.callers| && Captured(s.sessions, s.callers[i].session)
    && s.sessions[s.callers[i].session].generation.value <= s.generation
    && !s.callers[i].pc.Panicked? && !Exposed(s, i)
  }

  lemma SafeMove(s: State, m: Move, i: nat)
    requires Safe(s, i) && Allowed(s, m)
    ensures Safe(Play(s, m), i)
  {
    hide NickLine, UserLine, MakeClaim;
  }

  lemma {:induction false} SafeRun(s: State, run: seq<Move>, i: nat)
    requires Safe(s, i) && Runs(s, run)
    ensures Safe(Final(s, run), i)
    decreases |run|
  {
    hide Play, Allowed, Safe;
    if run != [] {
      SafeMove(s, run[0], i);
      SafeRun(Play(s, run[0]), run[1..], i);
    }
  }

  ghost predicate PanicsAfter(s: State, run: seq<Move>, i: nat) {
    Runs(s, run) && i < |Final(s, run).callers| && Final(s, run).callers[i].pc.Panicked?
  }

  lemma PanicsEarlier(s: State, i: nat, run: seq<Move>)
    requires Allowed(s, Run(i)) && PanicsAfter(Play(s, Run(i)), run, i)
    ensures PanicsAfter(s, [Run(i)] + run, i)
  {
    hide Play, Allowed;
    assert ([Run(i)] + run)[1..] == run;
  }

  /** Taking its own steps, an exposed caller of a closed session panics. */
  lemma {:induction false} ExposedPanics(s: State, i: nat) returns (run: seq<Move>)
    requires i < |s.callers| && Captured(s.sessions, s.callers[i].session)
    requires s.sessions[s.callers[i].session].closed && Exposed(s, i)
    ensures PanicsAfter(s, run, i)
    decreases match s.callers[i].pc case Entering => 2 case Waiting(_) => 1 case _ => 0
  {
    hide NickLine, UserLine, PanicsAfter;
    run := [];
    if s.callers[i].pc.Entering? || s.callers[i].pc.Waiting? {
      run := ExposedPanics(Play(s, Run(i)), i);
    } else {
      PanickedNow(Play(s, Run(i)), i);
    }
    PanicsEarlier(s, i, run);
    run := [Run(i)] + run;
  }

  lemma PanickedNow(s: State, i: nat)
    requires i < |s.callers| && s.callers[i].pc.Panicked?
    ensures PanicsAfter(s, [], i)
  {}

  /** Exactly when a send on a closed channel can still happen.  In every reachable state, a caller of a
      closed session may go on to panic if and only if it has passed the second check, or holds the
      claim of the current generation, or can still get that claim. */
  lemma PanicReachableIff(nick: string, user: string, realName: string, past: seq<Move>, i: nat)
    requires Runs(Start(nick, user, realName), past)
    requires var s := Final(Start(nick, user, realName), past);
      && i < |s.callers| && Captured(s.sessions, s.callers[i].session)
      && s.sessions[s.callers[i].session].closed && !s.callers[i].pc.Panicked?
    ensures var s := Final(Start(nick, user, realName), past);
      (exists run :: PanicsAfter(s, run, i)) <==> Exposed(s, i)
  {
    hide Play, Allowed, NickLine, UserLine, ClaimsMatch, FlagMeansClaim, NoIdleFailure, Exposed, Start;
    StartInvariant(nick, user, realName);
    RunKeeps(Start(nick, user, realName), past);
    var s := Final(Start(nick, user, realName), past);
    if Exposed(s, i) {
      var run := ExposedPanics(s, i);
    } else {
      forall run | PanicsAfter(s, run, i) ensures false {
        SafeRun(s, run, i);
      }
    }
  }

  /** Such a run exists: the connection is closed between the second check and the send. */
  lemma DisconnectDuringWritePanics(nick: string, user: string, realName: string)
    ensures PanicsAfter(Start(nick, user, realName),
              [Open, Capture, Spawn(0), Run(0), Run(0), Reset, Close(0), Run(0)], 0)
  {
    hide NickLine, UserLine;
    var s0 := Start(nick, user, realName);
    var s3 := Play(Play(Play(s0, Open), Capture), Spawn(0));
    var s7 := Play(Play(Play(Play(s3, Run(0)), Run(0)), Reset), Close(0));
    PanickedNow(Play(s7, Run(0)), 0);
    PanicsEarlier(s7, 0, []);
  }
}
