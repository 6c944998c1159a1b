# A verified model of go-ircevo

go-ircevo is an IRC client library in Go. Its hard logic sits in one `Connection` object that the
server, the user and several goroutines change. This project models that logic in Dafny and proves what
it promises over every input and every interleaving.

| file | what it models |
|---|---|
| `Text.dfy` | the part of Go's `strings` package in use |
| `NickRules.dfy` | casemapping and grammar of nicknames, the generator of alternatives |
| `NickClient.dfy` | the nickname and registration state of a connection and its handlers |
| `NickEffects.dfy` | what those handlers do to the user's wishes and to the reported status |
| `NickAgreement.dfy` | that client, FIFO queues and a server that keeps nicks unique |
| `NickQuiescence.dfy` | what is still pending when everything has been answered |
| `NickWire.dfy` | the same protocol over the text of the lines |
| `Registration.dfy` | concurrent callers of `sendRegistrationOnce` and resets at any moment |
| `ErrorClass.dfy` | classification of ERROR texts and its encoding in an error string |
| `Lifecycle.dfy` | `Loop` as a thread beside concurrent `Disconnect`, `Connect` and `Quit` calls |
| `Tags.dfy` | escaping and splitting of IRCv3 message tags |
| `Wire.dfy` | the line parser, the printers, CTCP decoding |
| `Registry.dfy` | the callback registry and the cleanup after capability negotiation |

`dafny verify dfyconfig.toml` checks all of it.

## How to read the model

- A Go string is a sequence of bytes. A byte is the Dafny character with the same code, so a statement
  about all strings covers all byte strings. Upper and lower casing is ASCII.
- A handler holds the connection's mutex from start to end and the dispatcher waits for it, so one handler
  call is one step. Code that releases the mutex is several steps: the line of a `Nick()` call is written
  after the state changed, a caller of `sendRegistrationOnce` takes four steps, `Loop` has a program
  counter, and `Connect` replaces the write channel and clears its flag separately, since it does so
  unlocked.
- Where an object is changed in place there is a class, and each of its methods is proved against a step
  function on values. The results about whole runs are lemmas about those step functions.
- A DISCONNECTED event counts as emitted in the critical section that claims it. The callbacks for it
  start after that section.
- Time is a parameter of each step, in nanoseconds.
- The Go type `Connection` is one object. Three classes show the fields each part of the model works on.
  `NickClient.Connection` has the nicks, the change in progress, the connected flag, the step count and
  the reconnect counter. `Registration.Registrar` has the generation, the sent flag, the desired nick, the
  user and the real name. `Lifecycle.Connection` has the channels, the quit latch, the DISCONNECTED flag
  and the reconnect counter. Two fields occur twice. The desired nick of `Registrar` is the one of
  `NickClient`; a change of it is the move `Rename`. The reconnect counter is counted up in `Lifecycle` and
  zeroed by `NickClient.Connection.MarkFullyConnected`; a registration is a move of `Lifecycle` that
  zeroes it there. `resetRegistrationStateLocked` touches two of the classes. Its method in `NickClient` clears
  the nick and step fields, its method in `Registrar` lowers the sent flag and moves the generation on;
  the Go method does both in one critical section.
- The line of a registration is read when it is claimed and written later or, after a reset, not at all,
  so in `NickAgreement` it waits in a queue of its own.

## What does not hold as one might expect

- Tag values: unescaping by five successive replacements is wrong for a value in which a backslash stands
  before `:`, `s`, `r` or `n`. `Tags.UnescapeEscape` gives the exact outcome for every value and
  `Tags.EscapeRoundTripIff` the exact condition.
- Parsing: a line that is a tag block, one space and nothing else is indexed out of range
  (`Wire.PanicsIff`).
- Error classes: the class of an ERROR travels as a substring of an error text, so a server text that
  contains a marker itself is misread. `ErrorClass.ReportDecodes` says exactly when.
- Nick agreement: if a failed validation cleared the fully-connected flag and the server then rejects the
  nick we hold, the client leaves that nick alone (`NickAgreement.ImpoliteLapseDisagrees`, a run of a new
  client). A delivery keeps the agreement exactly if it is not such a rejection
  (`NickAgreement.LastDeliveryAgreesIff`), and `NickAgreement.Agreement` holds if none occurs.
- Own renames: a NICK message is recognised as ours exactly if its source is nick!user@host with the nick
  we hold (`NickWire.NickLineEffect`). A bare nick, or a nick and user without host, is not enough
  (`NickWire.BareSourceIgnored`), so the server of the text protocol sends the full source.
- Pending changes: with recovery on, a rejection of a nick that the user has meanwhile replaced leaves the
  change marked as in progress with nothing under way (`NickQuiescence.RejectionLeavesFlag`, a run of a new
  client). The client comes to rest exactly if the last delivery is not such a rejection
  (`NickQuiescence.LastAnswerSettlesIff`). With recovery off none is.
- 001: a line that is just `001` after its tags and source is indexed out of range by the handler
  (`NickWire.WelcomePanicsIff`).
- Registration: `sendRegistrationOnce` sends without looking whether the channel is still open, so a
  `Disconnect` in the meantime makes it panic (`Registration.DisconnectDuringWritePanics`).
  `Registration.PanicReachableIff` says for every reachable state which callers this can happen to.
- Write channels: `Connect` replaces the channel before it lowers its closed flag, so a `Disconnect` in
  between forgets the new channel without closing it (`Lifecycle.PwriteLost`). `Lifecycle.PwriteClosedIff` is
  the exact condition.
- Alternatives: a server that goes on refusing is offered the same two nicks for ever
  (`NickRules.OrbitAlternates`).
- The comment on `generateAlternativeNick` speaks of a prepended underscore for long nicks. The code
  replaces the last byte instead, and the model follows the code.

## Model

| member | source | states |
|---|---|---|
| `NickRules.CanonicalizeNick` | irc_callback.go:674-697 | the byte loop yields the casemapped nick, byte for byte |
| `NickRules.CanonicalIdempotent` | irc_callback.go:670-697 | casemapping twice is casemapping once, so nick equality compares normal forms |
| `NickRules.NickEqualIff` | irc_callback.go:670-697 | two nicks are equal exactly if they agree letter by letter in either case, with the four extra pairs of section 2.2 of RFC 2812 |
| `NickRules.SanitizeNick` | irc_callback.go:710-741 | the byte loop keeps the legal bytes, puts `_` before an illegal first one, cuts to nine, and yields `Guest` if nothing is left |
| `NickRules.SanitizeIdentityIff` | irc_callback.go:699-741 | sanitising changes nothing exactly on the nicks of section 2.3.1 of RFC 2812 |
| `NickRules.GrammarBytes` | irc_callback.go:699-708 | the byte tests are the productions of section 2.3.1 of RFC 2812, by byte code |
| `NickRules.IllegalIgnored` | irc_callback.go:710-741 | illegal bytes anywhere are as if they were not there |
| `NickRules.SanitizeRepairs` | irc_callback.go:710-741 | of legal bytes nine are kept, behind a `_` if the first may not stand first; of none, `Guest` is made |
| `NickRules.BuildCandidate` | irc_callback.go:743-771 | every candidate, from any base and suffix, is a valid nick |
| `NickRules.CandidateOfValid` | irc_callback.go:743-771 | for a valid base the candidate is the base, shortened to make room, and the suffix, or `_` for an empty one |
| `NickRules.GenerateAlternative` | irc_callback.go:654-666 | the search over twelve suffixes always ends at the first or second one; the final fallback is unreachable |
| `NickRules.AlternativeIsFresh` | irc_callback.go:654-771 | for every rejected byte string the alternative is valid and is not the rejected string in any spelling |
| `NickRules.OrbitAlternates` | irc_callback.go:654-666 | after at most eight rejections the candidates alternate for ever between one eight-byte stem with `_` and with `-` |
| `NickRules.OrbitIsSmall` | irc_callback.go:654-666 | at most nine different candidates are ever proposed |
| `NickClient.NewConnection` | irc.go:1026-1076 | no connection for an empty nick or user; otherwise a new one that desires and assumes its nick, is not connected, and recovers by default |
| `NickClient.Connection.Nick` | irc.go:542-584 | within 30 seconds of a change only the wish is recorded; otherwise a NICK line goes out exactly for a nick different up to casemapping |
| `NickClient.Connection.StopNickRetry` | irc_callback.go:641-647 | nothing stays pending and the desired nick falls back to the current one |
| `NickClient.Connection.TryAlternative` | irc_callback.go:271-290 | the alternative becomes pending; before 001 the assumed nick moves along |
| `NickClient.Connection.OnRejected` | irc_callback.go:257-430 | 432, 433, 436 and 437: give up with recovery off, else try an alternative if the rejection concerns us |
| `NickClient.Connection.OnNoNickGiven` | irc_callback.go:335-355 | 431 sends the desired nick again |
| `NickClient.Connection.OnRestricted` | irc_callback.go:433-452 | 484 ends the change |
| `NickClient.Connection.OnNick` | irc_callback.go:466-499 | our own NICK message sets current and desired and ends the change; others change nothing |
| `NickClient.Connection.OnWelcome` | irc_callback.go:503-521 | 001 sets the nick, connects and starts the step count; without arguments it panics |
| `NickClient.Connection.OnGreeting` | irc_callback.go:534-567 | 002-004 count a step or refresh the connection, only after 001 |
| `NickClient.Connection.OnSupport` | irc_callback.go:570-583 | 005 does so too and connects from the fourth step |
| `NickClient.Connection.OnMotdEnd` | irc_callback.go:586-603 | 376 and 422 connect, only after 001 |
| `NickClient.Connection.MarkFullyConnected` | irc.go:695-698 | connects and zeroes the reconnect counter |
| `NickClient.Connection.GetNickStatus` | irc.go:613-643 | reports the state after the timeout fallback, which applies only when enabled and due, and the time of the last change, or now if there was none |
| `NickClient.Connection.ResetRegistrationState` | irc.go:677-687 | the connection, the steps and any pending change are forgotten; the nicks stay |
| `NickClient.NoGhostRegistration` | irc_callback.go:503-603 | in every run, connected implies a counted step, and a step is counted exactly if a 001 came since the last reset |
| `NickClient.NickPacing` | irc.go:542-584 | two NICK lines of `Nick()` less than 30 seconds apart have a settling event between them |
| `NickClient.NoInventedNicks` | irc_callback.go:257-430 | with recovery off and while connected, there are at most as many NICK lines as `Nick()` calls and 431 replies |
| `NickClient.RejectionGivesUp` | irc_callback.go:264-267 | each rejection then leaves desired equal to current, nothing pending, and sends nothing |
| `NickClient.ChaseIsFinite` | irc_callback.go:269-295 | a chain of rejections sends one line each, over at most nine valid nicks, each different from the one just refused |
| `NickEffects.RejectionAnswered` | irc_callback.go:257-430 | exactly when a rejection is answered, with what kind of nick, and that only 432 gives up the desired nick, for the one sent |
| `NickEffects.RejectionUnanswered` | irc_callback.go:433-452 | what any other rejection, and 484, leave of the desired nick and of the change |
| `NickEffects.WishSurvives` | irc_callback.go:281-430 | over any chain of 433, 436 and 437 and other unsettled events the desired nick stays, and a 431 asks for it again |
| `NickEffects.ErroneousReplaced` | irc_callback.go:369-385 | after an answered 432 the desired nick is valid, is not the refused one, and is what a later 431 sends |
| `NickEffects.RefusedRegistration` | irc.go:714-715 | a refused registration is answered whatever the settings, and a 001 for the answer settles everything on it |
| `NickEffects.NickUnblocked` | irc.go:542-584 | after any run, 30 quiet seconds later `Nick()` sends exactly if the nick is a different one, and the state says so |
| `NickEffects.NickHeldBack` | irc.go:547-557 | within 30 seconds of a line it only records the wish |
| `NickEffects.ResetUnblocks` | irc.go:677-687 | after a reset `Nick()` is not held back and no status query confirms the nick |
| `NickEffects.StatusTells` | irc.go:613-643 | the whole status report after `Nick()`, 001, our own NICK message, and at the start |
| `NickEffects.CounterZeroed` | irc.go:695-698 | the reconnect counter is zeroed whenever a message establishes the connection and kept by everything else |
| `NickEffects.LapsesIff` | irc.go:349-358 | an established connection lapses exactly by a failed validation, a DISCONNECTED event or a reset |
| `NickEffects.SupportConnectsIff` | irc_callback.go:534-583 | after a lapse a block of 002-005 connects exactly if one of its 005 is at least the fourth step since 001 |
| `NickEffects.BlockAfterWelcome` | irc_callback.go:519-583 | after a 001 and a lapse such a block connects exactly from its third message on |
| `NickEffects.FallbackIff` | irc.go:623-633 | over the life of a registration, exactly when a status query confirms the nick |
| `NickEffects.NewClientFallback` | irc.go:1026-1076 | for a new client no status query confirms the nick unless the connection stands; with the fallback on it does 30 seconds after the 001 |
| `NickAgreement.RejectionDisplacesIff` | irc_callback.go:269-289 | exactly when an error handler changes the current nick |
| `NickAgreement.Agreement` | irc_callback.go:257-521 | in every interleaving, with the lines of registrations and of `Nick()` calls: replaying the messages in flight gives the server's nick for us, if the server never rejects the nick we hold or the connection stays fully connected after 001; with an empty queue the current nick is the server's, even if only no delivery displaced the client |
| `NickAgreement.LastDeliveryAgreesIff` | irc_callback.go:257-430 | after any run without displacement, the last delivery keeps the agreement exactly if it does not displace the client |
| `NickAgreement.ImpoliteLapseDisagrees` | irc_callback.go:374-385 | for all nicks, a run of a new client with a failed validation and a rejection of its own nick ends in disagreement |
| `NickQuiescence.DeliverTidyIff` | irc_callback.go:257-521 | a delivery keeps every change answered or under way exactly if it does not stall a change with nothing else under way |
| `NickQuiescence.NothingLeftPending` | irc_callback.go:257-521 | with recovery on or off, an answering server, and no stalling delivery: empty queues mean no change in progress, none pending, desired equal to current equal to the server's nick |
| `NickQuiescence.LastAnswerSettlesIff` | irc_callback.go:269-295 | the delivery after which nothing is under way leaves the client at rest exactly if it does not stall |
| `NickQuiescence.NothingLeftPendingRecoveryOff` | irc_callback.go:264-267 | with recovery off no delivery stalls, so empty queues always mean rest |
| `NickQuiescence.RejectionLeavesFlag` | irc.go:547-557 | for all nicks, a run of a new client that asks for a second nick before the first is refused ends with empty queues and a change still marked in progress |
| `NickWire.LineDelivers` | irc.go:175-228 | a server message printed as a line, parsed and dispatched, reaches its handler with the same data |
| `NickWire.NickLineEffect` | irc_callback.go:466-499 | every well-formed NICK line, whatever its source and the case of its command: exactly when it changes our nick, and to what |
| `NickWire.BareSourceIgnored` | irc.go:212-216 | a NICK line without user and host in its source changes nothing, even for our own nick |
| `NickWire.ErrorReported` | irc_callback.go:257-452 | the error text the user sees after the line of each error numeric |
| `NickWire.OtherLinesIgnored` | irc_callback.go:249-603 | exactly which commands, in any case, reach a nickname or registration handler |
| `NickWire.WelcomePanicsIff` | irc_callback.go:503-506 | the 001 handler is without its argument exactly if the line is just `001` after tags and source |
| `NickWire.TextRefines` | irc.go:175-228 | every run over text, with any other lines in between, is a run of the protocol once its lines are parsed and dispatched |
| `NickWire.TextAgreement` | irc_callback.go:463-521 | the agreement holds in every run whose messages are written, read, parsed and dispatched as text |
| `NickWire.TextNothingLeftPending` | irc_callback.go:257-521 | so does quiescence |
| `NickWire.NoLinePanics` | irc.go:113-157 | no line of such a run makes the parser or the 001 handler panic |
| `Registration.Registrar.ResetRegistrationState` | irc.go:677-687 | a reset lowers the flag and moves the generation on |
| `Registration.Registrar.TryClaim` | irc.go:701-716 | the first critical section claims exactly if the generation is current and the flag down |
| `Registration.Registrar.StillCurrent` | irc.go:722-727 | the second critical section lets the caller write exactly if the generation is still current |
| `Registration.AtMostOneRegistration` | irc.go:700-732 | in every run each session's channel gets at most one NICK and then its USER line, from one caller of that session |
| `Registration.ExactlyOneRegistration` | irc.go:700-732 | without a reset, a successful caller, or all callers having returned, means exactly one pair |
| `Registration.RegistrationContent` | irc.go:707-730 | what those lines say to a parser: the nick desired when the claimant took its first step, the user, and the real name or else the user |
| `Registration.ResetSilences` | irc.go:722-727 | after a reset no caller of the old generation starts to write |
| `Registration.PanicReachableIff` | irc.go:722-732 | in every reachable state a caller whose channel is closed can still send on it exactly if it passed the second check, or holds or can get the claim of the current generation |
| `Registration.DisconnectDuringWritePanics` | irc.go:729-730 | such a run: reset and close between the second check and the send |
| `ErrorClass.AnalyzeErrorMessage` | irc.go:1144-1226 | the scans find the class whose pattern list comes first among those matching the lower-cased text |
| `ErrorClass.ClassifyIff` | irc.go:1144-1226 | the class of every text in any case, by the 30 patterns that no other pattern makes redundant |
| `ErrorClass.ReportDecodes` | irc.go:118-150 | for every class and text, what the loop's substring tests see in the report: the class, or a marker within the text, and never one across the seam |
| `Lifecycle.Connection.CloseEnd` | irc.go:320-325 | `end` is closed if it exists and is open |
| `Lifecycle.Connection.ClearChannels` | irc.go:748-753 | the last section of `Disconnect` closes `pwrite` if open and forgets both channels |
| `Lifecycle.Connection.EmitDisconnected` | irc.go:349-358 | one claimant per lifecycle |
| `Lifecycle.Connection.StopReconnecting` | irc.go:376-381 | sets the quit latch |
| `Lifecycle.Connection.ReconnectLimitReached` | irc.go:302-311 | true exactly if a positive cap is used up |
| `Lifecycle.Connection.NoteReconnectAttempt` | irc.go:313-318 | counts a limited attempt |
| `Lifecycle.Connection.BeginReconnect` | irc.go:761-766 | a fresh `end` channel |
| `Lifecycle.OneDisconnectedPerLifecycle` | irc.go:349-427 | at most one DISCONNECTED between two successful dials, and `Loop` returns only after one since the last dial |
| `Lifecycle.ClosedOnce` | irc.go:320-347 | in every interleaving no channel is closed twice |
| `Lifecycle.ReconnectBound` | irc.go:302-318 | the counter is the number of limited attempts since the last registration and never exceeds a positive cap |
| `Lifecycle.QuitLatch` | irc.go:376-427 | quit is never cleared and `Loop` starts at most one Reconnect after it |
| `Lifecycle.PermanentErrorStops` | irc.go:390-396 | after a permanent ERROR `Loop` never reconnects |
| `Lifecycle.CapStops` | irc.go:397-402 | nor after a server or recoverable ERROR once the attempts since the last registration equal a positive cap |
| `Lifecycle.ErrorContinuesIff` | irc.go:390-403 | in every reachable state, exactly when `Loop` goes on to reconnect after any other ERROR, by its class, its text and the attempts counted |
| `Lifecycle.RetryStopsIff` | irc.go:407-415 | in every reachable state the retry loop stops exactly if the error is limited and the attempts counted equal a positive cap; otherwise it starts a Reconnect, counting an attempt just for a limited error |
| `Lifecycle.ReconnectEnds` | irc.go:416-424 | a Reconnect that succeeds leaves `Loop` waiting with a fresh open channel; one that fails is retried with the same error |
| `Lifecycle.QuitTerminates` | irc.go:384-427 | after quit `Loop` returns within ten of its own steps, whatever else happens |
| `Lifecycle.EndIsClosed` | irc.go:404-404 | the `end` channel is closed before `Loop` reconnects or gives up |
| `Lifecycle.PwriteClosedIff` | irc.go:748-753 | in every reachable state, exactly when `Disconnect` closes the write channel it forgets |
| `Lifecycle.PwriteClosedLater` | irc.go:875-876 | once `Connect` has lowered the flag, it does |
| `Lifecycle.PwriteLost` | irc.go:875-876 | a run in which a `Disconnect` between the two moves of `Connect` loses the new channel unclosed |
| `Lifecycle.RetriesBounded` | irc.go:407-424 | the retry loop on a limited error starts at most as many Reconnects as the cap has left |
| `Tags.UnescapeEscape` | irc.go:165-172 | what the five replacements make of any escaped value |
| `Tags.EscapeRoundTripIff` | irc.go:165-172 | the round trip is exact just when no backslash precedes `:`, `s`, `r` or `n` |
| `Tags.ReadBlock` | irc.go:188-197 | the loop builds the map of the split block, later tags winning |
| `Tags.TagBlockRoundTrip` | irc.go:187-198 | a printed tag block reads back as the map of its tags |
| `Tags.DistinctTagsReadBack` | irc.go:187-198 | with distinct keys and unproblematic values it reads back as exactly those keys and values |
| `Wire.ParseToEvent` | irc.go:175-228 | the parser yields the event, the malformed verdict or the out-of-range index of its specification |
| `Wire.PanicsIff` | irc.go:198-204 | the index is out of range exactly for a tag block, one space and nothing else |
| `Wire.TerminatorIgnored` | irc.go:176-177 | a line means the same with either line ending, half of one, or none |
| `Wire.IdentityRebuilds` | irc.go:212-216 | nick, user and host, when filled in, rebuild the source |
| `Wire.ParsePrint` | irc.go:175-228 | parsing undoes printing for every well-formed message, any case of the command and any trailing text |
| `Wire.ParsePrintTagged` | irc.go:185-228 | also behind a tag block |
| `Wire.StreamRoundTrip` | irc.go:83-157 | a stream of printed messages, cut at line feeds, is parsed into exactly their events in order |
| `Wire.ReprintStable` | irc.go:204-226 | every accepted line has a normal form: its event, printed and parsed again, is the same |
| `Wire.RelayedText` | irc.go:460-485 | a PRIVMSG or NOTICE arrives with its target and exactly its text, relayed or not |
| `Wire.MultiKickRoundTrip` | irc.go:493-513 | a KICK arrives with the channel, exactly the users (one empty user if there are none), and the reason if there is one |
| `Wire.LiveEvent.RewriteCtcp` | irc_callback.go:119-152 | the event is rewritten in place as the decoder says, or not dispatched |
| `Wire.CtcpDecodes` | irc_callback.go:121-151 | a delimited request of any content is decoded whole |
| `Wire.CtcpRequests` | irc_callback.go:131-149 | exactly which request each code stands for, and that only an action loses its first word |
| `Wire.PlainUnchanged` | irc_callback.go:121-121 | what does not open a request is dispatched as it is |
| `Wire.DroppedIff` | irc_callback.go:124-129 | a message is dropped exactly if it opens a request and never closes it |
| `Wire.ActionRoundTrip` | irc.go:472-474 | printing, relaying, parsing and decoding an action yields the original text |
| `Registry.CallbackRegistry.AddCallback` | irc_callback.go:43-60 | the callback is stored under the counter's id, which is never given again |
| `Registry.CallbackRegistry.RemoveCallback` | irc_callback.go:64-81 | removes exactly that id of that code, and says whether it was there |
| `Registry.CallbackRegistry.ClearCallback` | irc_callback.go:85-98 | empties exactly that code |
| `Registry.CallbackRegistry.ReplaceCallback` | irc_callback.go:101-116 | replaces the callback if the id is there |
| `Registry.CallbackRegistry.Collect` | irc_callback.go:154-166 | the code's callbacks and those of `*` in one map |
| `Registry.ValidAlways` | irc_callback.go:43-116 | after any operations every id is below the counter and under one code |
| `Registry.HistoryDecides` | irc_callback.go:43-116 | after any operations the registry holds, under every code and id, what the history says was last put there; ids count the additions |
| `Registry.AddedRuns` | irc_callback.go:43-60 | an added callback runs for events of its code, or for all events under `*`, until an operation names it |
| `Registry.ReplacedRuns` | irc_callback.go:101-116 | a replaced callback gives way to the new one under the same id |
| `Registry.GoneForGood` | irc_callback.go:64-98 | a callback removed or cleared never runs again, for any event |
| `Registry.CollectedIff` | irc_callback.go:154-166 | exactly which callback an event runs under an id, by the history |
| `Registry.MergeIsLossless` | irc_callback.go:154-166 | for every code, `*` too, that map loses no callback, confuses none and duplicates none |
| `Registry.NegotiationLeavesNothing` | irc.go:916-974 | after its cleanup no callback of a negotiation is left, whatever others did meanwhile |
| `Registry.OthersUntouched` | irc.go:917-921 | the negotiation removes no callback but its own |

## Left out

- Dialling, proxies, TLS, deadlines, encodings and logging: input and output. A dial succeeds or fails, and a failed validation is a step that clears the connected flag.
- DCC chats, SASL credentials, PING timing and lag: no logic beyond plumbing.
- Capability counting in `negotiateCaps`: only its registration callers and its callbacks are modelled.
- `RunCallbacks` giving up on slow callbacks: handlers are taken to finish within the timeout.
- The `stopped` flag, which is only read by `Connected`.
- ERROR handling with `SmartErrorHandling` off: its report carries none of the markers, so `Loop` treats it like a lost connection.
- Delivery of a nick requested while a change is in progress: the program records it and does not promise to send it.
- Wrap-around of the 64-bit generation counter and of the callback counter.
- Update in place across goroutines: the callers of `sendRegistrationOnce` and the steps of `Loop` are interleaved moves on values, with their critical sections also given as methods. A panic ends only its caller there, while it ends the program in Go.
- Quiescence when the server sends 001 before the registration was claimed, leaves lines of a registered client unanswered, when a `Nick("")` is called, or when the connected flag lapses after 001.
- Unicode casing and the stripping of formatting codes: library behaviour.
