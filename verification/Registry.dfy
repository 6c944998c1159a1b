/** The callback registry: callbacks by event code and id, with one id counter for all codes. */
module Registry {
  import opened Text

  type Table<C> = map<string, map<int, C>>

  datatype Registry<C> = Registry(events: Table<C>, counter: nat)

  function At<C>(r: Registry<C>, code: string): map<int, C> {
    if code in r.events then r.events[code] else map[]
  }

  datatype Op<C> =
    | Add(code: string, callback: C)
    | Remove(code: string, id: int)
    | Clear(code: string)
    | Replace(code: string, id: int, callback: C)

  function Apply<C>(r: Registry<C>, op: Op<C>): Registry<C> {
    var code := ToUpper(op.code);
    match op
    case Add(_, f) => Registry(r.events[code := At(r, code)[r.counter := f]], r.counter + 1)
    case Remove(_, id) =>
      if id in At(r, code) then r.(events := r.events[code := At(r, code) - {id}]) else r
    case Clear(_) =>
      if code in r.events then r.(events := r.events[code := map[]]) else r
    case Replace(_, id, f) =>
      if id in At(r, code) then r.(events := r.events[code := At(r, code)[id := f]]) else r
  }

  class CallbackRegistry<C> {
    var events: Table<C>
    var idCounter: nat

    ghost function View(): Registry<C>
      reads this
    {
      Registry(events, idCounter)
    }

    constructor ()
      ensures View() == Registry(map[], 0)
    {
      events, idCounter := map[], 0;
    }

    method AddCallback(eventCode: string, callback: C) returns (id: int)
      modifies this
      ensures View() == Apply(old(View()), Add(eventCode, callback)) && id == old(idCounter)
    {
      var code := ToUpper(eventCode);
      if code !in events {
        events := events[code := map[]];
      }
      id := idCounter;
      idCounter := idCounter + 1;
      events := events[code := events[code][id := callback]];
      assert events == old(events)[code := At(old(View()), code)[id := callback]];
    }

    method RemoveCallback(eventCode: string, id: int) returns (ok: bool)
      modifies this
      ensures View() == Apply(old(View()), Remove(eventCode, id))
      ensures ok <==> id in At(old(View()), ToUpper(eventCode))
    {
      var code := ToUpper(eventCode);
      if code in events {
        if id in events[code] {
          events := events[code := events[code] - {id}];
          return true;
        }
        return false;
      }
      return false;
    }

    method ClearCallback(eventCode: string) returns (ok: bool)
      modifies this
      ensures View() == Apply(old(View()), Clear(eventCode))
      ensures ok <==> ToUpper(eventCode) in old(events)
    {
      var code := ToUpper(eventCode);
      ok := code in events;
      if ok {
        events := events[code := map[]];
      }
    }

    method ReplaceCallback(eventCode: string, id: int, callback: C)
      modifies this
      ensures View() == Apply(old(View()), Replace(eventCode, id, callback))
    {
      var code := ToUpper(eventCode);
      if code in events {
        if id in events[code] {
          events := events[code := events[code][id := callback]];
        }
      }
    }

    /** The callbacks to run for an event: those of its code, then those of `*`, in one map. */
    method Collect(code: string) returns (callbacks: map<int, C>)
      ensures callbacks == Merged(View(), code)
    {
      callbacks := map[];
      if code in events {
        callbacks := callbacks + events[code];
      }
      if "*" in events {
        callbacks := callbacks + events["*"];
      }
    }
  }

  // ---- Ids are unique across codes ------------------------------------------------------

  ghost predicate Valid<C>(r: Registry<C>) {
    && (forall code, id | code in r.events && id in r.events[code] :: id < r.counter)
    && (forall a, b, id | a in r.events && b in r.events && id in r.events[a] && id in r.events[b] :: a == b)
  }

  lemma ValidKept<C>(r: Registry<C>, op: Op<C>)
    requires Valid(r)
    ensures Valid(Apply(r, op))
  {
    hide ToUpper;
  }

  function ApplyAll<C>(r: Registry<C>, ops: seq<Op<C>>): Registry<C>
    decreases |ops|
  {
    if ops == [] then r else ApplyAll(Apply(r, ops[0]), ops[1..])
  }

  lemma {:induction false} ValidAlways<C>(r: Registry<C>, ops: seq<Op<C>>)
    requires Valid(r)
    ensures Valid(ApplyAll(r, ops))
    decreases |ops|
  {
    hide Valid, Apply;
    if ops != [] {
      ValidKept(r, ops[0]);
      ValidAlways(Apply(r, ops[0]), ops[1..]);
    }
  }

  function Merged<C>(r: Registry<C>, code: string): map<int, C> {
    At(r, code) + At(r, "*")
  }

  lemma UnionSize<C>(a: map<int, C>, b: map<int, C>)
    requires a.Keys !! b.Keys
    ensures |a + b| == |a| + |b|
  {
    assert (a + b).Keys == a.Keys + b.Keys;
    assert |(a + b).Keys| == |a.Keys| + |b.Keys|;
  }

  /** After any sequence of operations on an empty registry, merging a code's callbacks with those for
      all events into one id-keyed map loses none, confuses none and duplicates none.  The parser can
      yield the code "*" itself; its callbacks are then the ones for all events. */
  lemma MergeIsLossless<C>(ops: seq<Op<C>>, code: string)
    ensures var r := ApplyAll(Registry(map[], 0), ops);
      && |Merged(r, code)| == |At(r, "*")| + (if code == "*" then 0 else |At(r, code)|)
      && (forall id | id in At(r, code) :: id in Merged(r, code) && Merged(r, code)[id] == At(r, code)[id])
      && (forall id | id in At(r, "*") :: id in Merged(r, code) && Merged(r, code)[id] == At(r, "*")[id])
  {
    var r0: Registry<C> := Registry(map[], 0);
    ValidAlways(r0, ops);
    hide ApplyAll, Apply;
    var r := ApplyAll(r0, ops);
    if code == "*" {
      assert Merged(r, code) == At(r, "*");
    } else {
      forall id | id in At(r, code) ensures id !in At(r, "*") {
        assert id in r.events[code];
      }
      UnionSize(At(r, code), At(r, "*"));
    }
  }

  // ---- The life of a callback -----------------------------------------------------------------

  /** The next id: the number of callbacks ever added. */
  function Added<C>(ops: seq<Op<C>>): nat {
    if ops == [] then 0 else Added(ops[..|ops| - 1]) + if ops[|ops| - 1].Add? then 1 else 0
  }

  /** The callback under a code and an id, read off the history alone: what the last operation that
      names it left there. */
  function Registered<C>(ops: seq<Op<C>>, code: string, id: int): Option<C> {
    if ops == [] then None
    else
      var before, op := ops[..|ops| - 1], ops[|ops| - 1];
      var was := Registered(before, code, id);
      if ToUpper(op.code) != code then was
      else
        match op
        case Add(_, f) => if id == Added(before) then Some(f) else was
        case Remove(_, i) => if id == i then None else was
        case Clear(_) => None
        case Replace(_, i, f) => if id == i && was.Some? then Some(f) else was
  }

  function Entry<C>(m: map<int, C>, id: int): Option<C> {
    if id in m then Some(m[id]) else None
  }

  lemma {:induction false} ApplyLast<C>(r: Registry<C>, ops: seq<Op<C>>)
    requires ops != []
    ensures ApplyAll(r, ops) == Apply(ApplyAll(r, ops[..|ops| - 1]), ops[|ops| - 1])
    decreases |ops|
  {
    hide Apply;
    if |ops| > 1 {
      ApplyLast(Apply(r, ops[0]), ops[1..]);
      assert ops[1..][..|ops| - 2] == ops[..|ops| - 1][1..];
    } else {
      assert ops[1..] == [] && ops[..0] == [];
    }
  }

  /** The registry is its history: under every code and id it holds what was registered there. */
  lemma {:induction false} HistoryDecides<C>(ops: seq<Op<C>>, code: string, id: int)
    ensures var r := ApplyAll(Registry(map[], 0), ops);
      Entry(At(r, code), id) == Registered(ops, code, id) && r.counter == Added(ops)
  {
    hide ToUpper, ApplyAll;
    var r0: Registry<C> := Registry(map[], 0);
    if ops == [] {
      NoOps(r0);
    } else {
      var before, op := ops[..|ops| - 1], ops[|ops| - 1];
      HistoryDecides(before, code, id);
      ApplyLast(r0, ops);
    }
  }

  lemma NoOps<C>(r: Registry<C>)
    ensures ApplyAll(r, []) == r
  {}

  /** An event of some code runs exactly the callbacks registered for it and for all events. */
  lemma CollectedIff<C>(ops: seq<Op<C>>, code: string, id: int)
    ensures Entry(Merged(ApplyAll(Registry(map[], 0), ops), code), id) ==
      if Registered(ops, "*", id).Some? then Registered(ops, "*", id) else Registered(ops, code, id)
  {
    hide ApplyAll, Registered;
    HistoryDecides(ops, code, id);
    HistoryDecides(ops, "*", id);
  }

  /** Does the operation remove, replace or clear this callback? */
  predicate Names<C>(op: Op<C>, code: string, id: int) {
    ToUpper(op.code) == code && (op.Clear? || ((op.Remove? || op.Replace?) && op.id == id))
  }

  lemma {:induction false} AddedMonotonic<C>(ops: seq<Op<C>>, later: seq<Op<C>>)
    ensures Added(ops + later) >= Added(ops)
    decreases |later|
  {
    if later == [] {
      assert ops + later == ops;
    } else {
      AddedMonotonic(ops, later[..|later| - 1]);
      assert (ops + later)[..|ops + later| - 1] == ops + later[..|later| - 1];
    }
  }

  /** What is registered, or was given up, stays so until an operation names it. */
  lemma {:induction false} StaysRegistered<C>(ops: seq<Op<C>>, later: seq<Op<C>>, code: string, id: int)
    requires id < Added(ops) && forall op | op in later :: !Names(op, code, id)
    ensures Registered(ops + later, code, id) == Registered(ops, code, id)
    decreases |later|
  {
    hide ToUpper;
    if later == [] {
      assert ops + later == ops;
    } else {
      var before := later[..|later| - 1];
      assert later[|later| - 1] in later;
      StaysRegistered(ops, before, code, id);
      AddedMonotonic(ops, before);
      assert (ops + later)[..|ops + later| - 1] == ops + before;
    }
  }

  /** A callback runs from the call that adds it: after any operations, adding it under a code, and any
      operations that do not name it, an event of that code runs it under the id that was returned;
      under the code `*` every event does. */
  lemma AddedRuns<C>(ops: seq<Op<C>>, code: string, f: C, later: seq<Op<C>>, event: string)
    requires var id := Added(ops); forall op | op in later :: !Names(op, ToUpper(code), id)
    requires ToUpper(code) == event || ToUpper(code) == "*"
    ensures var r := ApplyAll(Registry(map[], 0), ops + [Add(code, f)] + later);
      Entry(Merged(r, event), Added(ops)) == Some(f)
  {
    hide ToUpper, Names, ApplyAll;
    var grown, id := ops + [Add(code, f)], Added(ops);
    assert grown[..|grown| - 1] == ops;
    StaysRegistered(grown, later, ToUpper(code), id);
    CollectedIff(grown + later, event, id);
    if Registered(grown + later, "*", id).Some? {
      OneCode(grown + later, ToUpper(code), "*", id);
    }
  }

  lemma OneCode<C>(ops: seq<Op<C>>, a: string, b: string, id: int)
    requires Registered(ops, a, id).Some? && Registered(ops, b, id).Some?
    ensures a == b
  {
    hide ApplyAll, Registered;
    HistoryDecides(ops, a, id);
    HistoryDecides(ops, b, id);
    var r0: Registry<C> := Registry(map[], 0);
    ValidAlways(r0, ops);
  }

  /** Replacing a registered callback puts the new one in its place under the same id. */
  lemma ReplacedRuns<C>(ops: seq<Op<C>>, code: string, id: int, f: C, event: string)
    requires Registered(ops, ToUpper(code), id).Some?
    requires ToUpper(code) == event || ToUpper(code) == "*"
    ensures Entry(Merged(ApplyAll(Registry(map[], 0), ops + [Replace(code, id, f)]), event), id) == Some(f)
  {
    hide ToUpper, ApplyAll;
    var next := ops + [Replace(code, id, f)];
    assert next[..|next| - 1] == ops;
    CollectedIff(next, event, id);
    if Registered(next, "*", id).Some? {
      OneCode(next, ToUpper(code), "*", id);
    }
  }

  /** A callback removed, or cleared with its code, never runs again, whatever happens later. */
  lemma GoneForGood<C>(ops: seq<Op<C>>, op: Op<C>, id: int, later: seq<Op<C>>, event: string)
    requires Registered(ops, ToUpper(op.code), id).Some? && (op.Clear? || (op.Remove? && op.id == id))
    ensures Entry(Merged(ApplyAll(Registry(map[], 0), ops + [op] + later), event), id) == None
  {
    hide ToUpper, ApplyAll, Registered;
    forall code ensures Registered(ops + [op] + later, code, id) == None {
      GoneUnder(ops, op, id, code);
      StaysGone(ops + [op], later, code, id);
    }
    CollectedIff(ops + [op] + later, event, id);
  }

  lemma GoneUnder<C>(ops: seq<Op<C>>, op: Op<C>, id: int, code: string)
    requires Registered(ops, ToUpper(op.code), id).Some? && (op.Clear? || (op.Remove? && op.id == id))
    ensures Registered(ops + [op], code, id) == None && id < Added(ops + [op])
  {
    hide ToUpper, ApplyAll;
    assert (ops + [op])[..|ops|] == ops;
    if Registered(ops, code, id).Some? {
      OneCode(ops, code, ToUpper(op.code), id);
    }
    HistoryDecides(ops, ToUpper(op.code), id);
    var r0: Registry<C> := Registry(map[], 0);
    ValidAlways(r0, ops);
  }

  lemma {:induction false} StaysGone<C>(ops: seq<Op<C>>, later: seq<Op<C>>, code: string, id: int)
    requires id < Added(ops) && Registered(ops, code, id) == None
    ensures Registered(ops + later, code, id) == None
    decreases |later|
  {
    hide ToUpper;
    if later == [] {
      assert ops + later == ops;
    } else {
      var before := later[..|later| - 1];
      StaysGone(ops, before, code, id);
      AddedMonotonic(ops, before);
      assert (ops + later)[..|ops + later| - 1] == ops + before;
    }
  }

  // ---- Negotiation cleans up after itself ---------------------------------------------------

  datatype CallbackId = CallbackId(code: string, id: int)

  /** The registry while one capability negotiation runs next to arbitrary other operations. */
  datatype Session<C> = Session(
    registry: Registry<C>,
    own: seq<CallbackId>,   // registered by the negotiation
    removed: nat)           // how many of them its deferred cleanup has removed

  datatype Move<C> =
    | Other(op: Op<C>)
    | Own(code: string, callback: C)   // the negotiation adds a callback
    | Cleanup                          // its cleanup removes the next of its callbacks

  predicate Allowed<C>(s: Session<C>, m: Move<C>) {
    match m
    case Other(_) => true
    case Own(_, _) => s.removed == 0
    case Cleanup => s.removed < |s.own|
  }

  function Play<C>(s: Session<C>, m: Move<C>): Session<C>
    requires Allowed(s, m)
  {
    match m
    case Other(op) => s.(registry := Apply(s.registry, op))
    case Own(code, f) =>
      s.(registry := Apply(s.registry, Add(code, f)),
         own := s.own + [CallbackId(code, s.registry.counter)])
    case Cleanup =>
      var c := s.own[s.removed];
      s.(registry := Apply(s.registry, Remove(c.code, c.id)), removed := s.removed + 1)
  }

  ghost predicate Runs<C(!new)>(s: Session<C>, run: seq<Move<C>>)
    decreases |run|
  {
    run == [] || (Allowed(s, run[0]) && Runs(Play(s, run[0]), run[1..]))
  }

  ghost function Final<C(!new)>(s: Session<C>, run: seq<Move<C>>): Session<C>
    requires Runs(s, run)
    decreases |run|
  {
    if run == [] then s else Final(Play(s, run[0]), run[1..])
  }

  ghost predicate OwnOk<C>(r: Registry<C>, c: CallbackId, gone: bool) {
    && c.id < r.counter
    && forall code | code in r.events && c.id in r.events[code] :: code == ToUpper(c.code) && !gone
  }

  ghost predicate Invariant<C>(s: Session<C>) {
    && s.removed <= |s.own|
    && (forall i | 0 <= i < |s.own| :: OwnOk(s.registry, s.own[i], i < s.removed))
    && (forall code, id | code in s.registry.events && id in s.registry.events[code] :: id < s.registry.counter)
  }

  lemma OwnOkKept<C>(r: Registry<C>, op: Op<C>, c: CallbackId, gone: bool)
    requires OwnOk(r, c, gone)
    ensures OwnOk(Apply(r, op), c, gone)
    ensures op == Remove(c.code, c.id) ==> OwnOk(Apply(r, op), c, true)
  {
    hide ToUpper;
  }

  lemma BelowCounterKept<C>(r: Registry<C>, op: Op<C>)
    requires forall code, id | code in r.events && id in r.events[code] :: id < r.counter
    ensures var r' := Apply(r, op);
      && r.counter <= r'.counter
      && forall code, id | code in r'.events && id in r'.events[code] :: id < r'.counter
  {
    hide ToUpper;
  }

  function OpOf<C>(s: Session<C>, m: Move<C>): Op<C>
    requires Allowed(s, m)
  {
    match m
    case Other(op) => op
    case Own(code, f) => Add(code, f)
    case Cleanup => Remove(s.own[s.removed].code, s.own[s.removed].id)
  }

  lemma NewestIsOwn<C>(r: Registry<C>, code: string, f: C)
    requires forall code, id | code in r.events && id in r.events[code] :: id < r.counter
    ensures OwnOk(Apply(r, Add(code, f)), CallbackId(code, r.counter), false)
  {
    hide ToUpper;
  }

  lemma MoveKeeps<C>(s: Session<C>, m: Move<C>)
    requires Invariant(s) && Allowed(s, m)
    ensures Invariant(Play(s, m))
  {
    hide Apply, OwnOk;
    var s' := Play(s, m);
    BelowCounterKept(s.registry, OpOf(s, m));
    forall i | 0 <= i < |s'.own| ensures OwnOk(s'.registry, s'.own[i], i < s'.removed) {
      if i < |s.own| {
        OwnOkKept(s.registry, OpOf(s, m), s.own[i], i < s.removed);
      } else {
        NewestIsOwn(s.registry, m.code, m.callback);
      }
    }
  }

  lemma {:induction false} RunKeeps<C(!new)>(s: Session<C>, run: seq<Move<C>>)
    requires Invariant(s) && Runs(s, run)
    ensures Invariant(Final(s, run))
    decreases |run|
  {
    hide Invariant, Play, Allowed;
    if run != [] {
      MoveKeeps(s, run[0]);
      RunKeeps(Play(s, run[0]), run[1..]);
    }
  }

  /** When the cleanup is through, no callback of the negotiation is registered under any code,
      whatever other parties did in between. */
  lemma NegotiationLeavesNothing<C(!new)>(r: Registry<C>, run: seq<Move<C>>)
    requires Valid(r) && Runs(Session(r, [], 0), run)
    ensures var s := Final(Session(r, [], 0), run);
      s.removed == |s.own| ==>
        forall i, code | 0 <= i < |s.own| && code in s.registry.events :: s.own[i].id !in s.registry.events[code]
  {
    hide Play, Allowed;
    var s0 := Session(r, [], 0);
    RunKeeps(s0, run);
    var s := Final(s0, run);
    forall i, code | s.removed == |s.own| && 0 <= i < |s.own| && code in s.registry.events
      ensures s.own[i].id !in s.registry.events[code]
    {
      assert OwnOk(s.registry, s.own[i], i < s.removed);
    }
  }

  /** Does the operation, by another party, name this callback? */
  predicate Touches<C>(m: Move<C>, code: string, id: int) {
    m.Other? && Names(m.op, code, id)
  }

  predicate Holds<C(==)>(r: Registry<C>, code: string, id: int, f: C) {
    id in At(r, code) && At(r, code)[id] == f && id < r.counter
  }

  /** The negotiation removes no callback but its own: any other callback stays registered, under its
      code and id, until another party's operation names it. */
  lemma {:induction false} OthersUntouched<C(!new)>(s: Session<C>, run: seq<Move<C>>, code: string, id: int, f: C)
    requires Runs(s, run) && Holds(s.registry, code, id, f)
    requires forall i | 0 <= i < |s.own| :: s.own[i].id != id
    requires forall m | m in run :: !Touches(m, code, id)
    ensures Holds(Final(s, run).registry, code, id, f)
    decreases |run|
  {
    hide Apply, Holds, Touches;
    if run != [] {
      assert run[0] in run;
      UntouchedMove(s, run[0], code, id, f);
      OthersUntouched(Play(s, run[0]), run[1..], code, id, f);
    }
  }

  lemma UntouchedMove<C>(s: Session<C>, m: Move<C>, code: string, id: int, f: C)
    requires Allowed(s, m) && Holds(s.registry, code, id, f) && !Touches(m, code, id)
    requires forall i | 0 <= i < |s.own| :: s.own[i].id != id
    ensures var s' := Play(s, m);
      Holds(s'.registry, code, id, f) && forall i | 0 <= i < |s'.own| :: s'.own[i].id != id
  {
    hide ToUpper;
  }
}
