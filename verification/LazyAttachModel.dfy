/** Lazy attach (`transport/attach.ts`) as interleaved steps: each step runs from one `await` to the next. */
module LazyAttachModel {
  import opened Common
  import opened Router

  /** Where an attach attempt stands: introducing itself, tearing down a transport it replaces, subscribing (and already
      in the router), finished, or failed because registering met a duplicate. */
  datatype Phase = Introducing | Replacing | Subscribing | Done(ok: bool) | Threw {
    predicate Finished() {
      Done? || Threw?
    }

    predicate Registered() {
      Subscribing? || this == Done(true)
    }
  }

  datatype Attempt = Attempt(name: string, phase: Phase)

  datatype SubKey = SubKey(location: string, target: string)

  /** One call of `ensureLazyAttach`: the attempts that existed for the names it asked for, and those it waits for.
      `passesOver` remembers whether it met an unfinished attempt that it does not wait for. */
  datatype Call = Call(asked: set<nat>, awaited: set<nat>, passesOver: bool, returned: bool)

  datatype State = State(
    hasName: bool, router: seq<Transport>, inflight: map<string, nat>, attempts: seq<Attempt>,
    channelSubs: set<SubKey>, topicSubs: set<SubKey>, calls: seq<Call>)

  /** What the re-resolved config says: which locations are constructable, and for which the factory throws. */
  datatype Resolved = Resolved(constructable: set<string>, refused: set<string>)

  // ---------------------------------------------------------------- one call, up to its first await

  function Live(name: string, attempt: nat): Transport {
    Transport(name, attempt, true, {})
  }

  /** `attachLocation` up to its first await, and the entry in `inflight`. A session without a name registers at once,
      without introducing itself. */
  function Started(s: State, name: string, refused: bool): State {
    var a := |s.attempts|;
    var phase := if refused then Done(false) else if s.hasName then Introducing else Done(true);
    s.(attempts := s.attempts + [Attempt(name, phase)], inflight := s.inflight[name := a],
    router := if phase == Done(true) then Set(s.router, Live(name, a)) else s.router)
  }

  datatype Asked = Asked(state: State, awaited: set<nat>)

  /** `lazyAttachOne`. */
  function AttachOne(asked: Asked, name: string, r: Resolved, force: bool): Asked {
    var s := asked.state;
    if name == LOCAL_LOCATION || name in Names(s.router) then asked
    else if !force && name in s.inflight then asked.(awaited := asked.awaited + {s.inflight[name]})
    else if name !in r.constructable then asked
    else Asked(Started(s, name, name in r.refused), asked.awaited + {|s.attempts|})
  }

  function AttachAll(s: State, names: seq<string>, r: Resolved, force: bool): Asked {
    if names == [] then Asked(s, {})
    else AttachOne(AttachAll(s, names[..|names| - 1], r, force), names[|names| - 1], r, force)
  }

  predicate NeedsWork(s: State, names: seq<string>, force: bool) {
    exists name | name in names :: name !in Names(s.router) && (force || name !in s.inflight)
  }

  function AttemptsOf(s: State, names: seq<string>): set<nat> {
    set name | name in names && name in s.inflight :: s.inflight[name]
  }

  predicate IsUnfinished(s: State, a: nat) {
    a < |s.attempts| && !s.attempts[a].phase.Finished()
  }

  /** The name's latest attempt is not finished. */
  predicate IsBusy(s: State, name: string) {
    name in s.inflight && IsUnfinished(s, s.inflight[name])
  }

  /** A call that starts attempts does not wait for an unfinished one whose name is in the router already, that is,
      which is still subscribing, nor, when forced, for one whose location cannot be constructed any more. */
  predicate PassesOver(s: State, names: seq<string>, r: Resolved, force: bool) {
    exists name | name in names :: IsBusy(s, name) && (name in Names(s.router) || (force && name !in r.constructable))
  }

  function NonLocal(names: seq<string>): (rest: seq<string>)
    ensures forall x :: x in rest <==> x in names && x != LOCAL_LOCATION
  {
    if names == [] then []
    else
      var rest, last := NonLocal(names[..|names| - 1]), names[|names| - 1];
      assert names == names[..|names| - 1] + [last];
      if last == LOCAL_LOCATION then rest else rest + [last]
  }

  /** `ensureLazyAttach` for the given target or candidates. */
  function Ensured(s: State, names: seq<string>, r: Resolved, force: bool, allowWithoutName: bool): State {
    var asked := NonLocal(names);
    if !force && !allowWithoutName && !s.hasName then
      s.(calls := s.calls + [Call(AttemptsOf(s, asked), {}, false, true)])
    else if !NeedsWork(s, asked, force) then
      s.(calls := s.calls + [Call(AttemptsOf(s, asked), AttemptsOf(s, asked), false, false)])
    else
      var all := AttachAll(s, asked, r, force);
      all.state.(calls := s.calls
          + [Call(AttemptsOf(all.state, asked), all.awaited, PassesOver(s, asked, r, force), false)])
  }

  // ---------------------------------------------------------------- the steps

  datatype Op =
    | Ensure(names: seq<string>, resolved: Resolved, force: bool, allowWithoutName: bool)
    | IntroduceSucceeds(a: nat)
    | IntroduceFails(a: nat)
    | Reregister(a: nat)
    | SubscribeChannel(a: nat, channel: string)
    | SubscribeTopic(a: nat, topic: string)
    | Finish(a: nat)
    | NameSession
    | Return(c: nat)

  predicate InPhase(s: State, a: nat, phase: Phase) {
    a < |s.attempts| && s.attempts[a].phase == phase
  }

  predicate Possible(s: State, op: Op) {
    match op
    case IntroduceSucceeds(a) => InPhase(s, a, Introducing)
    case IntroduceFails(a) => InPhase(s, a, Introducing)
    case Reregister(a) => InPhase(s, a, Replacing)
    case SubscribeChannel(a, _) => InPhase(s, a, Subscribing)
    case SubscribeTopic(a, _) => InPhase(s, a, Subscribing)
    case Finish(a) => InPhase(s, a, Subscribing)
    case Return(c) => c < |s.calls| && !s.calls[c].returned && forall a | a in s.calls[c].awaited :: !IsUnfinished(s, a)
    case _ => true
  }

  function InPhaseOf(s: State, a: nat, phase: Phase): State
    requires a < |s.attempts|
  {
    s.(attempts := s.attempts[a := s.attempts[a].(phase := phase)])
  }

  /** `router.register` without `replace`. */
  function Registering(s: State, a: nat): State
    requires a < |s.attempts|
  {
    var name := s.attempts[a].name;
    if name in Names(s.router) then InPhaseOf(s, a, Threw)
    else InPhaseOf(s, a, Subscribing).(router := Set(s.router, Live(name, a)))
  }

  function Others(subs: set<SubKey>, location: string): set<SubKey> {
    set k | k in subs && k.location != location
  }

  /** After a successful introduce: a transport that holds the name is taken out and torn down first. */
  function Introduced(s: State, a: nat): State
    requires a < |s.attempts|
  {
    var name := s.attempts[a].name;
    if name in Names(s.router) then
      InPhaseOf(s, a, Replacing).(router := Deleted(s.router, name),
      channelSubs := Others(s.channelSubs, name), topicSubs := Others(s.topicSubs, name))
    else Registering(s, a)
  }

  function After(s: State, op: Op): State
    requires Possible(s, op)
  {
    match op
    case Ensure(names, r, force, allowWithoutName) => Ensured(s, names, r, force, allowWithoutName)
    case IntroduceSucceeds(a) => Introduced(s, a)
    case IntroduceFails(a) => InPhaseOf(s, a, Done(false))
    case Reregister(a) => Registering(s, a)
    case SubscribeChannel(a, channel) => s.(channelSubs := s.channelSubs + {SubKey(s.attempts[a].name, channel)})
    case SubscribeTopic(a, topic) => s.(topicSubs := s.topicSubs + {SubKey(s.attempts[a].name, topic)})
    case Finish(a) => InPhaseOf(s, a, Done(true))
    case NameSession => s.(hasName := true)
    case Return(c) => s.(calls := s.calls[c := s.calls[c].(returned := true)])
  }

  /** `attachLocation` up to its first await, called directly, as a sign-in does; `refused` when it returns without
      one. */
  function Signed(s: State, name: string, refused: bool): State {
    var a := |s.attempts|;
    if refused then s.(attempts := s.attempts + [Attempt(name, Done(false))])
    else if s.hasName then s.(attempts := s.attempts + [Attempt(name, Introducing)])
    else if name in Names(s.router) then
      s.(attempts := s.attempts + [Attempt(name, Replacing)], router := Deleted(s.router, name),
      channelSubs := Others(s.channelSubs, name), topicSubs := Others(s.topicSubs, name))
    else s.(attempts := s.attempts + [Attempt(name, Done(true))], router := Set(s.router, Live(name, a)))
  }

  // ---------------------------------------------------------------- what a step comes to

  predicate IsAttemptAt(s: State, t: State, a: nat, name: string) {
    |s.attempts| <= a < |t.attempts| && t.attempts[a].name == name
  }

  /** Since `s` an attempt for the name has been started. */
  ghost predicate Attempted(s: State, t: State, name: string) {
    exists a: nat :: IsAttemptAt(s, t, a, name)
  }

  /** An attempt is due: for a location that is not local, not in the router and can be constructed, and that, unless
      the call is forced, has had none. */
  predicate IsDue(s: State, name: string, r: Resolved, force: bool) {
    && name != LOCAL_LOCATION && name !in Names(s.router) && name in r.constructable
    && (force || name !in s.inflight)
  }

  /** How a new attempt begins. */
  predicate Begins(s: State, attempt: Attempt, r: Resolved) {
    attempt.phase == if attempt.name in r.refused then Done(false) else if s.hasName then Introducing else Done(true)
  }

  predicate CameIn(s: State, t: State, name: string) {
    (name in t.inflight && name !in s.inflight) || (name in Names(t.router) && name !in Names(s.router))
  }

  /** A pass over the names starts attempts exactly for those that are due, and touches no subscription. */
  ghost predicate PassExact(s: State, t: State, names: seq<string>, r: Resolved, force: bool) {
    && s.attempts <= t.attempts && t.hasName == s.hasName
    && s.inflight.Keys <= t.inflight.Keys && Names(s.router) <= Names(t.router)
    && t.channelSubs == s.channelSubs && t.topicSubs == s.topicSubs
    && (forall a | |s.attempts| <= a < |t.attempts| ::
          Begins(s, t.attempts[a], r) && t.attempts[a].name in names && IsDue(s, t.attempts[a].name, r, force))
    && (forall name | (name in names && IsDue(s, name, r, force)) || CameIn(s, t, name) :: Attempted(s, t, name))
  }

  lemma PassOne(s: State, asked: Asked, before: seq<string>, last: string, r: Resolved, force: bool)
    requires PassExact(s, asked.state, before, r, force)
    ensures PassExact(s, AttachOne(asked, last, r, force).state, before + [last], r, force)
  {
    var t, t', names := asked.state, AttachOne(asked, last, r, force).state, before + [last];
    if t' != t {
      SetNew(t.router, Live(last, |t.attempts|));
      NamesLast(t.router, Live(last, |t.attempts|));
      assert IsAttemptAt(s, t', |t.attempts|, last);
    }
    forall name | (name in names && IsDue(s, name, r, force)) || CameIn(s, t', name) ensures Attempted(s, t', name) {
      if name != last || t' == t {
        assert CameIn(s, t', name) ==> CameIn(s, t, name);
        assert Attempted(s, t, name);
        var a: nat :| IsAttemptAt(s, t, a, name);
        assert IsAttemptAt(s, t', a, name);
      }
    }
  }

  lemma {:induction false} PassesExactly(s: State, names: seq<string>, r: Resolved, force: bool)
    ensures PassExact(s, AttachAll(s, names, r, force).state, names, r, force)
  {
    if names == [] {
    } else {
      var before, last := names[..|names| - 1], names[|names| - 1];
      PassesExactly(s, before, r, force);
      PassOne(s, AttachAll(s, before, r, force), before, last, r, force);
      assert names == before + [last];
    }
  }

  /** A call starts attempts exactly for the names it was asked for that are due, and none in a session without a name
      unless told otherwise; then it returns at once. */
  lemma CallStartsExactly(s: State, op: Op, name: string)
    requires op.Ensure?
    ensures var s', may := After(s, op), op.force || op.allowWithoutName || s.hasName;
            && s.attempts <= s'.attempts && |s'.calls| == |s.calls| + 1
            && (Attempted(s, s', name) <==> may && name in op.names && IsDue(s, name, op.resolved, op.force))
            && (forall a | |s.attempts| <= a < |s'.attempts| :: Begins(s, s'.attempts[a], op.resolved))
            && (s'.calls[|s.calls|].returned <==> !may)
            && (!may ==> s' == s.(calls := s'.calls))
  {
    var names := NonLocal(op.names);
    PassesExactly(s, names, op.resolved, op.force);
    var t := AttachAll(s, names, op.resolved, op.force).state;
    assert Attempted(s, t, name) <==> name in names && IsDue(s, name, op.resolved, op.force);
    assert forall a: nat :: IsAttemptAt(s, After(s, op), a, name) ==> IsAttemptAt(s, t, a, name);
    assert After(s, op).attempts == t.attempts ==>
        forall a: nat :: IsAttemptAt(s, t, a, name) ==> IsAttemptAt(s, After(s, op), a, name);
  }

  /** The step takes the location's transport out of the router. */
  predicate TakenOut(s: State, s': State, location: string) {
    location in Names(s.router) && location !in Names(s'.router)
  }

  predicate IsSubscribing(s: State, op: Op, key: SubKey, channel: bool) {
    match op
    case SubscribeChannel(a, target) => channel && a < |s.attempts| && key == SubKey(s.attempts[a].name, target)
    case SubscribeTopic(a, target) => !channel && a < |s.attempts| && key == SubKey(s.attempts[a].name, target)
    case _ => false
  }

  /** A subscription ends only with its location's transport: every other one stays. New ones are those of an attempt
      that subscribes. */
  ghost predicate SubsFollow(s: State, s': State, op: Op) {
    && (forall key :: key in s'.channelSubs <==>
          (key in s.channelSubs && !TakenOut(s, s', key.location)) || IsSubscribing(s, op, key, true))
    && (forall key :: key in s'.topicSubs <==>
          (key in s.topicSubs && !TakenOut(s, s', key.location)) || IsSubscribing(s, op, key, false))
  }

  lemma DeletedNames(router: seq<Transport>, gone: string)
    ensures Names(Deleted(router, gone)) == Names(router) - {gone}
  {
    forall name ensures name in Names(Deleted(router, gone)) <==> name in Names(router) && name != gone {
      DeletedIsRemoval(router, gone, name);
      LookupFinds(Deleted(router, gone), name);
      LookupFinds(router, name);
    }
  }

  lemma NamesAfterRegistering(s: State, a: nat)
    requires a < |s.attempts|
    ensures Names(s.router) <= Names(Registering(s, a).router)
  {
    if s.attempts[a].name !in Names(s.router) {
      SetNew(s.router, Live(s.attempts[a].name, a));
      NamesLast(s.router, Live(s.attempts[a].name, a));
    }
  }

  lemma IntroducedAndSubs(s: State, op: Op)
    requires op.IntroduceSucceeds? && Possible(s, op)
    ensures SubsFollow(s, After(s, op), op)
  {
    DeletedNames(s.router, s.attempts[op.a].name);
    if s.attempts[op.a].name !in Names(s.router) {
      NamesAfterRegistering(s, op.a);
    }
  }

  lemma StepAndSubs(s: State, op: Op)
    requires Possible(s, op)
    ensures SubsFollow(s, After(s, op), op)
  {
    match op
    case Ensure(names, r, force, _) =>
      PassesExactly(s, NonLocal(names), r, force);
    case IntroduceSucceeds(a) => IntroducedAndSubs(s, op);
    case Reregister(a) => NamesAfterRegistering(s, a);
    case _ =>
  }

  /** Where a step leaves an attempt. */
  function PhaseAfter(s: State, op: Op, a: nat): Phase
    requires a < |s.attempts|
  {
    var Attempt(name, phase) := s.attempts[a];
    match op
    case IntroduceSucceeds(b) =>
      if a != b then phase else if name in Names(s.router) then Replacing else Subscribing
    case IntroduceFails(b) => if a == b then Done(false) else phase
    case Reregister(b) => if a != b then phase else if name in Names(s.router) then Threw else Subscribing
    case Finish(b) => if a == b then Done(true) else phase
    case _ => phase
  }

  /** A step moves its own attempt on and no other. */
  lemma StepAndAttempts(s: State, op: Op, a: nat)
    requires Possible(s, op) && a < |s.attempts|
    ensures a < |After(s, op).attempts|
    ensures After(s, op).attempts[a] == Attempt(s.attempts[a].name, PhaseAfter(s, op, a))
    ensures After(s, op).hasName <==> s.hasName || op.NameSession?
  {
    if op.Ensure? {
      PassesExactly(s, NonLocal(op.names), op.resolved, op.force);
    }
  }

  // ---------------------------------------------------------------- what every run of non-forced calls keeps

  predicate IsAttached(s: State, name: string) {
    name in s.inflight && s.inflight[name] < |s.attempts| && s.attempts[s.inflight[name]].phase.Registered()
  }

  predicate InflightOk(s: State, name: string) {
    name in s.inflight ==> s.inflight[name] < |s.attempts| && s.attempts[s.inflight[name]].name == name
  }

  /** An attempt is the latest one for its name or has failed, and never meets another transport in its way. */
  predicate AttemptOk(s: State, base: set<string>, a: nat)
    requires a < |s.attempts|
  {
    var name, phase := s.attempts[a].name, s.attempts[a].phase;
    && name in s.inflight && a <= s.inflight[name] && name !in base
    && (a < s.inflight[name] ==> phase == Done(false))
    && (phase.Introducing? || phase.Subscribing? || phase.Done?)
    && (!s.hasName ==> phase.Done?)
  }

  /** The router holds what it held at first and what attached since. */
  predicate RouterOk(s: State, base: set<string>, name: string) {
    name in Names(s.router) <==> name in base || IsAttached(s, name)
  }

  ghost predicate Indexed(s: State, base: set<string>) {
    && (forall name :: InflightOk(s, name))
    && (forall a | 0 <= a < |s.attempts| :: AttemptOk(s, base, a))
    && (forall name :: RouterOk(s, base, name))
    && LOCAL_LOCATION in base
  }

  predicate SubsOk(s: State) {
    && (forall k | k in s.channelSubs :: k.location in Names(s.router))
    && (forall k | k in s.topicSubs :: k.location in Names(s.router))
  }

  /** A call waits for every attempt it asked for that is not finished, unless it passed one over. */
  ghost predicate CallOk(s: State, c: Call) {
    && (forall a | a in c.asked + c.awaited :: a < |s.attempts|)
    && (!c.passesOver ==> forall a | a in c.asked && IsUnfinished(s, a) :: a in c.awaited)
    && (c.returned ==> forall a | a in c.awaited :: !IsUnfinished(s, a))
  }

  ghost predicate CallsOk(s: State) {
    forall c | 0 <= c < |s.calls| :: CallOk(s, s.calls[c])
  }

  ghost predicate Inv(s: State, base: set<string>) {
    Indexed(s, base) && SubsOk(s) && CallsOk(s)
  }

  /** Attempts only move on: what was finished stays finished, and none disappears. */
  ghost predicate MovesOn(s: State, s': State) {
    |s.attempts| <= |s'.attempts| && forall a | 0 <= a < |s.attempts| :: IsUnfinished(s', a) ==> IsUnfinished(s, a)
  }

  lemma CallStays(s: State, s': State, c: Call)
    requires MovesOn(s, s') && CallOk(s, c)
    ensures CallOk(s', c)
  {
    forall a | a in c.asked + c.awaited && IsUnfinished(s', a) ensures IsUnfinished(s, a) {
    }
  }

  lemma CallsStay(s: State, s': State)
    requires MovesOn(s, s') && CallsOk(s) && s'.calls == s.calls
    ensures CallsOk(s')
  {
    forall c | 0 <= c < |s'.calls| ensures CallOk(s', s'.calls[c]) {
      CallStays(s, s', s.calls[c]);
    }
  }

  // ------------------------------------------------ starting an attempt

  lemma StartedKeeps(s: State, base: set<string>, name: string, refused: bool)
    requires Indexed(s, base) && SubsOk(s)
    requires name !in Names(s.router) && !IsBusy(s, name)
    ensures Indexed(Started(s, name, refused), base) && SubsOk(Started(s, name, refused))
              && MovesOn(s, Started(s, name, refused))
  {
    var s' := Started(s, name, refused);
    SetNew(s.router, Live(name, |s.attempts|));
    NamesLast(s.router, Live(name, |s.attempts|));
    forall n ensures InflightOk(s', n) { assert InflightOk(s, n); }
    forall a | 0 <= a < |s'.attempts| ensures AttemptOk(s', base, a) {
      assert RouterOk(s, base, name) && InflightOk(s, name);
      if a < |s.attempts| {
        assert AttemptOk(s, base, a);
        assert name in s.inflight ==> AttemptOk(s, base, s.inflight[name]);
      }
    }
    forall n ensures RouterOk(s', base, n) { assert RouterOk(s, base, n) && InflightOk(s, n); }
  }

  // ------------------------------------------------ forced calls

  /** A forced call would start an attempt for the name. */
  predicate WouldStart(s: State, name: string, r: Resolved) {
    name != LOCAL_LOCATION && name !in Names(s.router) && name in r.constructable
  }

  predicate CrowdsAt(s: State, names: seq<string>, r: Resolved, i: int) {
    && 0 <= i < |names|
    && WouldStart(s, names[i], r)
    && (IsBusy(s, names[i]) || (s.hasName && names[i] !in r.refused && names[i] in names[..i]))
  }

  /** A forced call starts an attempt for a name whose attempt is not finished: one from before, or the one it has just
      started itself, when it is asked for a name twice. */
  ghost predicate Crowds(s: State, names: seq<string>, r: Resolved) {
    exists i :: CrowdsAt(s, names, r, i)
  }

  ghost predicate OpCrowds(s: State, op: Op) {
    op.Ensure? && op.force && Crowds(s, NonLocal(op.names), op.resolved)
  }

  lemma CrowdsBefore(s: State, names: seq<string>, r: Resolved)
    requires names != [] && Crowds(s, names[..|names| - 1], r)
    ensures Crowds(s, names, r)
  {
    var before := names[..|names| - 1];
    var i :| CrowdsAt(s, before, r, i);
    assert names[..i] == before[..i];
    assert CrowdsAt(s, names, r, i);
  }

  predicate SameEntry(s: State, t: State, name: string) {
    (name in t.inflight <==> name in s.inflight) && (name in s.inflight ==> t.inflight[name] == s.inflight[name])
  }

  predicate IsElsewhere(s: State, t: State, a: nat) {
    a < |t.attempts| && t.attempts[a].name !in Names(s.router)
  }

  /** What the calls of `lazyAttachOne` for `names` leave behind: names the router held at first, and names that cannot
      be constructed, are passed by; the attempts waited for are of other names, and new ones when forced. */
  ghost predicate AskedOk(asked: Asked, base: set<string>, s: State, r: Resolved, force: bool) {
    var t := asked.state;
    && Indexed(t, base) && SubsOk(t) && MovesOn(s, t)
    && t.calls == s.calls && t.hasName == s.hasName
    && Names(s.router) <= Names(t.router) && (s.hasName ==> t.router == s.router)
    && t.attempts[..|s.attempts|] == s.attempts
    && (forall name | name in Names(s.router) || name !in r.constructable :: SameEntry(s, t, name))
    && (forall a | a in asked.awaited :: IsElsewhere(s, t, a) && (force ==> a >= |s.attempts|))
  }

  /** The name's attempt is waited for or finished, unless the call passes it by. */
  predicate Waits(asked: Asked, s: State, name: string, r: Resolved, force: bool) {
    name in asked.state.inflight && name !in Names(s.router) && (force ==> name in r.constructable) ==>
      asked.state.inflight[name] in asked.awaited || !IsUnfinished(asked.state, asked.state.inflight[name])
  }

  /** Where an unfinished attempt of a name comes from. */
  predicate BusyFrom(s: State, t: State, names: seq<string>, r: Resolved, name: string) {
    IsBusy(t, name) ==> IsBusy(s, name) || (s.hasName && name !in r.refused && name in names)
  }

  ghost predicate AllBusyFrom(s: State, t: State, names: seq<string>, r: Resolved) {
    forall name :: BusyFrom(s, t, names, r, name)
  }

  /** `lazyAttachOne` starts an attempt. */
  predicate Starts(t: State, name: string, r: Resolved, force: bool) {
    WouldStart(t, name, r) && (force || name !in t.inflight)
  }

  lemma StartedAsks(asked: Asked, base: set<string>, s: State, name: string, r: Resolved, force: bool)
    requires AskedOk(asked, base, s, r, force) && Starts(asked.state, name, r, force) && !IsBusy(asked.state, name)
    ensures AskedOk(AttachOne(asked, name, r, force), base, s, r, force)
  {
    var t := asked.state;
    var asked' := AttachOne(asked, name, r, force);
    var t' := asked'.state;
    StartedKeeps(t, base, name, name in r.refused);
    SetNew(t.router, Live(name, |t.attempts|));
    NamesLast(t.router, Live(name, |t.attempts|));
    forall n | n in Names(s.router) || n !in r.constructable ensures SameEntry(s, t', n) {
      assert SameEntry(s, t, n);
    }
    forall a | a in asked'.awaited ensures IsElsewhere(s, t', a) && (force ==> a >= |s.attempts|) {
      assert a in asked.awaited ==> IsElsewhere(s, t, a);
    }
  }

  lemma AttachOneKeeps(asked: Asked, base: set<string>, s: State, name: string, r: Resolved, force: bool)
    requires AskedOk(asked, base, s, r, force)
    requires force && WouldStart(asked.state, name, r) ==> !IsBusy(asked.state, name)
    ensures AskedOk(AttachOne(asked, name, r, force), base, s, r, force)
  {
    var t := asked.state;
    assert InflightOk(t, name);
    if Starts(t, name, r, force) {
      StartedAsks(asked, base, s, name, r, force);
    }
  }

  /** The name just asked for is waited for. */
  lemma AttachOneWaits(asked: Asked, base: set<string>, s: State, name: string, r: Resolved, force: bool)
    requires AskedOk(asked, base, s, r, force)
    ensures Waits(AttachOne(asked, name, r, force), s, name, r, force)
  {
    var t := asked.state;
    assert InflightOk(t, name);
    if name in t.inflight && name in Names(t.router) && name !in Names(s.router) {
      assert AttemptOk(t, base, t.inflight[name]);
    }
    assert RouterOk(t, base, LOCAL_LOCATION);
  }

  /** And so is every other name that was. */
  lemma AttachOneStillWaits(asked: Asked, base: set<string>, s: State, name: string, r: Resolved, force: bool,
      other: string)
    requires AskedOk(asked, base, s, r, force) && Waits(asked, s, other, r, force) && other != name
    ensures Waits(AttachOne(asked, name, r, force), s, other, r, force)
  {
    assert InflightOk(asked.state, other);
  }

  lemma BusyAfterOne(asked: Asked, base: set<string>, s: State, names: seq<string>, name: string, r: Resolved,
      force: bool, n: string)
    requires AskedOk(asked, base, s, r, force) && BusyFrom(s, asked.state, names, r, n)
    ensures BusyFrom(s, AttachOne(asked, name, r, force).state, names + [name], r, n)
  {
    assert InflightOk(asked.state, n);
  }

  lemma NextIsNotBusy(s: State, base: set<string>, names: seq<string>, r: Resolved, force: bool)
    requires names != [] && (force ==> !Crowds(s, names, r))
    requires AskedOk(AttachAll(s, names[..|names| - 1], r, force), base, s, r, force)
    requires AllBusyFrom(s, AttachAll(s, names[..|names| - 1], r, force).state, names[..|names| - 1], r)
    ensures var t, last := AttachAll(s, names[..|names| - 1], r, force).state, names[|names| - 1];
            force && WouldStart(t, last, r) ==> !IsBusy(t, last)
  {
    var before, last := names[..|names| - 1], names[|names| - 1];
    var t := AttachAll(s, before, r, force).state;
    if force && WouldStart(t, last, r) {
      assert !CrowdsAt(s, names, r, |names| - 1);
      assert BusyFrom(s, t, before, r, last);
    }
  }

  lemma InFront(names: seq<string>, name: string)
    requires name in names && name != names[|names| - 1]
    ensures name in names[..|names| - 1]
  {
    assert names == names[..|names| - 1] + [names[|names| - 1]];
  }

  lemma AllWait(s: State, base: set<string>, names: seq<string>, r: Resolved, force: bool)
    requires names != []
    requires var asked := AttachAll(s, names[..|names| - 1], r, force);
             AskedOk(asked, base, s, r, force)
                 && forall name | name in names[..|names| - 1] :: Waits(asked, s, name, r, force)
    ensures forall name | name in names :: Waits(AttachAll(s, names, r, force), s, name, r, force)
  {
    var before, last := names[..|names| - 1], names[|names| - 1];
    var asked := AttachAll(s, before, r, force);
    AttachOneWaits(asked, base, s, last, r, force);
    forall name | name in names && name != last ensures Waits(AttachAll(s, names, r, force), s, name, r, force) {
      InFront(names, name);
      AttachOneStillWaits(asked, base, s, last, r, force, name);
    }
  }

  lemma {:induction false} AttachAllKeeps(s: State, base: set<string>, names: seq<string>, r: Resolved, force: bool)
    requires Indexed(s, base) && SubsOk(s) && (force ==> !Crowds(s, names, r))
    ensures AskedOk(AttachAll(s, names, r, force), base, s, r, force)
    ensures forall name | name in names :: Waits(AttachAll(s, names, r, force), s, name, r, force)
    ensures AllBusyFrom(s, AttachAll(s, names, r, force).state, names, r)
  {
    if names == [] {
    } else {
      var before, last := names[..|names| - 1], names[|names| - 1];
      var asked := AttachAll(s, before, r, force);
      assert names == before + [last];
      if Crowds(s, before, r) {
        CrowdsBefore(s, names, r);
      }
      AttachAllKeeps(s, base, before, r, force);
      NextIsNotBusy(s, base, names, r, force);
      AttachOneKeeps(asked, base, s, last, r, force);
      AllWait(s, base, names, r, force);
      forall name ensures BusyFrom(s, AttachAll(s, names, r, force).state, names, r, name) {
        BusyAfterOne(asked, base, s, before, last, r, force, name);
      }
    }
  }

  // ------------------------------------------------ one call

  /** The call covers what it asked for if it waits for every attempt of its names that is not finished. */
  ghost predicate Covers(s: State, c: Call) {
    forall a | a in c.asked && IsUnfinished(s, a) :: a in c.awaited
  }

  lemma PassedOver(s: State, base: set<string>, all: Asked, name: string, r: Resolved, force: bool)
    requires Indexed(s, base) && AskedOk(all, base, s, r, force)
    requires IsBusy(s, name) && (name in Names(s.router) || (force && name !in r.constructable))
    ensures IsBusy(all.state, name) && all.state.inflight[name] !in all.awaited
  {
    var t := all.state;
    assert SameEntry(s, t, name) && InflightOk(t, name);
    var a := s.inflight[name];
    assert InflightOk(s, name);
    assert t.attempts[..|s.attempts|][a] == s.attempts[a];
    if name in Names(s.router) {
      assert !IsElsewhere(s, t, a);
    }
  }

  lemma WorkingCall(s: State, base: set<string>, names: seq<string>, r: Resolved, force: bool)
    requires Indexed(s, base) && SubsOk(s) && (force ==> !Crowds(s, names, r))
    ensures var all := AttachAll(s, names, r, force);
            var c := Call(AttemptsOf(all.state, names), all.awaited, PassesOver(s, names, r, force), false);
            CallOk(all.state, c) && (Covers(all.state, c) <==> !c.passesOver)
  {
    AttachAllKeeps(s, base, names, r, force);
    var all := AttachAll(s, names, r, force);
    var t := all.state;
    var c := Call(AttemptsOf(t, names), all.awaited, PassesOver(s, names, r, force), false);
    forall a | a in c.asked ensures a < |t.attempts| {
      var name :| name in names && name in t.inflight && t.inflight[name] == a;
      assert InflightOk(t, name);
    }
    forall a | a in c.awaited ensures a < |t.attempts| {
      assert IsElsewhere(s, t, a);
    }
    if c.passesOver {
      var name :| name in names && IsBusy(s, name) && (name in Names(s.router) || (force && name !in r.constructable));
      PassedOver(s, base, all, name, r, force);
    } else {
      forall a | a in c.asked && IsUnfinished(t, a) ensures a in c.awaited {
        var name :| name in names && name in t.inflight && t.inflight[name] == a;
        assert Waits(all, s, name, r, force);
        if name in Names(s.router) || name !in r.constructable {
          assert SameEntry(s, t, name) && InflightOk(s, name);
        }
      }
    }
  }

  lemma NamelessIsIdle(s: State, base: set<string>, a: nat)
    requires Indexed(s, base) && !s.hasName
    ensures !IsUnfinished(s, a)
  {
    assert a < |s.attempts| ==> AttemptOk(s, base, a);
  }

  lemma IdleCall(s: State, base: set<string>, names: seq<string>, c: Call)
    requires Indexed(s, base) && c.asked == AttemptsOf(s, names) && !c.passesOver
    requires if c.returned then c.awaited == {} && !s.hasName else c.awaited == c.asked
    ensures CallOk(s, c)
  {
    forall a | a in c.asked ensures a < |s.attempts| {
      var name :| name in names && name in s.inflight && s.inflight[name] == a;
      assert InflightOk(s, name);
    }
    if c.returned {
      forall a | a in c.asked ensures !IsUnfinished(s, a) { NamelessIsIdle(s, base, a); }
    }
  }

  lemma SameButCalls(s: State, base: set<string>, s': State)
    requires Indexed(s, base) && SubsOk(s) && s' == s.(calls := s'.calls)
    ensures Indexed(s', base) && SubsOk(s') && MovesOn(s, s')
  {
    forall n ensures InflightOk(s', n) { assert InflightOk(s, n); }
    forall a | 0 <= a < |s'.attempts| ensures AttemptOk(s', base, a) { assert AttemptOk(s, base, a); }
    forall n ensures RouterOk(s', base, n) { assert RouterOk(s, base, n); }
  }

  lemma OneMoreCall(s: State, base: set<string>, c: Call, s': State)
    requires Inv(s, base) && CallOk(s, c) && s' == s.(calls := s.calls + [c])
    ensures Inv(s', base)
  {
    SameButCalls(s, base, s');
    forall i | 0 <= i < |s'.calls| ensures CallOk(s', s'.calls[i]) {
      CallStays(s, s', s'.calls[i]);
    }
  }

  lemma EnsuredKeeps(s: State, base: set<string>, names: seq<string>, r: Resolved, force: bool, allowWithoutName: bool)
    requires Inv(s, base) && (force ==> !Crowds(s, NonLocal(names), r))
    ensures Inv(Ensured(s, names, r, force, allowWithoutName), base)
  {
    var asked := NonLocal(names);
    var s' := Ensured(s, names, r, force, allowWithoutName);
    if (force || allowWithoutName || s.hasName) && NeedsWork(s, asked, force) {
      var t := AttachAll(s, asked, r, force).state;
      AttachAllKeeps(s, base, asked, r, force);
      WorkingCall(s, base, asked, r, force);
      CallsStay(s, t);
      OneMoreCall(t, base, s'.calls[|s.calls|], s');
    } else {
      IdleCall(s, base, asked, s'.calls[|s.calls|]);
      OneMoreCall(s, base, s'.calls[|s.calls|], s');
    }
  }

  // ------------------------------------------------ the other steps

  lemma ReturnKeeps(s: State, base: set<string>, c: nat)
    requires Inv(s, base) && Possible(s, Return(c))
    ensures Inv(After(s, Return(c)), base)
  {
    var s' := After(s, Return(c));
    SameButCalls(s, base, s');
    forall i | 0 <= i < |s'.calls| ensures CallOk(s', s'.calls[i]) {
      assert CallOk(s, s.calls[i]);
      CallStays(s, s', s'.calls[i]);
    }
  }

  /** An attempt moves on; if it registers, its name joins the router. */
  lemma PhaseKeeps(s: State, base: set<string>, a: nat, phase: Phase, s': State)
    requires Inv(s, base) && IsUnfinished(s, a) && (phase.Subscribing? || phase.Done?)
    requires s.attempts[a].phase.Registered() ==> phase.Registered()
    requires s' == InPhaseOf(s, a, phase).(router := s'.router)
    requires Names(s'.router) == if phase.Registered() then Names(s.router) + {s.attempts[a].name} else Names(s.router)
    ensures Inv(s', base)
  {
    var name := s.attempts[a].name;
    assert AttemptOk(s, base, a);
    forall n ensures InflightOk(s', n) { assert InflightOk(s, n); }
    forall b | 0 <= b < |s'.attempts| ensures AttemptOk(s', base, b) { assert AttemptOk(s, base, b); }
    forall n ensures RouterOk(s', base, n) { assert RouterOk(s, base, n) && InflightOk(s, n); }
    CallsStay(s, s');
  }

  /** A successful introduce never finds its name taken, so it registers. */
  lemma IntroducedRegisters(s: State, base: set<string>, a: nat)
    requires Inv(s, base) && InPhase(s, a, Introducing)
    ensures s.attempts[a].name !in Names(s.router)
    ensures Introduced(s, a) == InPhaseOf(s, a, Subscribing).(router := s.router + [Live(s.attempts[a].name, a)])
  {
    assert AttemptOk(s, base, a) && RouterOk(s, base, s.attempts[a].name);
    SetNew(s.router, Live(s.attempts[a].name, a));
  }

  lemma SubscribedKeeps(s: State, base: set<string>, a: nat, s': State, key: SubKey)
    requires Inv(s, base) && InPhase(s, a, Subscribing) && key.location == s.attempts[a].name
    requires s' == s.(channelSubs := s.channelSubs + {key}) || s' == s.(topicSubs := s.topicSubs + {key})
    ensures Inv(s', base)
  {
    assert AttemptOk(s, base, a) && RouterOk(s, base, key.location);
    forall n ensures InflightOk(s', n) { assert InflightOk(s, n); }
    forall b | 0 <= b < |s'.attempts| ensures AttemptOk(s', base, b) { assert AttemptOk(s, base, b); }
    forall n ensures RouterOk(s', base, n) { assert RouterOk(s, base, n); }
    CallsStay(s, s');
  }

  lemma NamedKeeps(s: State, base: set<string>)
    requires Inv(s, base)
    ensures Inv(s.(hasName := true), base)
  {
    var s' := s.(hasName := true);
    forall n ensures InflightOk(s', n) { assert InflightOk(s, n); }
    forall b | 0 <= b < |s'.attempts| ensures AttemptOk(s', base, b) { assert AttemptOk(s, base, b); }
    forall n ensures RouterOk(s', base, n) { assert RouterOk(s, base, n); }
    CallsStay(s, s');
  }

  lemma NeverReplacing(s: State, base: set<string>, a: nat)
    requires Inv(s, base) && a < |s.attempts|
    ensures !s.attempts[a].phase.Replacing? && !s.attempts[a].phase.Threw?
  {
    assert AttemptOk(s, base, a);
  }

  lemma StepKeepsInv(s: State, base: set<string>, op: Op)
    requires Inv(s, base) && Possible(s, op) && !OpCrowds(s, op)
    ensures Inv(After(s, op), base)
  {
    match op
    case Ensure(names, r, force, allowWithoutName) => EnsuredKeeps(s, base, names, r, force, allowWithoutName);
    case IntroduceSucceeds(a) =>
      IntroducedRegisters(s, base, a);
      NamesLast(s.router, Live(s.attempts[a].name, a));
      PhaseKeeps(s, base, a, Subscribing, After(s, op));
    case IntroduceFails(a) => PhaseKeeps(s, base, a, Done(false), After(s, op));
    case Reregister(a) => NeverReplacing(s, base, a);
    case SubscribeChannel(a, channel) => SubscribedKeeps(s, base, a, After(s, op), SubKey(s.attempts[a].name, channel));
    case SubscribeTopic(a, topic) => SubscribedKeeps(s, base, a, After(s, op), SubKey(s.attempts[a].name, topic));
    case Finish(a) =>
      assert AttemptOk(s, base, a) && RouterOk(s, base, s.attempts[a].name);
      assert Names(s.router) == Names(s.router) + {s.attempts[a].name};
      PhaseKeeps(s, base, a, Done(true), After(s, op));
    case NameSession => NamedKeeps(s, base);
    case Return(c) => ReturnKeeps(s, base, c);
  }

  // ---------------------------------------------------------------- a crowding call breaks it

  /** An attempt that has not failed is no longer the latest for its name. */
  ghost predicate IsOvertaken(t: State, x: nat) {
    && x < |t.attempts| && t.attempts[x].phase != Done(false)
    && t.attempts[x].name in t.inflight && x < t.inflight[t.attempts[x].name]
  }

  /** What happened since `s`: the attempts there were are untouched, and the name's latest attempt is a new one. */
  predicate IsNew(s: State, t: State, name: string) {
    name in t.inflight && |s.attempts| <= t.inflight[name] < |t.attempts|
  }

  /** A pass of forced calls over `names`: names it would start get a new attempt, and the router gains only such
      names. */
  ghost predicate ForcedPass(s: State, t: State, names: seq<string>, r: Resolved) {
    && |s.attempts| <= |t.attempts| && t.attempts[..|s.attempts|] == s.attempts && t.hasName == s.hasName
    && (s.hasName ==> t.router == s.router)
    && (forall name | name in Names(t.router) && name !in Names(s.router) :: IsNew(s, t, name))
    && (forall name | name in names && WouldStart(s, name, r) :: IsNew(s, t, name))
  }

  lemma {:induction false} ForcedPasses(s: State, names: seq<string>, r: Resolved)
    ensures ForcedPass(s, AttachAll(s, names, r, true).state, names, r)
  {
    if names == [] {
    } else {
      var before, last := names[..|names| - 1], names[|names| - 1];
      var t := AttachAll(s, before, r, true).state;
      assert names == before + [last];
      ForcedPasses(s, before, r);
      if WouldStart(t, last, r) {
        SetNew(t.router, Live(last, |t.attempts|));
        NamesLast(t.router, Live(last, |t.attempts|));
      }
    }
  }

  lemma OvertakenStays(t: State, x: nat, name: string, refused: bool)
    requires IsOvertaken(t, x) && forall n | n in t.inflight :: t.inflight[n] < |t.attempts|
    ensures IsOvertaken(Started(t, name, refused), x)
  {
  }

  /** Attempts a forced pass has started and that wait for their introduce. */
  lemma {:induction false} StartedIntroduces(s: State, names: seq<string>, r: Resolved, name: string)
    requires s.hasName && name in names && WouldStart(s, name, r) && name !in r.refused
    ensures var t := AttachAll(s, names, r, true).state;
            name in t.inflight && t.inflight[name] < |t.attempts|
                && t.attempts[t.inflight[name]] == Attempt(name, Introducing)
  {
    var before, last := names[..|names| - 1], names[|names| - 1];
    assert names == before + [last];
    ForcedPasses(s, before, r);
    if last != name {
      StartedIntroduces(s, before, r, name);
    }
  }

  ghost predicate EntriesExist(t: State) {
    forall n | n in t.inflight :: t.inflight[n] < |t.attempts|
  }

  lemma {:induction false} EntriesStayExisting(s: State, names: seq<string>, r: Resolved)
    requires EntriesExist(s)
    ensures EntriesExist(AttachAll(s, names, r, true).state)
  {
    if names == [] {
    } else {
      EntriesStayExisting(s, names[..|names| - 1], r);
    }
  }

  lemma {:induction false} TwiceOvertakes(s: State, names: seq<string>, r: Resolved, i: nat) returns (x: nat)
    requires EntriesExist(s) && s.hasName && i < |names| && WouldStart(s, names[i], r) && names[i] !in r.refused
    requires names[i] in names[..i]
    ensures IsOvertaken(AttachAll(s, names, r, true).state, x)
  {
    var before, last := names[..|names| - 1], names[|names| - 1];
    var t := AttachAll(s, before, r, true).state;
    ForcedPasses(s, before, r);
    EntriesStayExisting(s, before, r);
    if i == |names| - 1 {
      assert names[..i] == before;
      StartedIntroduces(s, before, r, last);
      x := t.inflight[last];
    } else {
      assert names[..i] == before[..i];
      x := TwiceOvertakes(s, before, r, i);
      if WouldStart(t, last, r) {
        OvertakenStays(t, x, last, last in r.refused);
      }
    }
  }

  lemma BusyIsOvertaken(s: State, names: seq<string>, r: Resolved, name: string)
    requires InflightOk(s, name) && IsBusy(s, name) && name in names && WouldStart(s, name, r)
    ensures IsOvertaken(AttachAll(s, names, r, true).state, s.inflight[name])
  {
    var t, x := AttachAll(s, names, r, true).state, s.inflight[name];
    ForcedPasses(s, names, r);
    assert t.attempts[..|s.attempts|][x] == s.attempts[x];
    assert IsNew(s, t, name);
  }

  lemma CrowdingOvertakes(s: State, base: set<string>, names: seq<string>, r: Resolved) returns (x: nat)
    requires Inv(s, base) && Crowds(s, names, r)
    ensures IsOvertaken(AttachAll(s, names, r, true).state, x)
  {
    var i :| CrowdsAt(s, names, r, i);
    forall n | n in s.inflight ensures s.inflight[n] < |s.attempts| {
      assert InflightOk(s, n);
    }
    if IsBusy(s, names[i]) {
      assert InflightOk(s, names[i]);
      BusyIsOvertaken(s, names, r, names[i]);
      x := s.inflight[names[i]];
    } else {
      x := TwiceOvertakes(s, names, r, i);
    }
  }

  lemma OvertakenIsUnsound(t: State, base: set<string>, x: nat)
    requires IsOvertaken(t, x)
    ensures !Inv(t, base)
  {
    assert !AttemptOk(t, base, x);
  }

  /** A step keeps the invariant exactly when it does not crowd; steps that are not forced calls never do. */
  lemma StepAndInv(s: State, base: set<string>, op: Op)
    requires Inv(s, base) && Possible(s, op)
    ensures Inv(After(s, op), base) <==> !OpCrowds(s, op)
  {
    if OpCrowds(s, op) {
      var asked := NonLocal(op.names);
      var x := CrowdingOvertakes(s, base, asked, op.resolved);
      var i :| CrowdsAt(s, asked, op.resolved, i);
      assert asked[i] in asked;
      assert IsOvertaken(After(s, op), x);
      OvertakenIsUnsound(After(s, op), base, x);
    } else {
      StepKeepsInv(s, base, op);
    }
  }

  // ---------------------------------------------------------------- every run

  /** Before any call: what startup attached, and its subscriptions. */
  ghost predicate Initial(s: State) {
    && s.attempts == [] && s.inflight == map[] && s.calls == []
    && LOCAL_LOCATION in Names(s.router) && SubsOk(s)
  }

  datatype Run = Start(first: State) | Later(before: Run, op: Op) {
    ghost predicate Valid()
      decreases this, 0
    {
      if Start? then Initial(first) else before.Valid() && Possible(before.End(), op)
    }

    ghost function End(): State
      requires Valid()
      decreases this, 1
    {
      if Start? then first else After(before.End(), op)
    }

    ghost predicate NeverCrowds()
      requires Valid()
      decreases this, 1
    {
      Later? ==> before.NeverCrowds() && !OpCrowds(before.End(), op)
    }

    predicate Forces() {
      Later? && (before.Forces() || (op.Ensure? && op.force))
    }

    function First(): State {
      if Start? then first else before.First()
    }
  }

  /** A run without forced calls crowds nothing. */
  lemma {:induction false} UnforcedNeverCrowds(run: Run)
    requires run.Valid() && !run.Forces()
    ensures run.NeverCrowds()
  {
    if run.Start? {
    } else {
      UnforcedNeverCrowds(run.before);
    }
  }

  lemma InitialKeepsInv(s: State)
    requires Initial(s)
    ensures Inv(s, Names(s.router))
  {
    assert forall n :: InflightOk(s, n) && RouterOk(s, Names(s.router), n);
  }

  lemma {:induction false} ReachableKeepsInv(run: Run)
    requires run.Valid() && run.NeverCrowds()
    ensures Inv(run.End(), Names(run.First().router))
  {
    if run.Start? {
      InitialKeepsInv(run.first);
    } else {
      ReachableKeepsInv(run.before);
      StepAndInv(run.before.End(), Names(run.First().router), run.op);
    }
  }

  /** In every run that never crowds nothing is ever replaced, registering never meets a duplicate, and an attempt
      waiting for its introduce does not find its name taken. */
  lemma NothingIsReplaced(run: Run, a: nat)
    requires run.Valid() && run.NeverCrowds() && a < |run.End().attempts|
    ensures var s := run.End();
            && s.attempts[a].phase != Replacing && s.attempts[a].phase != Threw
            && (s.attempts[a].phase == Introducing ==> s.attempts[a].name !in Names(s.router))
  {
    var s, base := run.End(), Names(run.First().router);
    ReachableKeepsInv(run);
    assert AttemptOk(s, base, a);
    if s.attempts[a].phase == Introducing {
      IntroducedRegisters(s, base, a);
    }
  }

  /** In such a run a location is attached again only after its attempt has failed. */
  lemma RetriesFollowFailures(run: Run, a: nat, b: nat)
    requires run.Valid() && run.NeverCrowds() && a < b < |run.End().attempts|
    requires run.End().attempts[a].name == run.End().attempts[b].name
    ensures run.End().attempts[a].phase == Done(false)
  {
    var base := Names(run.First().router);
    ReachableKeepsInv(run);
    assert AttemptOk(run.End(), base, a) && AttemptOk(run.End(), base, b);
  }

  /** The router holds exactly what it held at first and the locations whose latest attempt registered; subscriptions
      belong to locations in the router. */
  lemma RouterIsExact(run: Run, name: string, key: SubKey)
    requires run.Valid() && run.NeverCrowds()
    ensures name in Names(run.End().router) <==> name in Names(run.First().router) || IsAttached(run.End(), name)
    ensures key in run.End().channelSubs || key in run.End().topicSubs ==> key.location in Names(run.End().router)
  {
    ReachableKeepsInv(run);
    assert RouterOk(run.End(), Names(run.First().router), name);
  }

  // ------------------------------------------------ without forced calls

  predicate IsLatest(s: State, a: nat)
    requires a < |s.attempts|
  {
    s.attempts[a].name in s.inflight && s.inflight[s.attempts[a].name] == a
  }

  /** Every attempt is the latest one for its name. */
  ghost predicate OnePerName(s: State) {
    forall a | 0 <= a < |s.attempts| :: IsLatest(s, a)
  }

  lemma {:induction false} UnforcedPassKeepsOne(s: State, names: seq<string>, r: Resolved)
    requires OnePerName(s)
    ensures OnePerName(AttachAll(s, names, r, false).state)
  {
    if names == [] {
    } else {
      var t := AttachAll(s, names[..|names| - 1], r, false).state;
      var t' := AttachAll(s, names, r, false).state;
      UnforcedPassKeepsOne(s, names[..|names| - 1], r);
      forall a | 0 <= a < |t'.attempts| ensures IsLatest(t', a) {
        assert a < |t.attempts| ==> IsLatest(t, a);
      }
    }
  }

  lemma UnforcedStepKeepsOne(s: State, op: Op)
    requires OnePerName(s) && Possible(s, op) && (op.Ensure? ==> !op.force)
    ensures OnePerName(After(s, op))
  {
    var s' := After(s, op);
    if op.Ensure? {
      var t := AttachAll(s, NonLocal(op.names), op.resolved, false).state;
      UnforcedPassKeepsOne(s, NonLocal(op.names), op.resolved);
      forall a | 0 <= a < |s'.attempts| ensures IsLatest(s', a) {
        assert if |s'.attempts| == |s.attempts| && s'.attempts == s.attempts && s'.inflight == s.inflight
               then IsLatest(s, a) else IsLatest(t, a);
      }
    } else {
      forall a | 0 <= a < |s'.attempts| ensures IsLatest(s', a) {
        assert IsLatest(s, a);
      }
    }
  }

  lemma {:induction false} UnforcedRunsKeepOne(run: Run)
    requires run.Valid() && !run.Forces()
    ensures OnePerName(run.End())
  {
    if run.Start? {
    } else {
      UnforcedRunsKeepOne(run.before);
      UnforcedStepKeepsOne(run.before.End(), run.op);
    }
  }

  /** In every interleaving of non-forced calls no location is attached twice. */
  lemma AttachesAtMostOnce(run: Run, a: nat, b: nat)
    requires run.Valid() && !run.Forces() && a < b < |run.End().attempts|
    ensures run.End().attempts[a].name != run.End().attempts[b].name
  {
    UnforcedRunsKeepOne(run);
    assert IsLatest(run.End(), a) && IsLatest(run.End(), b);
  }

  /** There a failed attempt's location is in neither the router nor the subscription maps. */
  lemma FailedLeavesNothing(run: Run, a: nat, key: SubKey)
    requires run.Valid() && !run.Forces() && a < |run.End().attempts|
    ensures var s := run.End();
            && (s.attempts[a].name in Names(s.router) <==> s.attempts[a].phase.Registered())
            && (key.location == s.attempts[a].name && s.attempts[a].phase == Done(false) ==>
                  key !in s.channelSubs && key !in s.topicSubs)
  {
    var s, base := run.End(), Names(run.First().router);
    UnforcedNeverCrowds(run);
    ReachableKeepsInv(run);
    UnforcedRunsKeepOne(run);
    assert IsLatest(s, a) && AttemptOk(s, base, a) && RouterOk(s, base, s.attempts[a].name);
  }

  // ------------------------------------------------ what calls wait for

  lemma ReturnedIsDone(s: State, c: Call, a: nat)
    requires CallOk(s, c) && c.returned && !c.passesOver && a in c.asked
    ensures a < |s.attempts| && !IsUnfinished(s, a)
  {
    assert a in c.asked + c.awaited;
  }

  /** A call that returned without passing an attempt over has outlasted every attempt for the names it asked for. */
  lemma ReturnsAfterAttempts(run: Run, c: nat, a: nat)
    requires run.Valid() && run.NeverCrowds() && c < |run.End().calls|
    requires run.End().calls[c].returned && !run.End().calls[c].passesOver && a in run.End().calls[c].asked
    ensures a < |run.End().attempts| && run.End().attempts[a].phase.Finished()
  {
    ReachableKeepsInv(run);
    ReturnedIsDone(run.End(), run.End().calls[c], a);
  }

  /** The call looks for work and finds an attempt that it does not wait for. */
  predicate MeetsPassedOver(s: State, names: seq<string>, r: Resolved, force: bool, allowWithoutName: bool) {
    (force || allowWithoutName || s.hasName) && NeedsWork(s, names, force) && PassesOver(s, names, r, force)
  }

  /** A call waits for every unfinished attempt of its names, except exactly when some name needs a new attempt while
      another is in the router and still subscribing, or, when forced, can no longer be constructed. */
  lemma WaitsForAllExactly(run: Run, names: seq<string>, r: Resolved, force: bool, allowWithoutName: bool)
    requires run.Valid() && run.NeverCrowds() && (force ==> !Crowds(run.End(), NonLocal(names), r))
    ensures var s' := Ensured(run.End(), names, r, force, allowWithoutName);
            var c := s'.calls[|run.End().calls|];
            && (Covers(s', c) <==> !c.passesOver)
            && (c.passesOver <==> MeetsPassedOver(run.End(), NonLocal(names), r, force, allowWithoutName))
  {
    var s, base, asked := run.End(), Names(run.First().router), NonLocal(names);
    var s' := Ensured(s, names, r, force, allowWithoutName);
    ReachableKeepsInv(run);
    if (force || allowWithoutName || s.hasName) && NeedsWork(s, asked, force) {
      WorkingCall(s, base, asked, r, force);
      var t := AttachAll(s, asked, r, force).state;
      AttachAllKeeps(s, base, asked, r, force);
      assert forall a :: IsUnfinished(s', a) <==> IsUnfinished(t, a);
    } else {
      IdleCall(s, base, asked, s'.calls[|s.calls|]);
      assert forall a :: IsUnfinished(s', a) <==> IsUnfinished(s, a);
    }
  }
}
