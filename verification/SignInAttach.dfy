/** Lazy attach next to sign-in: once a sign-in has saved its tokens it attaches the location itself
    (`tools/identity.ts`), without entering the attempt where concurrent calls would find it. */
module SignInAttach {
  import opened Common
  import opened Router
  import opened LazyAttachModel
  import LazyAttach

  /** `direct` lists the attempts that sign-ins have started. */
  datatype System = System(lazy: State, direct: set<nat>)

  datatype Step = Lazily(op: Op) | Directly(name: string, refused: bool)

  /** The reserved local location is always refused. */
  predicate Enabled(x: System, step: Step) {
    match step
    case Lazily(op) => Possible(x.lazy, op)
    case Directly(name, refused) => name == LOCAL_LOCATION ==> refused
  }

  function Next(x: System, step: Step): System
    requires Enabled(x, step)
  {
    match step
    case Lazily(op) => x.(lazy := After(x.lazy, op))
    case Directly(name, refused) => System(Signed(x.lazy, name, refused), x.direct + {|x.lazy.attempts|})
  }

  // ---------------------------------------------------------------- the invariant

  predicate Attaches(s: State, a: nat, name: string) {
    IsUnfinished(s, a) && s.attempts[a].name == name
  }

  /** Some attempt for the name is not finished. */
  ghost predicate IsPending(s: State, name: string) {
    exists a: nat :: Attaches(s, a, name)
  }

  ghost predicate Sole(s: State) {
    forall a: nat, b: nat | IsUnfinished(s, a) && IsUnfinished(s, b) && s.attempts[a].name == s.attempts[b].name ::
      a == b
  }

  /** An attempt that subscribes has its own transport in the router, only one a sign-in started takes a transport out,
      and none meets a duplicate. */
  predicate AttemptFits(s: State, direct: set<nat>, a: nat)
    requires a < |s.attempts|
  {
    var name, phase := s.attempts[a].name, s.attempts[a].phase;
    && (!phase.Finished() ==> name != LOCAL_LOCATION)
    && !phase.Threw?
    && (phase.Introducing? ==> s.hasName && (a in direct || name !in Names(s.router)))
    && (phase.Replacing? ==> a in direct && name !in Names(s.router))
    && (phase.Subscribing? ==> name in Names(s.router) && Lookup(s.router, name) == Some(Live(name, a)))
  }

  ghost predicate AllFit(s: State, direct: set<nat>) {
    && (forall a | 0 <= a < |s.attempts| :: AttemptFits(s, direct, a))
    && (forall a | a in direct :: a < |s.attempts|)
  }

  ghost predicate Sound(s: State, direct: set<nat>) {
    Sole(s) && AllFit(s, direct) && SubsOk(s) && LOCAL_LOCATION in Names(s.router)
  }

  // ---------------------------------------------------------------- starting an attempt

  lemma NameJoins(router: seq<Transport>, t: Transport)
    requires t.source !in Names(router)
    ensures Names(Set(router, t)) == Names(router) + {t.source}
    ensures forall name :: Lookup(Set(router, t), name) == if name == t.source then Some(t) else Lookup(router, name)
  {
    SetNew(router, t);
    NamesLast(router, t);
    forall name ensures Lookup(Set(router, t), name) == if name == t.source then Some(t) else Lookup(router, name) {
      LookupLast(router, t, name);
    }
  }

  lemma NameLeaves(router: seq<Transport>, gone: string)
    ensures Names(Deleted(router, gone)) == Names(router) - {gone}
    ensures forall name :: Lookup(Deleted(router, gone), name) == if name == gone then None else Lookup(router, name)
  {
    forall name
      ensures Lookup(Deleted(router, gone), name) == if name == gone then None else Lookup(router, name)
      ensures name in Names(Deleted(router, gone)) <==> name in Names(router) && name != gone
    {
      DeletedIsRemoval(router, gone, name);
      LookupFinds(Deleted(router, gone), name);
      LookupFinds(router, name);
    }
  }

  lemma StartedIsSound(s: State, direct: set<nat>, name: string, refused: bool)
    requires Sound(s, direct) && name !in Names(s.router) && (refused || !IsPending(s, name))
    ensures Sound(Started(s, name, refused), direct)
  {
    var s' := Started(s, name, refused);
    NameJoins(s.router, Live(name, |s.attempts|));
    forall a | 0 <= a < |s'.attempts| ensures AttemptFits(s', direct, a) {
      if a < |s.attempts| {
        assert AttemptFits(s, direct, a);
        assert !refused ==> !Attaches(s, a, name);
      }
    }
    forall a: nat, b: nat | IsUnfinished(s', a) && IsUnfinished(s', b) && s'.attempts[a].name == s'.attempts[b].name
      ensures a == b
    {
      assert !refused ==> !Attaches(s, a, name) && !Attaches(s, b, name);
      assert a < |s.attempts| && b < |s.attempts| ==> IsUnfinished(s, a) && IsUnfinished(s, b);
    }
  }

  lemma SignedIsSound(s: State, direct: set<nat>, name: string, refused: bool)
    requires Sound(s, direct) && (refused || (!IsPending(s, name) && name != LOCAL_LOCATION))
    ensures Sound(Signed(s, name, refused), direct + {|s.attempts|})
  {
    var s', direct' := Signed(s, name, refused), direct + {|s.attempts|};
    NameLeaves(s.router, name);
    if name !in Names(s.router) {
      NameJoins(s.router, Live(name, |s.attempts|));
    }
    forall a | 0 <= a < |s'.attempts| ensures AttemptFits(s', direct', a) {
      if a < |s.attempts| {
        assert AttemptFits(s, direct, a);
        assert !refused ==> !Attaches(s, a, name);
      }
    }
    forall a: nat, b: nat | IsUnfinished(s', a) && IsUnfinished(s', b) && s'.attempts[a].name == s'.attempts[b].name
      ensures a == b
    {
      assert !refused ==> !Attaches(s, a, name) && !Attaches(s, b, name);
      assert a < |s.attempts| && b < |s.attempts| ==> IsUnfinished(s, a) && IsUnfinished(s, b);
    }
  }

  /** Attaching a name whose attempt is pending breaks it. */
  lemma SignedTwice(s: State, direct: set<nat>, name: string)
    requires Sound(s, direct) && IsPending(s, name)
    ensures !Sound(Signed(s, name, false), direct + {|s.attempts|})
  {
    var s', direct' := Signed(s, name, false), direct + {|s.attempts|};
    var a: nat :| Attaches(s, a, name);
    assert AttemptFits(s, direct, a) && s'.attempts[a] == s.attempts[a];
    if s.hasName {
      assert IsUnfinished(s', a) && IsUnfinished(s', |s.attempts|);
    } else {
      NameLeaves(s.router, name);
      if name !in Names(s.router) {
        NameJoins(s.router, Live(name, |s.attempts|));
      }
      assert !AttemptFits(s', direct', a);
    }
  }

  // ---------------------------------------------------------------- a pass of `lazyAttachOne`

  /** A call starts an attempt for its `i`-th name although one is pending: from before, or, when the call is forced,
      one it has just started itself. */
  ghost predicate CrowdsAt(s: State, names: seq<string>, r: Resolved, force: bool, i: nat) {
    && i < |names| && Starts(s, names[i], r, force) && names[i] !in r.refused
    && (IsPending(s, names[i]) || (s.hasName && force && names[i] in names[..i]))
  }

  ghost predicate Crowds(s: State, names: seq<string>, r: Resolved, force: bool) {
    exists i: nat :: CrowdsAt(s, names, r, force, i)
  }

  /** The name was to be started, or has come in since. */
  predicate IsTouched(s: State, t: State, names: seq<string>, r: Resolved, force: bool, name: string) {
    || (name in names && Starts(s, name, r, force))
    || (name in t.inflight && name !in s.inflight)
    || (name in Names(t.router) && name !in Names(s.router))
  }

  ghost predicate IsAdded(s: State, t: State, name: string) {
    exists a: nat | |s.attempts| <= a < |t.attempts| :: t.attempts[a] == Attempt(name, Introducing)
  }

  ghost predicate HasStarted(s: State, t: State, name: string, r: Resolved) {
    && name in t.inflight
    && (name !in r.refused ==> if s.hasName then IsAdded(s, t, name) else name in Names(t.router))
  }

  /** What a pass over `names` has done: attempts are added, the router grows for sessions without a name only, and each
      name that was to be started has been. */
  ghost predicate Passed(s: State, t: State, names: seq<string>, r: Resolved, force: bool) {
    && s.attempts <= t.attempts && t.hasName == s.hasName
    && Names(s.router) <= Names(t.router) && (s.hasName ==> t.router == s.router)
    && s.inflight.Keys <= t.inflight.Keys
    && (forall name | IsTouched(s, t, names, r, force, name) :: HasStarted(s, t, name, r))
  }

  lemma OneMoreDoes(s: State, asked: Asked, before: seq<string>, last: string, r: Resolved, force: bool)
    requires Passed(s, asked.state, before, r, force)
    ensures Passed(s, AttachOne(asked, last, r, force).state, before + [last], r, force)
  {
    var t, t' := asked.state, AttachOne(asked, last, r, force).state;
    if Starts(t, last, r, force) {
      NameJoins(t.router, Live(last, |t.attempts|));
      assert t'.attempts[|t.attempts|] == Attempt(last, t'.attempts[|t.attempts|].phase);
    }
    forall name | IsTouched(s, t', before + [last], r, force, name) ensures HasStarted(s, t', name, r) {
      assert IsTouched(s, t, before, r, force, name) ==> HasStarted(s, t, name, r);
      if IsAdded(s, t, name) {
        var a: nat :| |s.attempts| <= a < |t.attempts| && t.attempts[a] == Attempt(name, Introducing);
        assert t'.attempts[a] == t.attempts[a];
      }
    }
  }

  lemma {:induction false} PassDoes(s: State, names: seq<string>, r: Resolved, force: bool)
    ensures Passed(s, AttachAll(s, names, r, force).state, names, r, force)
  {
    if names == [] {
    } else {
      var before, last := names[..|names| - 1], names[|names| - 1];
      PassDoes(s, before, r, force);
      assert names == before + [last];
      OneMoreDoes(s, AttachAll(s, before, r, force), before, last, r, force);
    }
  }

  /** Where a pending attempt of a name comes from. */
  ghost predicate PendingFrom(s: State, t: State, names: seq<string>, r: Resolved, force: bool, name: string) {
    IsPending(t, name) ==>
      IsPending(s, name) || (s.hasName && name in names && Starts(s, name, r, force) && name !in r.refused)
  }

  lemma OnePendingFrom(s: State, asked: Asked, before: seq<string>, last: string, r: Resolved, force: bool,
                       name: string)
    requires Passed(s, asked.state, before, r, force) && PendingFrom(s, asked.state, before, r, force, name)
    ensures PendingFrom(s, AttachOne(asked, last, r, force).state, before + [last], r, force, name)
  {
    var t, t' := asked.state, AttachOne(asked, last, r, force).state;
    if IsPending(t', name) {
      var a: nat :| Attaches(t', a, name);
      assert a < |t.attempts| ==> Attaches(t, a, name);
    }
  }

  lemma {:induction false} AllPendingFrom(s: State, names: seq<string>, r: Resolved, force: bool, name: string)
    ensures PendingFrom(s, AttachAll(s, names, r, force).state, names, r, force, name)
  {
    if names == [] {
    } else {
      var before, last := names[..|names| - 1], names[|names| - 1];
      assert names == before + [last];
      PassDoes(s, before, r, force);
      AllPendingFrom(s, before, r, force, name);
      OnePendingFrom(s, AttachAll(s, before, r, force), before, last, r, force, name);
    }
  }

  lemma CrowdsBefore(s: State, names: seq<string>, r: Resolved, force: bool)
    requires names != [] && Crowds(s, names[..|names| - 1], r, force)
    ensures Crowds(s, names, r, force)
  {
    var before := names[..|names| - 1];
    var i: nat :| CrowdsAt(s, before, r, force, i);
    assert names[..i] == before[..i];
    assert CrowdsAt(s, names, r, force, i);
  }

  lemma NextIsNotPending(s: State, t: State, before: seq<string>, last: string, r: Resolved, force: bool)
    requires Passed(s, t, before, r, force) && PendingFrom(s, t, before, r, force, last)
    requires !CrowdsAt(s, before + [last], r, force, |before|) && Starts(t, last, r, force)
    ensures last in r.refused || !IsPending(t, last)
  {
    assert (before + [last])[..|before|] == before;
    assert IsTouched(s, t, before, r, force, last) ==> HasStarted(s, t, last, r);
  }

  lemma {:induction false} PassIsSound(s: State, direct: set<nat>, names: seq<string>, r: Resolved, force: bool)
    requires Sound(s, direct) && !Crowds(s, names, r, force)
    ensures Sound(AttachAll(s, names, r, force).state, direct)
  {
    if names == [] {
    } else {
      var before, last := names[..|names| - 1], names[|names| - 1];
      var t := AttachAll(s, before, r, force).state;
      assert names == before + [last];
      if Crowds(s, before, r, force) {
        CrowdsBefore(s, names, r, force);
      }
      PassIsSound(s, direct, before, r, force);
      PassDoes(s, before, r, force);
      AllPendingFrom(s, before, r, force, last);
      assert !CrowdsAt(s, names, r, force, |before|);
      if Starts(t, last, r, force) {
        NextIsNotPending(s, t, before, last, r, force);
        StartedIsSound(t, direct, last, last in r.refused);
      }
    }
  }

  // ------------------------------------------------ a crowding pass breaks it

  /** The name has a new attempt beside the pending one, or, in a session without a name, has registered under it. */
  lemma PendingCrowds(s: State, direct: set<nat>, t: State, names: seq<string>, r: Resolved, force: bool, name: string)
    requires Sound(s, direct) && Passed(s, t, names, r, force)
    requires name in names && Starts(s, name, r, force) && name !in r.refused && IsPending(s, name)
    ensures !Sound(t, direct)
  {
    var a: nat :| Attaches(s, a, name);
    assert IsTouched(s, t, names, r, force, name) && HasStarted(s, t, name, r);
    assert AttemptFits(s, direct, a) && t.attempts[a] == s.attempts[a];
    if s.hasName {
      var b: nat :| |s.attempts| <= b < |t.attempts| && t.attempts[b] == Attempt(name, Introducing);
      assert IsUnfinished(t, a) && IsUnfinished(t, b);
    } else {
      assert !AttemptFits(t, direct, a);
    }
  }

  /** Two attempts of one name are unfinished. */
  ghost predicate HasTwo(t: State, name: string) {
    exists a: nat, b: nat :: a != b && Attaches(t, a, name) && Attaches(t, b, name)
  }

  lemma TwoStay(t: State, t': State, name: string)
    requires HasTwo(t, name) && t.attempts <= t'.attempts
    ensures HasTwo(t', name)
  {
    var a: nat, b: nat :| a != b && Attaches(t, a, name) && Attaches(t, b, name);
    assert Attaches(t', a, name) && Attaches(t', b, name);
  }

  lemma TwoAreTooMany(t: State, direct: set<nat>, name: string)
    requires HasTwo(t, name)
    ensures !Sound(t, direct)
  {
  }

  lemma {:induction false} TwiceCrowds(s: State, names: seq<string>, r: Resolved, i: nat)
    requires s.hasName && i < |names| && Starts(s, names[i], r, true) && names[i] !in r.refused
    requires names[i] in names[..i]
    ensures HasTwo(AttachAll(s, names, r, true).state, names[i])
  {
    var before, last := names[..|names| - 1], names[|names| - 1];
    var t, t' := AttachAll(s, before, r, true).state, AttachAll(s, names, r, true).state;
    PassDoes(s, before, r, true);
    if i < |before| {
      assert names[..i] == before[..i];
      TwiceCrowds(s, before, r, i);
      TwoStay(t, t', names[i]);
    } else {
      assert names[..i] == before;
      assert IsTouched(s, t, before, r, true, last) && HasStarted(s, t, last, r);
      var a: nat :| |s.attempts| <= a < |t.attempts| && t.attempts[a] == Attempt(last, Introducing);
      assert Attaches(t', a, last) && Attaches(t', |t.attempts|, last);
    }
  }

  lemma CrowdedPassIsUnsound(s: State, direct: set<nat>, names: seq<string>, r: Resolved, force: bool)
    requires Sound(s, direct) && Crowds(s, names, r, force)
    ensures !Sound(AttachAll(s, names, r, force).state, direct)
  {
    var i: nat :| CrowdsAt(s, names, r, force, i);
    PassDoes(s, names, r, force);
    if IsPending(s, names[i]) {
      PendingCrowds(s, direct, AttachAll(s, names, r, force).state, names, r, force, names[i]);
    } else {
      TwiceCrowds(s, names, r, i);
      TwoAreTooMany(AttachAll(s, names, r, force).state, direct, names[i]);
    }
  }

  // ---------------------------------------------------------------- every step

  predicate Works(s: State, op: Op)
    requires op.Ensure?
  {
    (op.force || op.allowWithoutName || s.hasName) && NeedsWork(s, NonLocal(op.names), op.force)
  }

  /** A call that looks for work and starts an attempt beside a pending one, or a sign-in that does. */
  ghost predicate StepCrowds(x: System, step: Step) {
    match step
    case Lazily(op) => op.Ensure? && Works(x.lazy, op) && Crowds(x.lazy, NonLocal(op.names), op.resolved, op.force)
    case Directly(name, refused) => !refused && IsPending(x.lazy, name)
  }

  lemma SoundSame(s: State, direct: set<nat>, s': State)
    requires s'.attempts == s.attempts && s'.router == s.router && s'.hasName == s.hasName
    requires s'.channelSubs == s.channelSubs && s'.topicSubs == s.topicSubs && Sound(s, direct)
    ensures Sound(s', direct)
  {
    forall a | 0 <= a < |s'.attempts| ensures AttemptFits(s', direct, a) {
      assert AttemptFits(s, direct, a);
    }
    forall a: nat, b: nat | IsUnfinished(s', a) && IsUnfinished(s', b) && s'.attempts[a].name == s'.attempts[b].name
      ensures a == b
    {
      assert IsUnfinished(s, a) && IsUnfinished(s, b);
    }
  }

  lemma SoundWithoutCalls(s: State, direct: set<nat>, s': State)
    requires s'.attempts == s.attempts && s'.router == s.router && s'.hasName == s.hasName
    requires s'.channelSubs == s.channelSubs && s'.topicSubs == s.topicSubs
    ensures Sound(s', direct) <==> Sound(s, direct)
  {
    if Sound(s, direct) {
      SoundSame(s, direct, s');
    }
    if Sound(s', direct) {
      SoundSame(s', direct, s);
    }
  }

  lemma EnsureAndSound(s: State, direct: set<nat>, op: Op)
    requires Sound(s, direct) && op.Ensure?
    ensures Sound(After(s, op), direct)
       <==> !(Works(s, op) && Crowds(s, NonLocal(op.names), op.resolved, op.force))
  {
    var names := NonLocal(op.names);
    if Works(s, op) {
      var t := AttachAll(s, names, op.resolved, op.force).state;
      SoundWithoutCalls(t, direct, After(s, op));
      if Crowds(s, names, op.resolved, op.force) {
        CrowdedPassIsUnsound(s, direct, names, op.resolved, op.force);
      } else {
        PassIsSound(s, direct, names, op.resolved, op.force);
      }
    } else {
      SoundWithoutCalls(s, direct, After(s, op));
    }
  }

  lemma StillSole(s: State, s': State)
    requires Sole(s) && |s'.attempts| == |s.attempts|
    requires forall a | 0 <= a < |s.attempts| ::
               s'.attempts[a].name == s.attempts[a].name && (IsUnfinished(s', a) ==> IsUnfinished(s, a))
    ensures Sole(s')
  {
  }

  /** An attempt moves on without touching the router. */
  lemma MovesOnSoundly(s: State, direct: set<nat>, a: nat, phase: Phase)
    requires Sound(s, direct) && IsUnfinished(s, a) && phase.Done?
    ensures Sound(InPhaseOf(s, a, phase), direct)
  {
    var s' := InPhaseOf(s, a, phase);
    forall b | 0 <= b < |s'.attempts| ensures AttemptFits(s', direct, b) {
      assert AttemptFits(s, direct, b);
    }
    StillSole(s, s');
  }

  lemma OthersDiffer(s: State, a: nat, b: nat)
    requires Sole(s) && IsUnfinished(s, a) && b < |s.attempts| && b != a
    ensures s.attempts[b].phase.Finished() || s.attempts[b].name != s.attempts[a].name
  {
    assert s.attempts[b].phase.Finished() || IsUnfinished(s, b);
  }

  lemma RegistersSoundly(s: State, direct: set<nat>, a: nat)
    requires Sound(s, direct) && IsUnfinished(s, a) && s.attempts[a].name !in Names(s.router)
    ensures Sound(Registering(s, a), direct)
  {
    var s' := Registering(s, a);
    NameJoins(s.router, Live(s.attempts[a].name, a));
    forall b | 0 <= b < |s'.attempts| ensures AttemptFits(s', direct, b) {
      assert AttemptFits(s, direct, b);
      if b != a {
        OthersDiffer(s, a, b);
      }
    }
    StillSole(s, s');
  }

  lemma TakesOutSoundly(s: State, direct: set<nat>, a: nat)
    requires Sound(s, direct) && InPhase(s, a, Introducing) && s.attempts[a].name in Names(s.router)
    ensures Sound(Introduced(s, a), direct)
  {
    var s' := Introduced(s, a);
    NameLeaves(s.router, s.attempts[a].name);
    assert AttemptFits(s, direct, a);
    forall b | 0 <= b < |s'.attempts| ensures AttemptFits(s', direct, b) {
      assert AttemptFits(s, direct, b);
      if b != a {
        OthersDiffer(s, a, b);
      }
    }
    StillSole(s, s');
  }

  lemma SubscribesSoundly(s: State, direct: set<nat>, a: nat, s': State, key: SubKey)
    requires Sound(s, direct) && InPhase(s, a, Subscribing) && key.location == s.attempts[a].name
    requires s' == s.(channelSubs := s.channelSubs + {key}) || s' == s.(topicSubs := s.topicSubs + {key})
    ensures Sound(s', direct)
  {
    assert AttemptFits(s, direct, a);
    forall b | 0 <= b < |s'.attempts| ensures AttemptFits(s', direct, b) {
      assert AttemptFits(s, direct, b);
    }
    StillSole(s, s');
  }

  lemma NamesSoundly(s: State, direct: set<nat>)
    requires Sound(s, direct)
    ensures Sound(s.(hasName := true), direct)
  {
    var s' := s.(hasName := true);
    forall b | 0 <= b < |s'.attempts| ensures AttemptFits(s', direct, b) {
      assert AttemptFits(s, direct, b);
    }
    StillSole(s, s');
  }

  lemma OtherOpsAreSound(s: State, direct: set<nat>, op: Op)
    requires Sound(s, direct) && Possible(s, op) && !op.Ensure?
    ensures Sound(After(s, op), direct)
  {
    match op
    case IntroduceSucceeds(a) =>
      if s.attempts[a].name in Names(s.router) {
        TakesOutSoundly(s, direct, a);
      } else {
        RegistersSoundly(s, direct, a);
      }
    case IntroduceFails(a) => MovesOnSoundly(s, direct, a, Done(false));
    case Reregister(a) =>
      assert AttemptFits(s, direct, a);
      RegistersSoundly(s, direct, a);
    case Finish(a) => MovesOnSoundly(s, direct, a, Done(true));
    case SubscribeChannel(a, channel) =>
      SubscribesSoundly(s, direct, a, After(s, op), SubKey(s.attempts[a].name, channel));
    case SubscribeTopic(a, topic) =>
      SubscribesSoundly(s, direct, a, After(s, op), SubKey(s.attempts[a].name, topic));
    case NameSession => NamesSoundly(s, direct);
    case Return(c) => SoundWithoutCalls(s, direct, After(s, op));
  }

  ghost predicate Apart(x: System) {
    Sound(x.lazy, x.direct)
  }

  /** A step keeps attempts apart exactly when it starts none beside a pending one of its name: a sign-in while an
      attempt is pending, or a call, forced or not, that does not find the pending attempt because a sign-in started
      it. */
  lemma StepAndInv(x: System, step: Step)
    requires Apart(x) && Enabled(x, step)
    ensures Apart(Next(x, step)) <==> !StepCrowds(x, step)
  {
    match step
    case Lazily(op) =>
      if op.Ensure? {
        EnsureAndSound(x.lazy, x.direct, op);
      } else {
        OtherOpsAreSound(x.lazy, x.direct, op);
      }
    case Directly(name, refused) =>
      if !refused && IsPending(x.lazy, name) {
        SignedTwice(x.lazy, x.direct, name);
      } else {
        SignedIsSound(x.lazy, x.direct, name, refused);
      }
  }

  /** A sign-in ends no subscription but those of the transport it takes out, and begins none. */
  lemma SignInAndSubs(s: State, name: string, refused: bool, key: SubKey)
    ensures var s' := Signed(s, name, refused);
            && (key in s'.channelSubs <==> key in s.channelSubs && !TakenOut(s, s', key.location))
            && (key in s'.topicSubs <==> key in s.topicSubs && !TakenOut(s, s', key.location))
  {
    NameLeaves(s.router, name);
    if name !in Names(s.router) {
      NameJoins(s.router, Live(name, |s.attempts|));
    }
  }

  /** Whatever happens, a subscription ends only when its location's transport is taken out of the router, and then it
      does. */
  lemma SubscriptionsFollow(x: System, step: Step, key: SubKey)
    requires Enabled(x, step)
    ensures var s, s' := x.lazy, Next(x, step).lazy;
            && (key in s.channelSubs && !TakenOut(s, s', key.location) ==> key in s'.channelSubs)
            && (key in s.topicSubs && !TakenOut(s, s', key.location) ==> key in s'.topicSubs)
            && (TakenOut(s, s', key.location) ==> key !in s'.channelSubs && key !in s'.topicSubs)
  {
    match step
    case Lazily(op) => StepAndSubs(x.lazy, op);
    case Directly(name, refused) => SignInAndSubs(x.lazy, name, refused, key);
  }

  /** What a sign-in's attempt begins with. */
  lemma SignInStarts(s: State, name: string, refused: bool)
    ensures var s', a := Signed(s, name, refused), |s.attempts|;
            && |s'.attempts| == a + 1 && s'.attempts[..a] == s.attempts && s'.attempts[a].name == name
            && s'.inflight == s.inflight && s'.calls == s.calls
            && (s'.attempts[a].phase == Introducing <==> !refused && s.hasName)
            && (s'.attempts[a].phase == Replacing <==> !refused && !s.hasName && name in Names(s.router))
            && (s'.attempts[a].phase == Done(true) <==> !refused && !s.hasName && name !in Names(s.router))
            && (s'.attempts[a].phase == Done(false) <==> refused)
            && (refused || s.hasName ==> s'.router == s.router)
            && (!refused && !s.hasName ==>
                  if name in Names(s.router) then Names(s'.router) == Names(s.router) - {name}
                  else Names(s'.router) == Names(s.router) + {name} && Lookup(s'.router, name) == Some(Live(name, a)))
  {
    NameLeaves(s.router, name);
    if name !in Names(s.router) {
      NameJoins(s.router, Live(name, |s.attempts|));
    }
  }

  // ---------------------------------------------------------------- every run

  datatype Run = Start(first: State) | Later(before: Run, step: Step) {
    ghost predicate Valid()
      decreases this, 0
    {
      if Start? then Initial(first) else before.Valid() && Enabled(before.End(), step)
    }

    ghost function End(): System
      requires Valid()
      decreases this, 1
    {
      if Start? then System(first, {}) else Next(before.End(), step)
    }

    ghost predicate NeverCrowds()
      requires Valid()
      decreases this, 1
    {
      Later? ==> before.NeverCrowds() && !StepCrowds(before.End(), step)
    }

    ghost predicate AlwaysSound()
      requires Valid()
      decreases this, 1
    {
      Apart(End()) && (Later? ==> before.AlwaysSound())
    }

    predicate Forces() {
      Later? && (before.Forces() || (step.Lazily? && step.op.Ensure? && step.op.force))
    }
  }

  /** Attempts stay apart all through a run exactly when no step of it crowds. */
  lemma {:induction false} SoundExactly(run: Run)
    requires run.Valid()
    ensures run.AlwaysSound() <==> run.NeverCrowds()
  {
    if run.Start? {
      assert run.End().lazy == run.first;
    } else {
      SoundExactly(run.before);
      if run.before.AlwaysSound() {
        StepAndInv(run.before.End(), run.step);
      }
    }
  }

  /** In such a run no registration meets a duplicate, a transport is taken out only by an attempt a sign-in started, a
      subscribing attempt has its own transport in the router, and no name has two pending attempts. */
  lemma AttachesApart(run: Run, a: nat, b: nat)
    requires run.Valid() && run.NeverCrowds() && a < |run.End().lazy.attempts| && b < |run.End().lazy.attempts|
    ensures var s, name, phase := run.End().lazy, run.End().lazy.attempts[a].name, run.End().lazy.attempts[a].phase;
            && !phase.Threw?
            && (phase.Replacing? || (phase.Introducing? && name in Names(s.router)) ==> a in run.End().direct)
            && (phase.Subscribing? ==> Lookup(s.router, name) == Some(Transport(name, a, true, {})))
            && (s.attempts[b].name == name && a != b ==> phase.Finished() || s.attempts[b].phase.Finished())
  {
    SoundExactly(run);
    var x := run.End();
    assert Apart(x) && AttemptFits(x.lazy, x.direct, a);
    assert !x.lazy.attempts[a].phase.Finished() ==> IsUnfinished(x.lazy, a);
    assert !x.lazy.attempts[b].phase.Finished() ==> IsUnfinished(x.lazy, b);
  }

  lemma PendingIsEntered(s: State, base: set<string>, name: string)
    requires LazyAttachModel.Inv(s, base) && IsPending(s, name)
    ensures name in s.inflight
  {
    var a: nat :| Attaches(s, a, name);
    assert LazyAttachModel.AttemptOk(s, base, a);
  }

  /** Without sign-ins every attempt is entered where calls look for it, so that a call that is not forced never
      crowds. */
  lemma EnteredIsFound(s: State, base: set<string>, direct: set<nat>, op: Op)
    requires LazyAttachModel.Inv(s, base) && op.Ensure? && !op.force
    ensures !StepCrowds(System(s, direct), Lazily(op))
  {
    var names := NonLocal(op.names);
    forall i: nat ensures !CrowdsAt(s, names, op.resolved, false, i) {
      if i < |names| && IsPending(s, names[i]) {
        PendingIsEntered(s, base, names[i]);
      }
    }
  }

  // ---------------------------------------------------------------- a run that crowds

  function Signing(a: string): State {
    LazyAttach.ONLY_LOCAL.(attempts := [Attempt(a, Introducing)])
  }

  function Joined(a: string): State {
    Signing(a).(attempts := [Attempt(a, Introducing), Attempt(a, Introducing)], inflight := map[a := 1],
    calls := [Call({1}, {1}, false, false)])
  }

  lemma Extend(run: Run, x: System, step: Step, x': System)
    requires run.Valid() && run.End() == x && Enabled(x, step) && x' == Next(x, step)
    ensures Run.Later(run, step).Valid() && Run.Later(run, step).End() == x'
    ensures Run.Later(run, step).Forces() == (run.Forces() || (step.Lazily? && step.op.Ensure? && step.op.force))
  {
  }

  /** A sign-in attaches a location; an ordinary call that comes meanwhile attaches it again, and takes out the
      transport the sign-in has registered. */
  lemma SignInIsTakenOut(a: string) returns (run: Run)
    requires a != LOCAL_LOCATION
    ensures run.Valid() && !run.Forces()
    ensures run.End().direct == {0}
    ensures run.End().lazy.attempts == [Attempt(a, Subscribing), Attempt(a, Replacing)]
    ensures a !in Names(run.End().lazy.router)
  {
    var r := Resolved({a}, {});
    LazyAttach.LocalOnly();
    run := Run.Start(LazyAttach.ONLY_LOCAL);
    Extend(run, System(LazyAttach.ONLY_LOCAL, {}), Directly(a, false), System(Signing(a), {0}));
    run := Run.Later(run, Directly(a, false));
    LazyAttach.OneStarts(Signing(a), a, r, false);
    Extend(run, System(Signing(a), {0}), Lazily(Ensure([a], r, false, false)), System(Joined(a), {0}));
    run := Run.Later(run, Lazily(Ensure([a], r, false, false)));
    var s := After(Joined(a), IntroduceSucceeds(0));
    NameJoins(Joined(a).router, Live(a, 0));
    Extend(run, System(Joined(a), {0}), Lazily(IntroduceSucceeds(0)), System(s, {0}));
    run := Run.Later(run, Lazily(IntroduceSucceeds(0)));
    var s' := After(s, IntroduceSucceeds(1));
    NameLeaves(s.router, a);
    Extend(run, System(s, {0}), Lazily(IntroduceSucceeds(1)), System(s', {0}));
    run := Run.Later(run, Lazily(IntroduceSucceeds(1)));
  }
}
