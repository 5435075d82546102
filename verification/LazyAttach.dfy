/** The lazy attach code itself (`transport/attach.ts`), cut at its awaits, against the model's steps; and two runs that
    show what its promises do not cover. */
module LazyAttach {
  import opened Common
  import opened Router
  import opened LazyAttachModel

  /** One target, or every candidate. */
  function Asking(target: Option<string>, candidates: seq<string>): seq<string> {
    if target.Some? then [target.value] else candidates
  }

  class LazyAttacher {
    const router: TransportRouter
    var hasName: bool
    var inflight: map<string, nat>
    var attempts: seq<Attempt>
    var channelSubs: set<SubKey>
    var topicSubs: set<SubKey>
    var calls: seq<Call>

    function Abs(): State
      reads this, router
    {
      State(hasName, router.transports, inflight, attempts, channelSubs, topicSubs, calls)
    }

    constructor (router: TransportRouter, hasName: bool)
      ensures this.router == router
      ensures Abs() == State(hasName, router.transports, map[], [], {}, {}, [])
    {
      this.router, this.hasName := router, hasName;
      inflight, attempts, channelSubs, topicSubs, calls := map[], [], {}, {}, [];
    }

    /** `resolved` is what the config re-resolves to at this moment. */
    method EnsureLazyAttach(
      target: Option<string>, candidates: seq<string>, resolved: Resolved, force: bool, allowWithoutName: bool)
      modifies this, router
      ensures Abs() == Ensured(old(Abs()), Asking(target, candidates), resolved, force, allowWithoutName)
    {
      var names := NonLocal(Asking(target, candidates));
      var s := Abs();
      if !force && !allowWithoutName && !hasName {
        calls := calls + [Call(AttemptsOf(s, names), {}, false, true)];
        return;
      }
      var needsWork := false;
      for i := 0 to |names|
        invariant needsWork <==>
                    exists name | name in names[..i] ::
                      name !in Names(router.transports) && (force || name !in inflight)
      {
        assert names[..i + 1] == names[..i] + [names[i]];
        if !router.Has(names[i]) && (force || names[i] !in inflight) {
          needsWork := true;
        }
      }
      assert names[..|names|] == names;
      if !needsWork {
        calls := calls + [Call(AttemptsIn(names), AttemptsIn(names), false, false)];
        return;
      }
      var awaited: set<nat> := {};
      for i := 0 to |names|
        invariant Asked(Abs(), awaited) == AttachAll(s, names[..i], resolved, force)
        invariant calls == old(calls)
      {
        assert names[..i + 1][..i] == names[..i];
        awaited := LazyAttachOne(names[i], resolved, force, awaited);
      }
      assert names[..|names|] == names;
      calls := calls + [Call(AttemptsIn(names), awaited, PassesOver(s, names, resolved, force), false)];
    }

    function AttemptsIn(names: seq<string>): (found: set<nat>)
      reads this, router
      ensures found == AttemptsOf(Abs(), names)
    {
      set name | name in names && name in inflight :: inflight[name]
    }

    method LazyAttachOne(name: string, resolved: Resolved, force: bool, awaited: set<nat>) returns (awaited': set<nat>)
      modifies this, router
      ensures Asked(Abs(), awaited') == AttachOne(Asked(old(Abs()), awaited), name, resolved, force)
      ensures calls == old(calls)
    {
      if name == LOCAL_LOCATION || router.Has(name) {
        return awaited;
      }
      if !force && name in inflight {
        return awaited + {inflight[name]};
      }
      if name !in resolved.constructable {
        return awaited;
      }
      awaited' := awaited + {|attempts|};
      AttachLocation(name, name in resolved.refused);
    }

    /** Up to the first await. */
    method AttachLocation(name: string, refused: bool)
      requires name !in Names(router.transports)
      modifies this`attempts, this`inflight, router
      ensures Abs() == Started(old(Abs()), name, refused)
    {
      var a := |attempts|;
      inflight := inflight[name := a];
      if refused {
        attempts := attempts + [Attempt(name, Done(false))];
      } else if hasName {
        attempts := attempts + [Attempt(name, Introducing)];
      } else {
        var _ := router.Register(Live(name, a), false);
        attempts := attempts + [Attempt(name, Done(true))];
      }
    }

    /** Called directly, up to the first await. */
    method AttachDirectly(name: string, refused: bool)
      modifies this`attempts, this`channelSubs, this`topicSubs, router
      ensures Abs() == Signed(old(Abs()), name, refused)
    {
      var a := |attempts|;
      if refused {
        attempts := attempts + [Attempt(name, Done(false))];
      } else if hasName {
        attempts := attempts + [Attempt(name, Introducing)];
      } else if router.Has(name) {
        var _ := router.Unregister(name);
        DropSubscriptions(name);
        attempts := attempts + [Attempt(name, Replacing)];
      } else {
        var _ := router.Register(Live(name, a), false);
        attempts := attempts + [Attempt(name, Done(true))];
      }
    }

    /** The introduce came back: take out whatever holds the name, or register at once. */
    method OnIntroduced(a: nat)
      requires InPhase(Abs(), a, Introducing)
      modifies this`attempts, this`channelSubs, this`topicSubs, router
      ensures Abs() == After(old(Abs()), IntroduceSucceeds(a))
    {
      var name := attempts[a].name;
      LookupFinds(router.transports, name);
      if router.Has(name) {
        var _ := router.Unregister(name);
        DropSubscriptions(name);
        attempts := attempts[a := Attempt(name, Replacing)];
      } else {
        Register(a);
      }
    }

    method DropSubscriptions(name: string)
      modifies this`channelSubs, this`topicSubs
      ensures channelSubs == Others(old(channelSubs), name) && topicSubs == Others(old(topicSubs), name)
      ensures forall key :: key in channelSubs <==> key in old(channelSubs) && key.location != name
      ensures forall key :: key in topicSubs <==> key in old(topicSubs) && key.location != name
    {
      var topics := topicSubs;
      while topics != {}
        invariant topics <= topicSubs && channelSubs == old(channelSubs)
        invariant topicSubs == set k | k in old(topicSubs) && (k in topics || k.location != name)
        decreases |topics|
      {
        var key :| key in topics;
        topics := topics - {key};
        if key.location == name {
          topicSubs := topicSubs - {key};
        }
      }
      var channels := channelSubs;
      while channels != {}
        invariant channels <= channelSubs && topicSubs == Others(old(topicSubs), name)
        invariant channelSubs == set k | k in old(channelSubs) && (k in channels || k.location != name)
        decreases |channels|
      {
        var key :| key in channels;
        channels := channels - {key};
        if key.location == name {
          channelSubs := channelSubs - {key};
        }
      }
    }

    /** Also what follows once the replaced transport is torn down. */
    method Register(a: nat)
      requires a < |attempts|
      modifies this`attempts, router
      ensures Abs() == Registering(old(Abs()), a)
    {
      var name := attempts[a].name;
      var prior := router.Register(Live(name, a), false);
      attempts := attempts[a := Attempt(name, if prior.Err? then Threw else Subscribing)];
    }

    /** `supported` says whether the transport offers channel subscriptions; without them there is nothing to do. */
    method EnsureChannelSubscription(location: string, channel: string, supported: bool) returns (isNew: bool)
      modifies this`channelSubs
      ensures channelSubs == if supported then old(channelSubs) + {SubKey(location, channel)} else old(channelSubs)
      ensures isNew <==> supported && SubKey(location, channel) !in old(channelSubs)
    {
      isNew := supported && SubKey(location, channel) !in channelSubs;
      if isNew {
        channelSubs := channelSubs + {SubKey(location, channel)};
      }
    }

    method TeardownChannelSubscription(location: string, channel: string) returns (closed: bool)
      modifies this`channelSubs
      ensures channelSubs == old(channelSubs) - {SubKey(location, channel)}
      ensures closed <==> SubKey(location, channel) in old(channelSubs)
    {
      closed := SubKey(location, channel) in channelSubs;
      if closed {
        channelSubs := channelSubs - {SubKey(location, channel)};
      }
    }
  }

  // ---------------------------------------------------------------- two runs

  lemma Extend(run: Run, s: State, op: Op, s': State)
    requires run.Valid() && run.End() == s && Possible(s, op) && s' == After(s, op)
    ensures Run.Later(run, op).Valid() && Run.Later(run, op).End() == s'
    ensures Run.Later(run, op).Forces() == (run.Forces() || (op.Ensure? && op.force))
  {
  }

  const ONLY_LOCAL := State(true, [Live(LOCAL_LOCATION, 0)], map[], [], {}, {}, [])

  lemma LocalOnly()
    ensures Names(ONLY_LOCAL.router) == {LOCAL_LOCATION} && Initial(ONLY_LOCAL)
  {
  }

  /** The state after a first call for `a`, after its attempt has registered, and after a second call that waits for
      nothing. */
  function Introducing1(a: string): State {
    ONLY_LOCAL.(attempts := [Attempt(a, Introducing)], inflight := map[a := 0], calls := [Call({0}, {0}, false, false)])
  }

  function Subscribing1(a: string): State {
    Introducing1(a).(attempts := [Attempt(a, Subscribing)], router := ONLY_LOCAL.router + [Live(a, 0)])
  }

  function Passed1(a: string): State {
    Subscribing1(a).(calls := Subscribing1(a).calls + [Call({0}, {}, true, false)])
  }

  lemma OneNonLocal(name: string)
    requires name != LOCAL_LOCATION
    ensures NonLocal([name]) == [name]
  {
  }

  lemma OneAttach(s: State, name: string, r: Resolved, force: bool)
    ensures AttachAll(s, [name], r, force) == AttachOne(Asked(s, {}), name, r, force)
  {
  }

  lemma OneNeeds(s: State, name: string, force: bool)
    ensures NeedsWork(s, [name], force) <==> name !in Names(s.router) && (force || name !in s.inflight)
    ensures AttemptsOf(s, [name]) == if name in s.inflight then {s.inflight[name]} else {}
  {
  }

  lemma OnePassesNothing(s: State, a: string, r: Resolved, force: bool)
    requires a in r.constructable && a !in Names(s.router)
    ensures !PassesOver(s, [a], r, force)
  {
    assert forall name | name in [a] :: name == a;
  }

  /** A call for one name that starts an attempt. */
  lemma OneStarts(s: State, a: string, r: Resolved, force: bool)
    requires s.hasName && a != LOCAL_LOCATION && a in r.constructable && a !in r.refused
    requires a !in Names(s.router) && (force || a !in s.inflight)
    ensures var n := |s.attempts|;
            After(s, Ensure([a], r, force, false)) == s.(attempts := s.attempts + [Attempt(a, Introducing)],
                                                       inflight := s.inflight[a := n],
                                                       calls := s.calls + [Call({n}, {n}, false, false)])
  {
    OneNonLocal(a);
    OneAttach(s, a, r, force);
    OneNeeds(s, a, force);
    OneNeeds(Started(s, a, false), a, force);
    OnePassesNothing(s, a, r, force);
    assert {} + {|s.attempts|} == {|s.attempts|};
  }

  lemma FirstCall(a: string, r: Resolved)
    requires a != LOCAL_LOCATION && a in r.constructable && a !in r.refused
    ensures After(ONLY_LOCAL, Ensure([a], r, false, false)) == Introducing1(a)
    ensures After(Introducing1(a), IntroduceSucceeds(0)) == Subscribing1(a)
    ensures Names(Subscribing1(a).router) == {LOCAL_LOCATION, a}
  {
    LocalOnly();
    OneStarts(ONLY_LOCAL, a, r, false);
    SetNew(ONLY_LOCAL.router, Live(a, 0));
    NamesLast(ONLY_LOCAL.router, Live(a, 0));
  }

  lemma TwoNonLocal(a: string, b: string)
    requires a != LOCAL_LOCATION && b != LOCAL_LOCATION
    ensures NonLocal([a, b]) == [a, b]
  {
    assert [a, b][..1] == [a];
    OneNonLocal(a);
  }

  lemma BothSkipped(s: State, a: string, b: string, r: Resolved)
    requires a in Names(s.router) && b !in Names(s.router) && b !in s.inflight && b !in r.constructable
    ensures AttachAll(s, [a, b], r, false) == Asked(s, {})
  {
    assert [a, b][..1] == [a];
    OneAttach(s, a, r, false);
  }

  lemma TwoNeeds(s: State, a: string, b: string, r: Resolved)
    requires a in Names(s.router) && b !in Names(s.router) && a in s.inflight && b !in s.inflight
    ensures NeedsWork(s, [a, b], false) && AttemptsOf(s, [a, b]) == {s.inflight[a]}
    ensures PassesOver(s, [a, b], r, false) <==> IsBusy(s, a)
  {
  }

  /** The second call, for `a` and a location that cannot be constructed. */
  lemma SecondCall(a: string, b: string, r: Resolved)
    requires a != LOCAL_LOCATION && b != LOCAL_LOCATION && a != b && a in r.constructable && a !in r.refused
    requires b !in r.constructable
    ensures After(Subscribing1(a), Ensure([a, b], r, false, false)) == Passed1(a)
  {
    FirstCall(a, r);
    TwoNonLocal(a, b);
    BothSkipped(Subscribing1(a), a, b, r);
    TwoNeeds(Subscribing1(a), a, b, r);
  }

  lemma RunToSubscribing(a: string, r: Resolved) returns (run: Run)
    requires a != LOCAL_LOCATION && a in r.constructable && a !in r.refused
    ensures run.Valid() && run.End() == Subscribing1(a) && !run.Forces()
  {
    LocalOnly();
    FirstCall(a, r);
    run := Run.Start(ONLY_LOCAL);
    Extend(run, ONLY_LOCAL, Ensure([a], r, false, false), Introducing1(a));
    run := Run.Later(run, Ensure([a], r, false, false));
    Extend(run, Introducing1(a), IntroduceSucceeds(0), Subscribing1(a));
    run := Run.Later(run, IntroduceSucceeds(0));
  }

  /** A call can return while an attempt for one of its names is still subscribing: the router has that name already,
      and another name, here one without tokens, made the call look for work. */
  lemma CallReturnsEarly(a: string, b: string) returns (run: Run, s: State)
    requires a != LOCAL_LOCATION && b != LOCAL_LOCATION && a != b
    ensures run.Valid() && run.End() == s && !run.Forces()
    ensures |s.calls| == 2 && s.calls[1].returned && s.calls[1].asked == {0} && s.attempts == [Attempt(a, Subscribing)]
  {
    var r := Resolved({a}, {});
    run := RunToSubscribing(a, r);
    SecondCall(a, b, r);
    Extend(run, Subscribing1(a), Ensure([a, b], r, false, false), Passed1(a));
    run := Run.Later(run, Ensure([a, b], r, false, false));
    s := Passed1(a).(calls := [Call({0}, {0}, false, false), Call({0}, {}, true, true)]);
    Extend(run, Passed1(a), Return(1), s);
    run := Run.Later(run, Return(1));
  }

  // ---------------------------------------------------------------- forced calls

  /** `run` and some more steps. */
  predicate Prolongs(longer: Run, run: Run) {
    longer == run || (longer.Later? && Prolongs(longer.before, run))
  }

  lemma {:induction false} ProlongsFurther(longest: Run, longer: Run, run: Run)
    requires Prolongs(longest, longer) && Prolongs(longer, run)
    ensures Prolongs(longest, run)
  {
    if longest == longer {
    } else {
      ProlongsFurther(longest.before, longer, run);
    }
  }

  /** A forced call starts another attempt for a name the router does not have. */
  lemma AnotherAttempt(run: Run, name: string) returns (longer: Run)
    requires run.Valid() && run.End().hasName && name != LOCAL_LOCATION && name !in Names(run.End().router)
    ensures longer.Valid() && Prolongs(longer, run)
    ensures longer.End().attempts == run.End().attempts + [Attempt(name, Introducing)]
    ensures longer.End().router == run.End().router && longer.End().hasName
  {
    var r := Resolved({name}, {});
    OneStarts(run.End(), name, r, true);
    longer := Run.Later(run, Ensure([name], r, true, false));
  }

  /** An attempt's introduce comes back: it registers when the router does not have its name. */
  lemma Registers(run: Run, i: nat) returns (longer: Run)
    requires run.Valid() && InPhase(run.End(), i, Introducing) && run.End().attempts[i].name !in Names(run.End().router)
    ensures longer.Valid() && Prolongs(longer, run)
    ensures longer.End().attempts == run.End().attempts[i := run.End().attempts[i].(phase := Subscribing)]
    ensures run.End().attempts[i].name in Names(longer.End().router) && longer.End().hasName == run.End().hasName
  {
    var s := run.End();
    longer := Run.Later(run, IntroduceSucceeds(i));
    SetNew(s.router, Live(s.attempts[i].name, i));
    NamesLast(s.router, Live(s.attempts[i].name, i));
  }

  /** Otherwise it takes the holder out first. */
  lemma TakesOut(run: Run, i: nat) returns (longer: Run)
    requires run.Valid() && InPhase(run.End(), i, Introducing) && run.End().attempts[i].name in Names(run.End().router)
    ensures longer.Valid() && Prolongs(longer, run)
    ensures longer.End().attempts == run.End().attempts[i := run.End().attempts[i].(phase := Replacing)]
    ensures run.End().attempts[i].name !in Names(longer.End().router) && longer.End().hasName == run.End().hasName
  {
    longer := Run.Later(run, IntroduceSucceeds(i));
    DeletedIsGone(run.End().router, run.End().attempts[i].name);
  }

  lemma MeetsDuplicate(run: Run, i: nat) returns (longer: Run)
    requires run.Valid() && InPhase(run.End(), i, Replacing) && run.End().attempts[i].name in Names(run.End().router)
    ensures longer.Valid() && Prolongs(longer, run)
    ensures longer.End().attempts == run.End().attempts[i := run.End().attempts[i].(phase := Threw)]
  {
    longer := Run.Later(run, Reregister(i));
  }

  /** Two attempts of one name introduce side by side, `a` and `b`: `a` registers, and `b` takes it out to replace
      it. */
  lemma SecondTakesOut(run: Run, a: nat, b: nat) returns (longer: Run)
    requires run.Valid() && InPhase(run.End(), a, Introducing) && InPhase(run.End(), b, Introducing) && a != b
    requires run.End().attempts[a].name == run.End().attempts[b].name
    requires run.End().attempts[b].name !in Names(run.End().router)
    ensures longer.Valid() && Prolongs(longer, run)
    ensures |longer.End().attempts| == |run.End().attempts| && InPhase(longer.End(), b, Replacing)
    ensures longer.End().attempts[b].name == run.End().attempts[b].name
    ensures run.End().attempts[b].name !in Names(longer.End().router)
    ensures longer.End().hasName == run.End().hasName
  {
    var first := Registers(run, a);
    longer := TakesOut(first, b);
    ProlongsFurther(longer, first, run);
  }

  /** Before it registers again, a third attempt does: registering meets a duplicate. */
  lemma ThirdRegisters(run: Run, b: nat) returns (longer: Run)
    requires run.Valid() && InPhase(run.End(), b, Replacing) && run.End().hasName
    requires run.End().attempts[b].name !in Names(run.End().router) && run.End().attempts[b].name != LOCAL_LOCATION
    ensures longer.Valid() && Prolongs(longer, run)
    ensures |longer.End().attempts| == |run.End().attempts| + 1
    ensures longer.End().attempts[b] == Attempt(run.End().attempts[b].name, Threw)
  {
    var third := AnotherAttempt(run, run.End().attempts[b].name);
    var registered := Registers(third, |run.End().attempts|);
    longer := MeetsDuplicate(registered, b);
    ProlongsFurther(registered, third, run);
    ProlongsFurther(longer, registered, run);
  }

  /** From every state that a run without crowding reaches and in which an attempt waits for its introduce, forced calls
      for its name, the first of which crowds, can make registering meet a duplicate. */
  lemma CrowdedRunsCanThrow(run: Run, a: nat) returns (longer: Run, b: nat)
    requires run.Valid() && run.NeverCrowds() && InPhase(run.End(), a, Introducing)
    ensures longer.Valid() && Prolongs(longer, run)
    ensures b == |run.End().attempts| && |longer.End().attempts| == b + 2
    ensures longer.End().attempts[b] == Attempt(run.End().attempts[a].name, Threw)
    ensures !longer.NeverCrowds()
  {
    var s, base := run.End(), Names(run.First().router);
    var name := s.attempts[a].name;
    b := |s.attempts|;
    ReachableKeepsInv(run);
    assert AttemptOk(s, base, a) && RouterOk(s, base, name);
    var two := AnotherAttempt(run, name);
    var out := SecondTakesOut(two, a, b);
    longer := ThirdRegisters(out, b);
    ProlongsFurther(out, two, run);
    ProlongsFurther(longer, out, run);
    if longer.NeverCrowds() {
      NothingIsReplaced(longer, b);
    }
  }

  /** Such a state is reached by a single call. */
  lemma ForcedCallsCollide(a: string) returns (run: Run, s: State)
    requires a != LOCAL_LOCATION
    ensures run.Valid() && run.End() == s && |s.attempts| == 3 && s.attempts[1] == Attempt(a, Threw)
  {
    var r := Resolved({a}, {});
    LocalOnly();
    FirstCall(a, r);
    run := Run.Start(ONLY_LOCAL);
    Extend(run, ONLY_LOCAL, Ensure([a], r, false, false), Introducing1(a));
    run := Run.Later(run, Ensure([a], r, false, false));
    UnforcedNeverCrowds(run);
    var b;
    run, b := CrowdedRunsCanThrow(run, 0);
    s := run.End();
  }
}
