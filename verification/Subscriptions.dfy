/** The remote transport's subscriptions (`transport/remote.ts`): run-once unsubscribes, channel subscriptions whose raw
    subscription opens only when a lookup returns, and the shutdown that sweeps them all. */
module Subscriptions {
  import opened Common

  /** The variables captured by one subscribe call and its wrapped unsubscribe. `channel` is absent for a topic; `inner`
      is the raw subscription to close. */
  datatype Sub = Sub(channel: Option<string>, lookup: bool, unsubscribed: bool, invoked: bool, inner: Option<nat>)

  /** One subscription of the underlying client: which call opened it, the topic or channel id it is for, and how often
      it was closed. */
  datatype Raw = Raw(owner: nat, target: string, closes: nat)

  datatype State = State(
    enabled: bool, shutdownStarted: bool, subs: seq<Sub>, tracked: seq<nat>, raws: seq<Raw>,
        channelIds: map<string, string>)

  const INITIAL := State(true, false, [], [], [], map[])

  function Without(ids: seq<nat>, i: nat): (rest: seq<nat>)
    ensures forall x :: x in rest <==> x in ids && x != i
  {
    if ids == [] then []
    else
      var rest := Without(ids[..|ids| - 1], i);
      assert ids == ids[..|ids| - 1] + [ids[|ids| - 1]];
      if ids[|ids| - 1] == i then rest else rest + [ids[|ids| - 1]]
  }

  // ---------------------------------------------------------------- the steps, on values

  /** `register`: opens the raw subscription of call `i` for channel `id` unless that call has been unsubscribed. */
  function Registered(s: State, i: nat, id: string): State
    requires i < |s.subs|
  {
    if s.subs[i].unsubscribed then s
    else s.(subs := s.subs[i := s.subs[i].(inner := Some(|s.raws|))], raws := s.raws + [Raw(i, id, 0)])
  }

  function TopicSubscribed(s: State, topic: string): State {
    if !s.enabled || s.shutdownStarted then s
    else s.(subs := s.subs + [Sub(None, false, false, false, Some(|s.raws|))],
        raws := s.raws + [Raw(|s.subs|, topic, 0)],
         tracked := s.tracked + [|s.subs|])
  }

  function ChannelSubscribed(s: State, channel: string): State {
    if !s.enabled || s.shutdownStarted then s
    else
      var i := |s.subs|;
      var cached := channel in s.channelIds;
      var called := s.(subs := s.subs + [Sub(Some(channel), !cached, false, false, None)]);
      var registered := if cached then Registered(called, i, s.channelIds[channel]) else called;
      registered.(tracked := s.tracked + [i])
  }

  /** The lookup of call `i` returns the channel's id, or that there is no such channel. */
  function LookedUp(s: State, i: nat, found: Option<string>): State
    requires i < |s.subs| && s.subs[i].channel.Some?
  {
    var back := s.(subs := s.subs[i := s.subs[i].(lookup := false)]);
    if found.None? then back
    else Registered(back.(channelIds := s.channelIds[s.subs[i].channel.value := found.value]), i, found.value)
  }

  /** The lookup of call `i` fails, which may trip the circuit breaker. */
  function LookupFailed(s: State, i: nat, trips: bool): State
    requires i < |s.subs|
  {
    s.(subs := s.subs[i := s.subs[i].(lookup := false)], enabled := s.enabled && !trips)
  }

  function Closed(raws: seq<Raw>, r: Option<nat>): seq<Raw> {
    if r.Some? && r.value < |raws| then raws[r.value := raws[r.value].(closes := raws[r.value].closes + 1)] else raws
  }

  /** The wrapped unsubscribe of call `i` is called. */
  function Unsubscribed(s: State, i: nat): State
    requires i < |s.subs|
  {
    var sub := s.subs[i];
    if sub.invoked then s
    else
      var done := if sub.channel.Some? then sub.(invoked := true, unsubscribed := true, inner := None)
          else sub.(invoked := true);
      s.(subs := s.subs[i := done], tracked := Without(s.tracked, i), raws := Closed(s.raws, sub.inner))
  }

  predicate Known(ids: seq<nat>, n: nat) {
    forall k | 0 <= k < |ids| :: ids[k] < n
  }

  function Swept(s: State, ids: seq<nat>): (s': State)
    requires Known(ids, |s.subs|)
    ensures |s'.subs| == |s.subs|
  {
    if ids == [] then s else Unsubscribed(Swept(s, ids[..|ids| - 1]), ids[|ids| - 1])
  }

  function ShutDown(s: State): State
    requires Known(s.tracked, |s.subs|)
  {
    if s.shutdownStarted then s
    else Swept(s.(shutdownStarted := true, enabled := false), s.tracked).(tracked := [])
  }

  // ---------------------------------------------------------------- the transport

  /** Raw subscription `r` is call `i`'s own, for `target`, and open. */
  predicate IsOpen(s: State, r: nat, i: nat, target: string) {
    && r < |s.raws| && s.raws[r] == Raw(i, target, 0)
    && i < |s.subs| && s.subs[i].inner == Some(r) && !s.subs[i].invoked && !s.subs[i].unsubscribed && !s.subs[i].lookup
    && i in s.tracked
  }

  /** Call `i` has no raw subscription yet and waits for its channel's id. */
  predicate IsLookingUp(s: State, i: nat, channel: string) {
    && i < |s.subs| && s.subs[i] == Sub(Some(channel), true, false, false, None) && i in s.tracked
  }

  class SubscriptionTable {
    var enabled: bool
    var shutdownStarted: bool
    var subs: seq<Sub>
    var tracked: seq<nat>
    var raws: seq<Raw>
    var channelIds: map<string, string>

    ghost function Abs(): State
      reads this
    {
      State(enabled, shutdownStarted, subs, tracked, raws, channelIds)
    }

    constructor ()
      ensures Abs() == INITIAL
    {
      enabled, shutdownStarted, subs, tracked, raws, channelIds := true, false, [], [], [], map[];
    }

    method SubscribeTopic(topic: string) returns (handle: Option<nat>)
      modifies this
      ensures Abs() == TopicSubscribed(old(Abs()), topic)
      ensures handle == if old(enabled && !shutdownStarted) then Some(old(|subs|)) else None
      ensures handle.None? ==> Abs() == old(Abs())
      ensures handle.Some? ==>
                && |subs| == old(|subs|) + 1 && subs[..old(|subs|)] == old(subs)
                && |raws| == old(|raws|) + 1 && raws[..old(|raws|)] == old(raws)
                && IsOpen(Abs(), old(|raws|), handle.value, topic)
    {
      if !enabled || shutdownStarted {
        return None;
      }
      var raw := |raws|;
      raws := raws + [Raw(|subs|, topic, 0)];
      handle := Track(Sub(None, false, false, false, Some(raw)));
    }

    method SubscribeChannel(channel: string) returns (handle: Option<nat>)
      modifies this
      ensures Abs() == ChannelSubscribed(old(Abs()), channel)
      ensures handle == if old(enabled && !shutdownStarted) then Some(old(|subs|)) else None
      ensures handle.None? ==> Abs() == old(Abs())
      ensures handle.Some? ==>
                && |subs| == old(|subs|) + 1 && subs[..old(|subs|)] == old(subs)
                && raws[..old(|raws|)] == old(raws) && |raws| == old(|raws|) + (if channel in channelIds then 1 else 0)
                && (if channel in channelIds then IsOpen(Abs(), old(|raws|), handle.value, channelIds[channel])
                    else IsLookingUp(Abs(), handle.value, channel))
    {
      if !enabled || shutdownStarted {
        return None;
      }
      handle := Track(Sub(Some(channel), channel !in channelIds, false, false, None));
      if channel in channelIds {
        Register(|subs| - 1, channelIds[channel]);
      }
    }

    method Track(sub: Sub) returns (handle: Option<nat>)
      modifies this`subs, this`tracked
      ensures subs == old(subs) + [sub] && tracked == old(tracked) + [|old(subs)|] && handle == Some(|old(subs)|)
    {
      handle := Some(|subs|);
      tracked := tracked + [|subs|];
      subs := subs + [sub];
    }

    method Register(i: nat, id: string)
      requires i < |subs|
      modifies this`subs, this`raws
      ensures Abs() == Registered(old(Abs()), i, id)
    {
      if subs[i].unsubscribed {
        return;
      }
      subs := subs[i := subs[i].(inner := Some(|raws|))];
      raws := raws + [Raw(i, id, 0)];
    }

    method LookupReturned(i: nat, found: Option<string>)
      requires i < |subs| && subs[i].channel.Some?
      modifies this
      ensures Abs() == LookedUp(old(Abs()), i, found)
      ensures |subs| == old(|subs|) && !subs[i].lookup
      ensures found.Some? ==> channelIds == old(channelIds)[old(subs)[i].channel.value := found.value]
      ensures found.Some? && !old(subs)[i].unsubscribed ==>
                |raws| == old(|raws|) + 1 && raws[..old(|raws|)] == old(raws)
                && raws[old(|raws|)] == Raw(i, found.value, 0) && subs[i].inner == Some(old(|raws|))
      ensures found.None? || old(subs)[i].unsubscribed ==> raws == old(raws)
    {
      subs := subs[i := subs[i].(lookup := false)];
      if found.Some? {
        channelIds := channelIds[subs[i].channel.value := found.value];
        Register(i, found.value);
      }
    }

    method Unsubscribe(i: nat)
      requires i < |subs|
      modifies this`subs, this`tracked, this`raws
      ensures Abs() == Unsubscribed(old(Abs()), i)
      ensures |subs| == old(|subs|) && |raws| == old(|raws|) && subs[i].invoked
      ensures old(subs)[i].invoked ==> Abs() == old(Abs())
      ensures !old(subs)[i].invoked ==> i !in tracked
      ensures forall r | 0 <= r < |raws| ::
                raws[r] == old(raws)[r].(closes := old(raws)[r].closes
                    + if !old(subs)[i].invoked && old(subs)[i].inner == Some(r) then 1 else 0)
    {
      var sub := subs[i];
      if sub.invoked {
        return;
      }
      subs := subs[i := sub.(invoked := true)];
      tracked := Without(tracked, i);
      if sub.channel.None? {
        raws := Closed(raws, sub.inner);
      } else {
        subs := subs[i := subs[i].(unsubscribed := true)];
        if sub.inner.Some? {
          raws := Closed(raws, sub.inner);
          subs := subs[i := subs[i].(inner := None)];
        }
      }
    }

    method Shutdown()
      requires Known(tracked, |subs|)
      modifies this
      ensures Abs() == ShutDown(old(Abs()))
    {
      if shutdownStarted {
        return;
      }
      shutdownStarted := true;
      enabled := false;
      ghost var begun := Abs();
      var unsubs := tracked;
      for k := 0 to |unsubs|
        invariant |subs| == |begun.subs| && Known(unsubs, |subs|)
        invariant Abs() == Swept(begun, unsubs[..k])
      {
        assert unsubs[..k + 1][..k] == unsubs[..k];
        Unsubscribe(unsubs[k]);
      }
      assert unsubs[..|unsubs|] == unsubs;
      tracked := [];
    }
  }

  // ---------------------------------------------------------------- every interleaving

  /** `Resolved` is a join that learns a channel's id; `Degrade` is a failure elsewhere that switches the transport
      off. */
  datatype Op =
    | SubscribeTopic(topic: string)
    | SubscribeChannel(channel: string)
    | Return(i: nat, found: Option<string>)
    | Fail(i: nat, trips: bool)
    | Unsubscribe(i: nat)
    | Shutdown
    | Resolved(channel: string, id: string)
    | Degrade

  /** A lookup ends once; a caller can only call an unsubscribe that was handed out. */
  predicate Possible(s: State, op: Op) {
    match op
    case Return(i, _) => i < |s.subs| && s.subs[i].lookup && s.subs[i].channel.Some?
    case Fail(i, _) => i < |s.subs| && s.subs[i].lookup
    case Unsubscribe(i) => i < |s.subs|
    case Shutdown => Known(s.tracked, |s.subs|)
    case _ => true
  }

  function After(s: State, op: Op): State
    requires Possible(s, op)
  {
    match op
    case SubscribeTopic(topic) => TopicSubscribed(s, topic)
    case SubscribeChannel(channel) => ChannelSubscribed(s, channel)
    case Return(i, found) => LookedUp(s, i, found)
    case Fail(i, trips) => LookupFailed(s, i, trips)
    case Unsubscribe(i) => Unsubscribed(s, i)
    case Shutdown => ShutDown(s)
    case Resolved(channel, id) => s.(channelIds := s.channelIds[channel := id])
    case Degrade => s.(enabled := false)
  }

  /** What a call's variables say about its raw subscription. */
  predicate SubOk(s: State, i: nat)
    requires i < |s.subs|
  {
    var sub := s.subs[i];
    && (sub.unsubscribed <==> sub.channel.Some? && sub.invoked)
    && (sub.lookup ==> sub.channel.Some? && sub.inner.None?)
    && (sub.inner.Some? && !sub.invoked ==> sub.inner.value < |s.raws| && s.raws[sub.inner.value].owner == i)
    && (!sub.invoked ==> i in s.tracked)
  }

  /** A raw subscription has been closed once if its call was unsubscribed and never otherwise; until then the call
      holds it, so no call opens two. */
  predicate RawOk(s: State, r: nat)
    requires r < |s.raws|
  {
    var raw := s.raws[r];
    && raw.owner < |s.subs|
    && !s.subs[raw.owner].lookup
    && raw.closes == (if s.subs[raw.owner].invoked then 1 else 0)
    && (!s.subs[raw.owner].invoked ==> s.subs[raw.owner].inner == Some(r))
  }

  predicate OwnersDiffer(raws: seq<Raw>) {
    forall r, q | 0 <= r < q < |raws| :: raws[r].owner != raws[q].owner
  }

  ghost predicate Inv(s: State) {
    && Known(s.tracked, |s.subs|)
    && (forall i | 0 <= i < |s.subs| :: SubOk(s, i))
    && (forall r | 0 <= r < |s.raws| :: RawOk(s, r))
    && OwnersDiffer(s.raws)
  }

  ghost predicate AllInvoked(s: State) {
    forall i | 0 <= i < |s.subs| :: s.subs[i].invoked
  }

  ghost predicate Sound(s: State) {
    Inv(s) && (s.shutdownStarted ==> AllInvoked(s))
  }

  lemma WithoutKnown(ids: seq<nat>, i: nat, n: nat)
    requires Known(ids, n)
    ensures Known(Without(ids, i), n)
  {
  }

  lemma NewOwner(s: State, i: nat, id: string)
    requires OwnersDiffer(s.raws) && forall r | 0 <= r < |s.raws| :: s.raws[r].owner != i
    ensures OwnersDiffer(s.raws + [Raw(i, id, 0)])
  {
  }

  lemma UnsubscribedKeeps(s: State, i: nat)
    requires Inv(s) && i < |s.subs|
    ensures var s' := Unsubscribed(s, i);
            && Inv(s') && |s'.subs| == |s.subs| && |s'.raws| == |s.raws|
            && s'.subs[i].invoked
            && forall j | 0 <= j < |s.subs| && s.subs[j].invoked :: s'.subs[j].invoked
  {
    var s' := Unsubscribed(s, i);
    if !s.subs[i].invoked {
      assert SubOk(s, i);
      WithoutKnown(s.tracked, i, |s.subs|);
      forall r | 0 <= r < |s'.raws| ensures RawOk(s', r) {
        assert RawOk(s, r);
      }
      forall j | 0 <= j < |s'.subs| ensures SubOk(s', j) {
        assert SubOk(s, j);
      }
    }
  }

  lemma {:induction false} SweptKeeps(s: State, ids: seq<nat>)
    requires Inv(s) && Known(ids, |s.subs|)
    ensures Inv(Swept(s, ids))
    ensures forall i | i in ids :: Swept(s, ids).subs[i].invoked
    ensures forall j | 0 <= j < |s.subs| && s.subs[j].invoked :: Swept(s, ids).subs[j].invoked
    ensures Swept(s, ids).shutdownStarted == s.shutdownStarted
  {
    if ids == [] {
    } else {
      var before, last := ids[..|ids| - 1], ids[|ids| - 1];
      SweptKeeps(s, before);
      UnsubscribedKeeps(Swept(s, before), last);
      forall i | i in ids ensures Swept(s, ids).subs[i].invoked {
        assert i in before || i == last;
      }
    }
  }

  lemma ShutDownKeeps(s: State)
    requires Sound(s)
    ensures Sound(ShutDown(s)) && ShutDown(s).shutdownStarted
  {
    if !s.shutdownStarted {
      var begun := s.(shutdownStarted := true, enabled := false);
      assert Inv(begun) by {
        forall i | 0 <= i < |s.subs| ensures SubOk(begun, i) { assert SubOk(s, i); }
        forall r | 0 <= r < |s.raws| ensures RawOk(begun, r) { assert RawOk(s, r); }
      }
      SweptKeeps(begun, s.tracked);
      var swept, end := Swept(begun, s.tracked), ShutDown(s);
      forall i | 0 <= i < |s.subs| ensures swept.subs[i].invoked {
        assert SubOk(begun, i);
      }
      forall i | 0 <= i < |end.subs| ensures SubOk(end, i) { assert SubOk(swept, i); }
      forall r | 0 <= r < |end.raws| ensures RawOk(end, r) { assert RawOk(swept, r); }
    }
  }

  lemma RegisteredKeeps(s: State, i: nat, id: string)
    requires Inv(s) && i < |s.subs| && !s.subs[i].lookup
    requires s.subs[i].channel.Some? && s.subs[i].inner.None?
    ensures Inv(Registered(s, i, id))
  {
    var s' := Registered(s, i, id);
    if !s.subs[i].unsubscribed {
      assert SubOk(s, i);
      forall r | 0 <= r < |s.raws| ensures s.raws[r].owner != i { assert RawOk(s, r); }
      NewOwner(s, i, id);
      forall j | 0 <= j < |s'.subs| ensures SubOk(s', j) { assert SubOk(s, j); }
      forall r | 0 <= r < |s'.raws| ensures RawOk(s', r) {
        if r < |s.raws| { assert RawOk(s, r); }
      }
    }
  }

  /** A new call without a raw subscription, tracked at once. */
  lemma CalledKeeps(s: State, sub: Sub)
    requires Inv(s) && sub == Sub(sub.channel, sub.lookup, false, false, None) && sub.channel.Some?
    ensures Inv(s.(subs := s.subs + [sub], tracked := s.tracked + [|s.subs|]))
  {
    var s' := s.(subs := s.subs + [sub], tracked := s.tracked + [|s.subs|]);
    forall j | 0 <= j < |s'.subs| ensures SubOk(s', j) {
      if j < |s.subs| { assert SubOk(s, j); }
    }
    forall r | 0 <= r < |s'.raws| ensures RawOk(s', r) { assert RawOk(s, r); }
  }

  lemma ChannelSubscribedKeeps(s: State, channel: string)
    requires Sound(s)
    ensures Sound(ChannelSubscribed(s, channel))
  {
    if s.enabled && !s.shutdownStarted {
      var i, sub := |s.subs|, Sub(Some(channel), channel !in s.channelIds, false, false, None);
      var called := s.(subs := s.subs + [sub], tracked := s.tracked + [i]);
      CalledKeeps(s, sub);
      if channel in s.channelIds {
        RegisteredKeeps(called, i, s.channelIds[channel]);
        assert ChannelSubscribed(s, channel) == Registered(called, i, s.channelIds[channel]);
      } else {
        assert ChannelSubscribed(s, channel) == called;
      }
    }
  }

  lemma TopicSubscribedKeeps(s: State, topic: string)
    requires Sound(s)
    ensures Sound(TopicSubscribed(s, topic))
  {
    var s' := TopicSubscribed(s, topic);
    if s' != s {
      forall r | 0 <= r < |s.raws| ensures s.raws[r].owner != |s.subs| { assert RawOk(s, r); }
      NewOwner(s, |s.subs|, topic);
      forall j | 0 <= j < |s'.subs| ensures SubOk(s', j) {
        if j < |s.subs| { assert SubOk(s, j); }
      }
      forall r | 0 <= r < |s'.raws| ensures RawOk(s', r) {
        if r < |s.raws| { assert RawOk(s, r); }
      }
    }
  }

  /** A lookup's end only clears its own mark. */
  lemma LookupOverKeeps(s: State, i: nat, enabled: bool, channelIds: map<string, string>)
    requires Sound(s) && i < |s.subs|
    ensures Sound(s.(subs := s.subs[i := s.subs[i].(lookup := false)], enabled := enabled, channelIds := channelIds))
  {
    var s' := s.(subs := s.subs[i := s.subs[i].(lookup := false)], enabled := enabled, channelIds := channelIds);
    forall j | 0 <= j < |s'.subs| ensures SubOk(s', j) { assert SubOk(s, j); }
    forall r | 0 <= r < |s'.raws| ensures RawOk(s', r) { assert RawOk(s, r); }
    assert s.shutdownStarted ==> AllInvoked(s') by {
      assert forall j | 0 <= j < |s.subs| :: s'.subs[j].invoked == s.subs[j].invoked;
    }
  }

  lemma LookedUpKeeps(s: State, i: nat, found: Option<string>)
    requires Sound(s) && Possible(s, Return(i, found))
    ensures Sound(LookedUp(s, i, found))
    ensures s.shutdownStarted ==> LookedUp(s, i, found).raws == s.raws
  {
    assert SubOk(s, i);
    if found.None? {
      LookupOverKeeps(s, i, s.enabled, s.channelIds);
    } else {
      var ids := s.channelIds[s.subs[i].channel.value := found.value];
      LookupOverKeeps(s, i, s.enabled, ids);
      RegisteredKeeps(s.(subs := s.subs[i := s.subs[i].(lookup := false)], channelIds := ids), i, found.value);
    }
  }

  lemma SameSubsKeep(s: State, s': State)
    requires Sound(s) && s' == s.(enabled := s'.enabled, channelIds := s'.channelIds)
    ensures Sound(s')
  {
    forall j | 0 <= j < |s'.subs| ensures SubOk(s', j) { assert SubOk(s, j); }
    forall r | 0 <= r < |s'.raws| ensures RawOk(s', r) { assert RawOk(s, r); }
  }

  lemma StepKeepsSound(s: State, op: Op)
    requires Sound(s) && Possible(s, op)
    ensures Sound(After(s, op))
  {
    match op
    case SubscribeTopic(topic) => TopicSubscribedKeeps(s, topic);
    case SubscribeChannel(channel) => ChannelSubscribedKeeps(s, channel);
    case Return(i, found) => LookedUpKeeps(s, i, found);
    case Fail(i, trips) => LookupOverKeeps(s, i, s.enabled && !trips, s.channelIds);
    case Unsubscribe(i) => UnsubscribedKeeps(s, i);
    case Shutdown => ShutDownKeeps(s);
    case Resolved(_, _) => SameSubsKeep(s, After(s, op));
    case Degrade => SameSubsKeep(s, After(s, op));
  }

  datatype Run = Start | Later(before: Run, op: Op) {
    ghost predicate Reaches(s: State) {
      match this
      case Start => s == INITIAL
      case Later(before, op) => exists s0 :: before.Reaches(s0) && Possible(s0, op) && s == After(s0, op)
    }
  }

  lemma {:induction false} ReachableIsSound(run: Run, s: State)
    requires run.Reaches(s)
    ensures Sound(s)
  {
    if run.Start? {
    } else {
      var s0 :| run.before.Reaches(s0) && Possible(s0, run.op) && s == After(s0, run.op);
      ReachableIsSound(run.before, s0);
      StepKeepsSound(s0, run.op);
    }
  }

  // ---------------------------------------------------------------- what each step opens

  /** The step opens call `i`'s raw subscription for `target`: a topic is subscribed, a channel whose id is known is, or
      a lookup finds the id before the call is unsubscribed. */
  predicate Opens(s: State, op: Op, i: nat, target: string) {
    match op
    case SubscribeTopic(topic) => s.enabled && !s.shutdownStarted && i == |s.subs| && topic == target
    case SubscribeChannel(channel) =>
      && s.enabled && !s.shutdownStarted && i == |s.subs|
      && channel in s.channelIds && s.channelIds[channel] == target
    case Return(j, found) => i == j && found == Some(target) && i < |s.subs| && !s.subs[i].unsubscribed
    case _ => false
  }

  predicate Owns(s: State, r: nat, i: nat, target: string) {
    r < |s.raws| && s.raws[r].owner == i && s.raws[r].target == target
  }

  ghost predicate HasRaw(s: State, i: nat, target: string) {
    exists r: nat :: Owns(s, r, i, target)
  }

  /** Sweeping closes but opens nothing. */
  lemma {:induction false} SweptKeepsRaws(s: State, ids: seq<nat>)
    requires Known(ids, |s.subs|)
    ensures |Swept(s, ids).raws| == |s.raws|
    ensures forall r | 0 <= r < |s.raws| :: Swept(s, ids).raws[r] == s.raws[r].(closes := Swept(s, ids).raws[r].closes)
    ensures Swept(s, ids).enabled == s.enabled && Swept(s, ids).channelIds == s.channelIds
  {
    if ids == [] {
    } else {
      SweptKeepsRaws(s, ids[..|ids| - 1]);
    }
  }

  /** Raw subscriptions stay their call's own, and one more comes exactly when the step opens one. */
  lemma StepAndRaws(s: State, op: Op)
    requires Possible(s, op)
    ensures var s' := After(s, op);
            && |s.raws| <= |s'.raws| <= |s.raws| + 1
            && (forall r | 0 <= r < |s.raws| :: s'.raws[r] == s.raws[r].(closes := s'.raws[r].closes))
            && (|s'.raws| > |s.raws| ==> s'.raws[|s.raws|].closes == 0)
            && (forall i: nat, target ::
                  Opens(s, op, i, target) <==> |s'.raws| > |s.raws| && s'.raws[|s.raws|] == Raw(i, target, 0))
  {
    if op.Shutdown? && !s.shutdownStarted {
      SweptKeepsRaws(s.(shutdownStarted := true, enabled := false), s.tracked);
    }
  }

  lemma {:induction false} SweptKeepsShutdown(s: State, ids: seq<nat>)
    requires Known(ids, |s.subs|)
    ensures Swept(s, ids).shutdownStarted == s.shutdownStarted
  {
    if ids == [] {
    } else {
      SweptKeepsShutdown(s, ids[..|ids| - 1]);
    }
  }

  /** The transport is off once it is shut down, degraded, or a failure trips it; ids are learnt from joins and
      lookups. */
  lemma StepAndSwitches(s: State, op: Op)
    requires Possible(s, op)
    ensures var s' := After(s, op);
            && (s'.enabled
                <==> s.enabled && !(op.Shutdown? && !s.shutdownStarted) && !op.Degrade? && !(op.Fail? && op.trips))
            && (s'.shutdownStarted <==> s.shutdownStarted || op.Shutdown?)
            && s'.channelIds
               == match op
                  case Resolved(channel, id) => s.channelIds[channel := id]
                  case Return(i, Some(id)) => s.channelIds[s.subs[i].channel.value := id]
                  case _ => s.channelIds
  {
    if op.Shutdown? && !s.shutdownStarted {
      var begun := s.(shutdownStarted := true, enabled := false);
      SweptKeepsRaws(begun, s.tracked);
      SweptKeepsShutdown(begun, s.tracked);
    }
  }

  /** At some step of the run that ends in `s`, call `i`'s raw subscription for `target` was opened. */
  ghost predicate HasOpened(run: Run, s: State, i: nat, target: string) {
    run.Later? && exists s0 ::
      && run.before.Reaches(s0) && Possible(s0, run.op) && s == After(s0, run.op)
      && (Opens(s0, run.op, i, target) || HasOpened(run.before, s0, i, target))
  }

  lemma StepAndHasRaw(s: State, op: Op, i: nat, target: string)
    requires Possible(s, op)
    ensures HasRaw(After(s, op), i, target) <==> Opens(s, op, i, target) || HasRaw(s, i, target)
  {
    StepAndRaws(s, op);
    var s' := After(s, op);
    if r: nat :| Owns(s', r, i, target) {
      assert if r < |s.raws| then Owns(s, r, i, target) else Opens(s, op, s'.raws[r].owner, s'.raws[r].target);
    }
    if Opens(s, op, i, target) {
      assert Owns(s', |s.raws|, i, target);
    }
    if r: nat :| Owns(s, r, i, target) {
      assert Owns(s', r, i, target);
    }
  }

  lemma {:induction false} RunsReachOneState(run: Run, s: State, t: State)
    requires run.Reaches(s) && run.Reaches(t)
    ensures s == t
  {
    if run.Start? {
    } else {
      var s0 :| run.before.Reaches(s0) && Possible(s0, run.op) && s == After(s0, run.op);
      var t0 :| run.before.Reaches(t0) && Possible(t0, run.op) && t == After(t0, run.op);
      RunsReachOneState(run.before, s0, t0);
    }
  }

  /** In every interleaving: a call has a raw subscription for a target exactly when some step of the run was to open
      it. */
  lemma {:induction false} RawsAreOpened(run: Run, s: State, i: nat, target: string)
    requires run.Reaches(s)
    ensures HasRaw(s, i, target) <==> HasOpened(run, s, i, target)
  {
    if run.Start? {
    } else {
      var s0 :| run.before.Reaches(s0) && Possible(s0, run.op) && s == After(s0, run.op);
      RawsAreOpened(run.before, s0, i, target);
      StepAndHasRaw(s0, run.op, i, target);
      forall t0 | run.before.Reaches(t0) ensures t0 == s0 {
        RunsReachOneState(run.before, s0, t0);
      }
    }
  }

  lemma {:induction false} SweptInvokes(s: State, ids: seq<nat>, i: nat)
    requires Known(ids, |s.subs|) && i < |s.subs|
    ensures var sub := Swept(s, ids).subs[i];
            && (sub.invoked <==> s.subs[i].invoked || i in ids)
            && sub.channel == s.subs[i].channel && sub.lookup == s.subs[i].lookup
  {
    if ids == [] {
    } else {
      var before, last := ids[..|ids| - 1], ids[|ids| - 1];
      SweptInvokes(s, before, i);
      assert i in ids <==> i in before || i == last;
    }
  }

  /** The step is a subscribe call that is not refused, for the channel named or a topic. */
  predicate Calls(s: State, op: Op, channel: Option<string>) {
    && s.enabled && !s.shutdownStarted
    && if channel.Some? then op == SubscribeChannel(channel.value) else op.SubscribeTopic?
  }

  /** Calls come by subscribing only. An unsubscribe is invoked by its caller or by shutdown, and a lookup goes on until
      it returns or fails. */
  lemma StepAndCalls(s: State, op: Op, i: nat)
    requires Possible(s, op)
    ensures var s' := After(s, op);
            && |s.subs| <= |s'.subs| <= |s.subs| + 1
            && (i < |s.subs| ==>
                  && s'.subs[i].channel == s.subs[i].channel
                  && (s'.subs[i].invoked <==>
                      s.subs[i].invoked || op == Unsubscribe(i)
                          || (op.Shutdown? && !s.shutdownStarted && i in s.tracked))
                  && (s'.subs[i].lookup <==>
                      s.subs[i].lookup && !(op.Return? && op.i == i) && !(op.Fail? && op.i == i)))
            && (i == |s.subs| ==>
                  && (i < |s'.subs| <==> exists channel :: Calls(s, op, channel))
                  && (i < |s'.subs| ==>
                        && Calls(s, op, s'.subs[i].channel) && !s'.subs[i].invoked
                        && (s'.subs[i].lookup <==> op.SubscribeChannel? && op.channel !in s.channelIds)))
  {
    if op.Shutdown? && !s.shutdownStarted && i < |s.subs| {
      SweptInvokes(s.(shutdownStarted := true, enabled := false), s.tracked, i);
    }
    if op.SubscribeTopic? && s.enabled && !s.shutdownStarted {
      assert Calls(s, op, None);
    }
    if op.SubscribeChannel? && s.enabled && !s.shutdownStarted {
      assert Calls(s, op, Some(op.channel));
    }
  }

  /** Every call that subscribed a topic has its raw subscription. */
  lemma {:induction false} TopicCallsHaveRaws(run: Run, s: State, i: nat)
    requires run.Reaches(s) && i < |s.subs| && s.subs[i].channel.None?
    ensures exists topic :: HasRaw(s, i, topic)
  {
    if run.Later? {
      var s0 :| run.before.Reaches(s0) && Possible(s0, run.op) && s == After(s0, run.op);
      StepAndCalls(s0, run.op, i);
      if i < |s0.subs| {
        TopicCallsHaveRaws(run.before, s0, i);
        var topic :| HasRaw(s0, i, topic);
        StepAndHasRaw(s0, run.op, i, topic);
      } else {
        StepAndCalls(s0, run.op, |s0.subs|);
        StepAndHasRaw(s0, run.op, i, run.op.topic);
      }
    }
  }

  /** In every interleaving each raw subscription has been closed once if its unsubscribe was called and never
      otherwise. */
  lemma RawsClosedOnce(run: Run, s: State, r: nat)
    requires run.Reaches(s) && r < |s.raws|
    ensures s.raws[r].owner < |s.subs|
    ensures s.raws[r].closes == if s.subs[s.raws[r].owner].invoked then 1 else 0
  {
    ReachableIsSound(run, s);
    assert RawOk(s, r);
  }

  /** No subscribe call has opened two. */
  lemma OneRawPerCall(run: Run, s: State, r: nat, q: nat)
    requires run.Reaches(s) && r < q < |s.raws|
    ensures s.raws[r].owner != s.raws[q].owner
  {
    ReachableIsSound(run, s);
  }

  /** Once shutdown has run, every raw subscription ever opened is closed, exactly once, and whatever happens next, late
      lookups included, opens or closes nothing. */
  lemma ShutdownIsFinal(run: Run, s: State, op: Op)
    requires run.Reaches(s) && s.shutdownStarted && Possible(s, op)
    ensures forall r | 0 <= r < |s.raws| :: s.raws[r].closes == 1
    ensures After(s, op).raws == s.raws && After(s, op).shutdownStarted
  {
    ReachableIsSound(run, s);
    forall r | 0 <= r < |s.raws| ensures s.raws[r].closes == 1 {
      assert RawOk(s, r);
    }
    if op.Return? {
      LookedUpKeeps(s, op.i, op.found);
    }
  }

  /** Shutdown can always run, and starts the state above. */
  lemma ShutdownCloses(run: Run, s: State)
    requires run.Reaches(s)
    ensures Possible(s, Shutdown)
    ensures After(s, Shutdown).shutdownStarted && Run.Later(run, Shutdown).Reaches(After(s, Shutdown))
  {
    ReachableIsSound(run, s);
    ShutDownKeeps(s);
  }
}
