/** The session's view of channels and topics (`context.ts`). */
module Context {
  import opened Common
  import Text

  datatype ChannelSource = Manual | Fallback | Env | ConfigFile

  datatype ChannelRef = ChannelRef(name: string, location: string)

  datatype SubscribedChannel = SubscribedChannel(name: string, location: string, source: ChannelSource)

  datatype JoinedTopic = JoinedTopic(topicName: string, channel: string, location: string)

  /** The string under which a channel is filed. */
  function ChannelKey(name: string, location: string): string {
    location + "::" + name
  }

  function KeyOf(c: SubscribedChannel): string {
    ChannelKey(c.name, c.location)
  }

  /** The source's insertion-ordered map from keys to channels, as the sequence of its values. */
  predicate HasKey(subscribed: seq<SubscribedChannel>, key: string) {
    exists i | 0 <= i < |subscribed| :: KeyOf(subscribed[i]) == key
  }

  function WithoutKey(subscribed: seq<SubscribedChannel>, key: string): (rest: seq<SubscribedChannel>)
    ensures forall c :: c in rest <==> c in subscribed && KeyOf(c) != key
  {
    if subscribed == [] then []
    else if KeyOf(subscribed[0]) == key then WithoutKey(subscribed[1..], key)
    else [subscribed[0]] + WithoutKey(subscribed[1..], key)
  }

  datatype State = State(
    activeThread: Option<string>, activeTopicName: Option<string>, activeChannel: Option<ChannelRef>,
    subscribed: seq<SubscribedChannel>, joined: map<string, JoinedTopic>)

  const EMPTY := State(None, None, None, [], map[])

  datatype Op =
    | JoinChannel(name: string, source: ChannelSource, location: string)
    | LeaveChannel(name: string, location: string)
    | SetActiveChannel(name: string, location: string)
    | JoinTopic(id: string, topicName: string, channel: string, location: string)
    | LeaveTopic(id: string)
    | ClearTopic

  // ---------------------------------------------------------------- the operations as functions

  function ChannelJoined(s: State, channel: string, source: ChannelSource, location: string): State {
    s.(subscribed := if HasKey(s.subscribed, ChannelKey(channel, location)) then s.subscribed
                     else s.subscribed + [SubscribedChannel(channel, location, source)],
    activeChannel := if s.activeChannel.Some? then s.activeChannel else Some(ChannelRef(channel, location)))
  }

  function TopicsOutside(joined: map<string, JoinedTopic>, channel: string,
      location: string): map<string, JoinedTopic> {
    map id | id in joined && !(joined[id].channel == channel && joined[id].location == location) :: joined[id]
  }

  function ChannelLeft(s: State, channel: string, location: string): State {
    var rest := WithoutKey(s.subscribed, ChannelKey(channel, location));
    var joined := TopicsOutside(s.joined, channel, location);
    if s.activeChannel != Some(ChannelRef(channel, location)) then s.(subscribed := rest, joined := joined)
    else
      var active := if rest == [] then None else Some(ChannelRef(rest[0].name, rest[0].location));
      var gone := s.activeThread.Some? && s.activeThread.value != "" && s.activeThread.value !in joined;
      s.(subscribed := rest, joined := joined, activeChannel := active,
      activeThread := if gone then None else s.activeThread,
      activeTopicName := if gone then None else s.activeTopicName)
  }

  /** The state after an operation; one that throws changes nothing. */
  function After(s: State, op: Op): State {
    match op
    case JoinChannel(name, source, location) =>
      if Text.Normalize(name) == "" then s else ChannelJoined(s, Text.Normalize(name), source, location)
    case LeaveChannel(name, location) => ChannelLeft(s, Text.Normalize(name), location)
    case SetActiveChannel(name, location) =>
      var channel := Text.Normalize(name);
      if HasKey(s.subscribed, ChannelKey(channel, location)) then
        s.(activeChannel := Some(ChannelRef(channel, location)))
      else s
    case JoinTopic(id, topicName, raw, location) =>
      var channel := Text.Normalize(raw);
      if HasKey(s.subscribed, ChannelKey(channel, location)) then
        s.(joined := s.joined[id := JoinedTopic(topicName, channel, location)], activeThread := Some(id),
            activeTopicName := Some(topicName))
      else s
    case LeaveTopic(id) =>
      var left := s.(joined := s.joined - {id});
      if s.activeThread == Some(id) then left.(activeThread := None, activeTopicName := None) else left
    case ClearTopic =>
      var joined :=
        if s.activeThread.Some? && s.activeThread.value != "" then s.joined - {s.activeThread.value} else s.joined;
      s.(joined := joined, activeThread := None, activeTopicName := None)
  }

  function RefOf(c: SubscribedChannel): ChannelRef {
    ChannelRef(c.name, c.location)
  }

  predicate IsFirstOther(subscribed: seq<SubscribedChannel>, key: string, i: nat)
    requires i < |subscribed|
  {
    KeyOf(subscribed[i]) != key && forall j | 0 <= j < i :: KeyOf(subscribed[j]) == key
  }

  /** Of the channels not filed under the key, the one subscribed first. */
  predicate IsNextActive(subscribed: seq<SubscribedChannel>, key: string, next: Option<ChannelRef>) {
    match next
    case None => forall i | 0 <= i < |subscribed| :: KeyOf(subscribed[i]) == key
    case Some(c) => exists i | 0 <= i < |subscribed| :: IsFirstOther(subscribed, key, i) && RefOf(subscribed[i]) == c
  }

  lemma {:induction false} NextIsFirst(subscribed: seq<SubscribedChannel>, key: string)
    ensures var rest := WithoutKey(subscribed, key);
            IsNextActive(subscribed, key, if rest == [] then None else Some(RefOf(rest[0])))
  {
    if subscribed == [] {
    } else if KeyOf(subscribed[0]) == key {
      NextIsFirst(subscribed[1..], key);
      var rest := WithoutKey(subscribed, key);
      if rest != [] {
        var i :| 0 <= i < |subscribed[1..]| && IsFirstOther(subscribed[1..], key, i)
            && RefOf(subscribed[1..][i]) == RefOf(rest[0]);
        forall j | 0 <= j < i + 1 ensures KeyOf(subscribed[j]) == key {
          assert j > 0 ==> subscribed[j] == subscribed[1..][j - 1];
        }
        assert IsFirstOther(subscribed, key, i + 1);
      } else {
        forall j | 0 <= j < |subscribed| ensures KeyOf(subscribed[j]) == key {
          assert j > 0 ==> subscribed[j] == subscribed[1..][j - 1];
        }
      }
    } else {
      assert IsFirstOther(subscribed, key, 0);
    }
  }

  // ---------------------------------------------------------------- the class

  class ActiveContext {
    var activeThread: Option<string>
    var activeTopicName: Option<string>
    var activeChannel: Option<ChannelRef>
    var subscribed: seq<SubscribedChannel>
    var joinedTopics: map<string, JoinedTopic>

    function Abs(): State
      reads this
    {
      State(activeThread, activeTopicName, activeChannel, subscribed, joinedTopics)
    }

    constructor ()
      ensures Abs() == EMPTY
    {
      activeThread, activeTopicName, activeChannel, subscribed, joinedTopics := None, None, None, [], map[];
    }

    method JoinChannel(name: string, source: ChannelSource, location: string) returns (r: Result<bool, string>)
      modifies this`subscribed, this`activeChannel
      ensures Abs() == After(old(Abs()), Op.JoinChannel(name, source, location))
      ensures r.Err? <==> Text.Normalize(name) == ""
      ensures r == Ok(true) <==> Text.Normalize(name) != "" && old(activeChannel).None?
    {
      var channel := Text.Normalize(name);
      if channel == "" {
        return Err("Channel name must be non-empty");
      }
      if !HasKey(subscribed, ChannelKey(channel, location)) {
        subscribed := subscribed + [SubscribedChannel(channel, location, source)];
      }
      var becameActive := false;
      if activeChannel == None {
        activeChannel := Some(ChannelRef(channel, location));
        becameActive := true;
      }
      return Ok(becameActive);
    }

    method LeaveChannel(name: string, location: string) returns (removed: bool, newActive: Option<ChannelRef>)
      modifies this
      ensures Abs() == After(old(Abs()), Op.LeaveChannel(name, location))
      ensures removed <==> HasKey(old(subscribed), ChannelKey(Text.Normalize(name), location))
      ensures newActive == activeChannel
      ensures if old(activeChannel) == Some(ChannelRef(Text.Normalize(name), location))
              then IsNextActive(old(subscribed), ChannelKey(Text.Normalize(name), location), activeChannel)
              else activeChannel == old(activeChannel)
    {
      var channel := Text.Normalize(name);
      removed := HasKey(subscribed, ChannelKey(channel, location));
      NextIsFirst(subscribed, ChannelKey(channel, location));
      subscribed := WithoutKey(subscribed, ChannelKey(channel, location));
      DropTopics(channel, location);
      if activeChannel == Some(ChannelRef(channel, location)) {
        activeChannel := if subscribed == [] then None
            else Some(ChannelRef(subscribed[0].name, subscribed[0].location));
        if activeThread.Some? && activeThread.value != "" {
          if activeThread.value !in joinedTopics {
            activeThread := None;
            activeTopicName := None;
          }
        }
      }
      return removed, activeChannel;
    }

    /** The loop of `leaveChannel` over the joined topics. */
    method DropTopics(channel: string, location: string)
      modifies this`joinedTopics
      ensures joinedTopics == TopicsOutside(old(joinedTopics), channel, location)
    {
      var todo := joinedTopics.Keys;
      while todo != {}
        invariant todo <= joinedTopics.Keys <= old(joinedTopics).Keys
        invariant forall id | id in old(joinedTopics) ::
                    id in joinedTopics <==> id in todo || id in TopicsOutside(old(joinedTopics), channel, location)
        invariant forall id | id in joinedTopics :: joinedTopics[id] == old(joinedTopics)[id]
        decreases |todo|
      {
        var id :| id in todo;
        if joinedTopics[id].channel == channel && joinedTopics[id].location == location {
          joinedTopics := joinedTopics - {id};
        }
        todo := todo - {id};
      }
    }

    method SetActiveChannel(name: string, location: string) returns (r: Result<(), string>)
      modifies this`activeChannel
      ensures Abs() == After(old(Abs()), Op.SetActiveChannel(name, location))
      ensures r.Ok? <==> HasKey(subscribed, ChannelKey(Text.Normalize(name), location))
    {
      var channel := Text.Normalize(name);
      if !HasKey(subscribed, ChannelKey(channel, location)) {
        return Err("Not subscribed. Use join_channel first.");
      }
      activeChannel := Some(ChannelRef(channel, location));
      return Ok(());
    }

    method JoinTopic(id: string, topicName: string, raw: string, location: string) returns (r: Result<(), string>)
      modifies this`joinedTopics, this`activeThread, this`activeTopicName
      ensures Abs() == After(old(Abs()), Op.JoinTopic(id, topicName, raw, location))
      ensures r.Ok? <==> HasKey(subscribed, ChannelKey(Text.Normalize(raw), location))
    {
      var channel := Text.Normalize(raw);
      if !HasKey(subscribed, ChannelKey(channel, location)) {
        return Err("Cannot join topic - not subscribed.");
      }
      joinedTopics := joinedTopics[id := JoinedTopic(topicName, channel, location)];
      activeThread := Some(id);
      activeTopicName := Some(topicName);
      return Ok(());
    }

    method LeaveTopic(id: string)
      modifies this`joinedTopics, this`activeThread, this`activeTopicName
      ensures Abs() == After(old(Abs()), Op.LeaveTopic(id))
    {
      joinedTopics := joinedTopics - {id};
      if activeThread == Some(id) {
        activeThread := None;
        activeTopicName := None;
      }
    }

    method ClearTopic()
      modifies this`joinedTopics, this`activeThread, this`activeTopicName
      ensures Abs() == After(old(Abs()), Op.ClearTopic)
    {
      if activeThread.Some? && activeThread.value != "" {
        joinedTopics := joinedTopics - {activeThread.value};
      }
      activeThread := None;
      activeTopicName := None;
    }
  }

  /** `isChannelSubscribed` without a location: at any location. */
  predicate SubscribedAnywhere(s: State, name: string) {
    exists i | 0 <= i < |s.subscribed| :: s.subscribed[i].name == Text.Normalize(name)
  }

  predicate TopicIsJoined(s: State, id: string) {
    id in s.joined
  }

  // ---------------------------------------------------------------- keys

  /** The names under which channels are filed. */
  predicate IsName(name: string) {
    name != "" && Text.Normalize(name) == name
  }

  /** Location `l1`, with the separator, begins location `l2` with the separator, and what remains could begin a channel
      name: it does not start with a space and has no upper-case letter. */
  predicate Shadows(l1: string, l2: string) {
    && l1 != l2
    && l1 + "::" <= l2 + "::"
    && var rest := (l2 + "::")[|l1| + 2..];
       rest != "" && !Text.IsSpace(rest[0]) && Text.Lower(rest) == rest
  }

  lemma LowerConcat(a: string, b: string)
    ensures Text.Lower(a + b) == a + b <==> Text.Lower(a) == a && Text.Lower(b) == b
  {
    if Text.Lower(a + b) == a + b {
      assert forall i | 0 <= i < |a| :: Text.Lower(a + b)[i] == a[i];
      assert forall i | 0 <= i < |b| :: Text.Lower(a + b)[|a| + i] == b[i];
    }
  }

  lemma ShadowsCollide(l1: string, l2: string)
    requires Shadows(l1, l2)
    ensures exists n1, n2 :: IsName(n1) && IsName(n2) && ChannelKey(n1, l1) == ChannelKey(n2, l2)
  {
    var rest := (l2 + "::")[|l1| + 2..];
    var n1, n2 := rest + "x", "x";
    Text.NormalMeans(n1);
    Text.NormalMeans(n2);
    LowerConcat(rest, "x");
    assert IsName(n1) && IsName(n2);
    assert l2 + "::" == l1 + "::" + rest;
    assert ChannelKey(n1, l1) == ChannelKey(n2, l2);
  }

  /** Where two locations have a key in common. */
  lemma CollisionShadows(n1: string, l1: string, n2: string, l2: string)
    requires Text.Normalize(n1) == n1 && l1 != l2 && |l1| <= |l2| && ChannelKey(n1, l1) == ChannelKey(n2, l2)
    ensures Shadows(l1, l2)
  {
    var k, p1, p2 := ChannelKey(n1, l1), l1 + "::", l2 + "::";
    assert p1 == k[..|p1|] && p2 == k[..|p2|] && l1 == k[..|l1|] && l2 == k[..|l2|];
    var rest := p2[|p1|..];
    assert p2 == p1 + rest;
    assert n1 == k[|p1|..] == rest + n2;
    Text.NormalMeans(n1);
    LowerConcat(rest, n2);
  }

  /** Two locations can file channels under one key exactly when one of them shadows the other. */
  lemma KeyCollisions(l1: string, l2: string)
    requires l1 != l2
    ensures (exists n1, n2 :: IsName(n1) && IsName(n2) && ChannelKey(n1, l1) == ChannelKey(n2, l2))
       <==> Shadows(l1, l2) || Shadows(l2, l1)
  {
    if n1, n2 :| IsName(n1) && IsName(n2) && ChannelKey(n1, l1) == ChannelKey(n2, l2) {
      if |l1| <= |l2| {
        CollisionShadows(n1, l1, n2, l2);
      } else {
        CollisionShadows(n2, l2, n1, l1);
      }
    }
    if Shadows(l1, l2) {
      ShadowsCollide(l1, l2);
    }
    if Shadows(l2, l1) {
      ShadowsCollide(l2, l1);
    }
  }

  predicate Plain(location: string) {
    ':' !in location
  }

  lemma KeysPart(n1: string, l1: string, n2: string, l2: string)
    requires |l1| < |l2| && Plain(l2)
    ensures ChannelKey(n1, l1) != ChannelKey(n2, l2)
  {
    assert ChannelKey(n1, l1)[|l1|] == ':';
    assert ChannelKey(n2, l2)[|l1|] == l2[|l1|];
  }

  /** With colon-free locations the key acts as the pair. */
  lemma KeyIsPair(n1: string, l1: string, n2: string, l2: string)
    requires Plain(l1) && Plain(l2)
    ensures ChannelKey(n1, l1) == ChannelKey(n2, l2) <==> n1 == n2 && l1 == l2
  {
    var k1, k2 := ChannelKey(n1, l1), ChannelKey(n2, l2);
    if |l1| < |l2| {
      KeysPart(n1, l1, n2, l2);
    } else if |l2| < |l1| {
      KeysPart(n2, l2, n1, l1);
    } else if k1 == k2 {
      assert l1 == k1[..|l1|] && l2 == k2[..|l2|];
      assert n1 == k1[|l1| + 2..] && n2 == k2[|l2| + 2..];
    }
  }

  // ---------------------------------------------------------------- invariants

  predicate Has(s: State, name: string, location: string) {
    exists i | 0 <= i < |s.subscribed| :: s.subscribed[i].name == name && s.subscribed[i].location == location
  }

  /** As in a map, no two channels are filed under one key. */
  predicate UniqueKeys(subscribed: seq<SubscribedChannel>) {
    forall i, j | 0 <= i < j < |subscribed| :: KeyOf(subscribed[i]) != KeyOf(subscribed[j])
  }

  /** A channel is active exactly when some channel is subscribed, and the active one is itself subscribed. */
  ghost predicate ActiveAgrees(s: State) {
    && (s.activeChannel.Some? <==> s.subscribed != [])
    && (s.activeChannel.Some? ==> Has(s, s.activeChannel.value.name, s.activeChannel.value.location))
  }

  /** Every joined topic lies in a channel subscribed at its location. */
  ghost predicate JoinedAgrees(s: State) {
    forall id | id in s.joined :: Has(s, s.joined[id].channel, s.joined[id].location)
  }

  ghost predicate ChannelsAgree(s: State) {
    ActiveAgrees(s) && JoinedAgrees(s)
  }

  /** The active topic is joined, under its recorded name. */
  ghost predicate ActiveTopicJoined(s: State) {
    if s.activeThread.None? then s.activeTopicName.None?
    else s.activeThread.value in s.joined && s.activeTopicName == Some(s.joined[s.activeThread.value].topicName)
  }

  /** The entry filed under the key is another channel, at another location, than the one named. */
  predicate IsConfused(s: State, name: string, location: string) {
    HasKey(s.subscribed, ChannelKey(name, location)) && !Has(s, name, location)
  }

  /** The channel is active or holds a joined topic. */
  predicate InUse(s: State, name: string, location: string) {
    || s.activeChannel == Some(ChannelRef(name, location))
    || exists id | id in s.joined :: s.joined[id].channel == name && s.joined[id].location == location
  }

  /** The operations that take one channel for another filed under the same key: activating it, joining a topic in it,
      or leaving it while the other is in use. */
  predicate Confuses(s: State, op: Op) {
    match op
    case SetActiveChannel(name, location) => IsConfused(s, Text.Normalize(name), location)
    case JoinTopic(_, _, name, location) => IsConfused(s, Text.Normalize(name), location)
    case LeaveChannel(name, location) =>
      && IsConfused(s, Text.Normalize(name), location)
      && exists i | 0 <= i < |s.subscribed| ::
           KeyOf(s.subscribed[i]) == ChannelKey(Text.Normalize(name), location)
           && InUse(s, s.subscribed[i].name, s.subscribed[i].location)
    case _ => false
  }

  /** Leaving a channel that holds the active topic while another channel is active: the one case in which the source
      drops the topic and keeps it active. (A topic with an empty identifier is never cleared.) */
  predicate Strands(s: State, op: Op) {
    && op.LeaveChannel?
    && s.activeThread.Some?
    && s.activeThread.value in s.joined
    && s.joined[s.activeThread.value].channel == Text.Normalize(op.name)
    && s.joined[s.activeThread.value].location == op.location
    && (s.activeChannel != Some(ChannelRef(Text.Normalize(op.name), op.location)) || s.activeThread.value == "")
  }

  // ---------------------------------------------------------------- what an operation comes to

  /** The operation leaves channels filed under the key. */
  predicate LeavesKey(op: Op, key: string) {
    op.LeaveChannel? && ChannelKey(Text.Normalize(op.name), op.location) == key
  }

  /** A channel is subscribed by joining it, under its normal name, with the source first given, and until it is
      left. */
  lemma OpAndChannels(s: State, op: Op, c: SubscribedChannel)
    ensures c in After(s, op).subscribed
       <==> || (c in s.subscribed && !LeavesKey(op, KeyOf(c)))
            || (op.JoinChannel? && c.name != "" && !HasKey(s.subscribed, KeyOf(c))
                && c == SubscribedChannel(Text.Normalize(op.name), op.location, op.source))
  {
  }

  lemma {:induction false} WithoutKeyConcat(a: seq<SubscribedChannel>, b: seq<SubscribedChannel>, key: string)
    ensures WithoutKey(a + b, key) == WithoutKey(a, key) + WithoutKey(b, key)
  {
    if a == [] {
      assert a + b == b;
    } else {
      assert (a + b)[1..] == a[1..] + b;
      WithoutKeyConcat(a[1..], b, key);
    }
  }

  /** `earlier` stands before `later` among the channels. */
  predicate Precedes(subscribed: seq<SubscribedChannel>, earlier: SubscribedChannel, later: SubscribedChannel) {
    exists i, j | 0 <= i < j < |subscribed| :: subscribed[i] == earlier && subscribed[j] == later
  }

  lemma WithoutKeyKeepsOrder(subscribed: seq<SubscribedChannel>, key: string, i: nat, j: nat)
    requires i < j < |subscribed| && KeyOf(subscribed[i]) != key && KeyOf(subscribed[j]) != key
    ensures Precedes(WithoutKey(subscribed, key), subscribed[i], subscribed[j])
  {
    var a, b := subscribed[..j], subscribed[j..];
    assert subscribed == a + b && a[i] in a && b[0] in b;
    WithoutKeyConcat(a, b, key);
    var front, back := WithoutKey(a, key), WithoutKey(b, key);
    assert a[i] in front && b[0] in back;
    var m :| 0 <= m < |front| && front[m] == a[i];
    var n :| 0 <= n < |back| && back[n] == b[0];
    assert (front + back)[m] == a[i] && (front + back)[|front| + n] == b[0];
  }

  lemma MoreKeepsOrder(few: seq<SubscribedChannel>, many: seq<SubscribedChannel>, earlier: SubscribedChannel,
                       later: SubscribedChannel)
    requires few <= many && Precedes(few, earlier, later)
    ensures Precedes(many, earlier, later)
  {
    var i, j :| 0 <= i < j < |few| && few[i] == earlier && few[j] == later;
    assert many[i] == earlier && many[j] == later;
  }

  /** Channels stay in the order in which they were subscribed. */
  lemma OpKeepsOrder(s: State, op: Op, earlier: SubscribedChannel, later: SubscribedChannel)
    requires Precedes(s.subscribed, earlier, later)
    requires !LeavesKey(op, KeyOf(earlier)) && !LeavesKey(op, KeyOf(later))
    ensures Precedes(After(s, op).subscribed, earlier, later)
  {
    if op.LeaveChannel? {
      var i, j :| 0 <= i < j < |s.subscribed| && s.subscribed[i] == earlier && s.subscribed[j] == later;
      WithoutKeyKeepsOrder(s.subscribed, ChannelKey(Text.Normalize(op.name), op.location), i, j);
    } else {
      MoreKeepsOrder(s.subscribed, After(s, op).subscribed, earlier, later);
    }
  }

  /** The active channel: the first one joined, the one last activated, and after leaving it the one subscribed
      first. */
  lemma OpAndActiveChannel(s: State, op: Op)
    ensures var s' := After(s, op);
            match op
            case JoinChannel(name, _, location) =>
              s'.activeChannel == if s.activeChannel.None? && Text.Normalize(name) != ""
                                  then Some(ChannelRef(Text.Normalize(name), location)) else s.activeChannel
            case LeaveChannel(name, location) =>
              if s.activeChannel == Some(ChannelRef(Text.Normalize(name), location))
              then IsNextActive(s.subscribed, ChannelKey(Text.Normalize(name), location), s'.activeChannel)
              else s'.activeChannel == s.activeChannel
            case SetActiveChannel(name, location) =>
              s'.activeChannel == if HasKey(s.subscribed, ChannelKey(Text.Normalize(name), location))
                                  then Some(ChannelRef(Text.Normalize(name), location)) else s.activeChannel
            case _ => s'.activeChannel == s.activeChannel
  {
    if op.LeaveChannel? {
      NextIsFirst(s.subscribed, ChannelKey(Text.Normalize(op.name), op.location));
    }
  }

  /** The operation leaves the topic: itself, as the active one, or with its channel. */
  predicate LeavesTopic(s: State, op: Op, id: string) {
    match op
    case LeaveTopic(other) => other == id
    case ClearTopic => s.activeThread == Some(id) && id != ""
    case LeaveChannel(name, location) =>
      id in s.joined && s.joined[id].channel == Text.Normalize(name) && s.joined[id].location == location
    case _ => false
  }

  predicate JoinsTopic(s: State, op: Op, id: string) {
    op.JoinTopic? && op.id == id && HasKey(s.subscribed, ChannelKey(Text.Normalize(op.channel), op.location))
  }

  /** A topic is joined by joining it in a subscribed channel, until it is left. */
  lemma OpAndTopics(s: State, op: Op, id: string)
    ensures id in After(s, op).joined <==> JoinsTopic(s, op, id) || (id in s.joined && !LeavesTopic(s, op, id))
    ensures TopicIsJoined(s, id) <==> id in s.joined
    ensures id in After(s, op).joined ==>
              After(s, op).joined[id]
              == if JoinsTopic(s, op, id) then JoinedTopic(op.topicName, Text.Normalize(op.channel), op.location)
                 else s.joined[id]
  {
  }

  /** The active topic: the one last joined, until it is left, or with the active channel once it is not joined. */
  lemma OpAndActiveTopic(s: State, op: Op)
    ensures var s' := After(s, op);
            match op
            case JoinTopic(id, topicName, _, _) =>
              if JoinsTopic(s, op, id) then s'.activeThread == Some(id) && s'.activeTopicName == Some(topicName)
              else s'.activeThread == s.activeThread && s'.activeTopicName == s.activeTopicName
            case LeaveTopic(id) =>
              if s.activeThread == Some(id) then s'.activeThread.None? && s'.activeTopicName.None?
              else s'.activeThread == s.activeThread && s'.activeTopicName == s.activeTopicName
            case ClearTopic => s'.activeThread.None? && s'.activeTopicName.None?
            case LeaveChannel(name, location) =>
              if s.activeChannel == Some(ChannelRef(Text.Normalize(name), location)) && s.activeThread.Some?
                 && s.activeThread.value != "" && s.activeThread.value !in s'.joined
              then s'.activeThread.None? && s'.activeTopicName.None?
              else s'.activeThread == s.activeThread && s'.activeTopicName == s.activeTopicName
            case _ => s'.activeThread == s.activeThread && s'.activeTopicName == s.activeTopicName
  {
  }

  lemma OneEntryPerKey(s: State, n1: string, l1: string, n2: string, l2: string)
    requires UniqueKeys(s.subscribed) && Has(s, n1, l1) && Has(s, n2, l2) && ChannelKey(n1, l1) == ChannelKey(n2, l2)
    ensures n1 == n2 && l1 == l2
  {
    var i :| 0 <= i < |s.subscribed| && s.subscribed[i].name == n1 && s.subscribed[i].location == l1;
    var j :| 0 <= j < |s.subscribed| && s.subscribed[j].name == n2 && s.subscribed[j].location == l2;
    assert KeyOf(s.subscribed[i]) == KeyOf(s.subscribed[j]);
  }

  lemma {:induction false} WithoutKeyIsUnique(subscribed: seq<SubscribedChannel>, key: string)
    requires UniqueKeys(subscribed)
    ensures UniqueKeys(WithoutKey(subscribed, key))
  {
    if subscribed == [] {
    } else {
      var rest := WithoutKey(subscribed[1..], key);
      WithoutKeyIsUnique(subscribed[1..], key);
      forall i | 0 <= i < |rest| ensures KeyOf(rest[i]) != KeyOf(subscribed[0]) {
        assert rest[i] in subscribed[1..];
      }
    }
  }

  lemma HasAfterJoin(s: State, channel: string, source: ChannelSource, location: string, n: string, l: string)
    requires Has(s, n, l)
    ensures Has(ChannelJoined(s, channel, source, location), n, l)
  {
    var s' := ChannelJoined(s, channel, source, location);
    var i :| 0 <= i < |s.subscribed| && s.subscribed[i].name == n && s.subscribed[i].location == l;
    assert s'.subscribed[i] == s.subscribed[i];
  }

  lemma JoinKeepsAgreement(s: State, channel: string, source: ChannelSource, location: string)
    requires UniqueKeys(s.subscribed) && ChannelsAgree(s)
    ensures var s' := ChannelJoined(s, channel, source, location); UniqueKeys(s'.subscribed) && ChannelsAgree(s')
  {
    var s' := ChannelJoined(s, channel, source, location);
    forall n, l | Has(s, n, l) ensures Has(s', n, l) {
      HasAfterJoin(s, channel, source, location, n, l);
    }
    if !HasKey(s.subscribed, ChannelKey(channel, location)) {
      assert s'.subscribed[|s.subscribed|] == SubscribedChannel(channel, location, source);
    }
  }

  lemma HasAfterLeave(s: State, channel: string, location: string, n: string, l: string)
    ensures Has(ChannelLeft(s, channel, location), n, l)
       <==> Has(s, n, l) && ChannelKey(n, l) != ChannelKey(channel, location)
  {
    var s' := ChannelLeft(s, channel, location);
    if Has(s', n, l) {
      var i :| 0 <= i < |s'.subscribed| && s'.subscribed[i].name == n && s'.subscribed[i].location == l;
      assert s'.subscribed[i] in s.subscribed;
    }
    if Has(s, n, l) && ChannelKey(n, l) != ChannelKey(channel, location) {
      var i :| 0 <= i < |s.subscribed| && s.subscribed[i].name == n && s.subscribed[i].location == l;
      assert s.subscribed[i] in s'.subscribed;
    }
  }

  predicate SameKey(n: string, l: string, channel: string, location: string) {
    ChannelKey(n, l) == ChannelKey(channel, location)
  }

  /** Who loses its entry when a channel is left: every channel filed under the key. */
  predicate LosesEntry(s: State, channel: string, location: string) {
    || (s.activeChannel.Some? && s.activeChannel != Some(ChannelRef(channel, location))
        && SameKey(s.activeChannel.value.name, s.activeChannel.value.location, channel, location))
    || exists id | id in s.joined ::
         !(s.joined[id].channel == channel && s.joined[id].location == location)
         && SameKey(s.joined[id].channel, s.joined[id].location, channel, location)
  }

  lemma FirstIsSubscribed(s: State)
    requires s.subscribed != []
    ensures Has(s, s.subscribed[0].name, s.subscribed[0].location)
  {
  }

  lemma LeaveAndJoined(s: State, channel: string, location: string)
    requires ChannelsAgree(s)
    ensures JoinedAgrees(ChannelLeft(s, channel, location))
       <==> !exists id | id in s.joined ::
              !(s.joined[id].channel == channel && s.joined[id].location == location)
              && SameKey(s.joined[id].channel, s.joined[id].location, channel, location)
  {
    var s' := ChannelLeft(s, channel, location);
    forall id | id in s'.joined
      ensures Has(s', s'.joined[id].channel, s'.joined[id].location)
         <==> !SameKey(s.joined[id].channel, s.joined[id].location, channel, location)
    {
      HasAfterLeave(s, channel, location, s.joined[id].channel, s.joined[id].location);
    }
  }

  lemma LeaveAndActive(s: State, channel: string, location: string)
    requires UniqueKeys(s.subscribed) && ChannelsAgree(s)
    ensures ActiveAgrees(ChannelLeft(s, channel, location))
       <==> !(s.activeChannel.Some? && s.activeChannel != Some(ChannelRef(channel, location))
              && SameKey(s.activeChannel.value.name, s.activeChannel.value.location, channel, location))
  {
    var s' := ChannelLeft(s, channel, location);
    if s'.subscribed != [] {
      FirstIsSubscribed(s');
      assert s'.subscribed[0] in s.subscribed;
    }
    if s.activeChannel.Some? {
      HasAfterLeave(s, channel, location, s.activeChannel.value.name, s.activeChannel.value.location);
    }
  }

  lemma LeaveAndAgreement(s: State, channel: string, location: string)
    requires UniqueKeys(s.subscribed) && ChannelsAgree(s)
    ensures ChannelsAgree(ChannelLeft(s, channel, location)) <==> !LosesEntry(s, channel, location)
  {
    LeaveAndActive(s, channel, location);
    LeaveAndJoined(s, channel, location);
  }

  lemma LosingPair(s: State, channel: string, location: string) returns (n: string, l: string)
    requires ChannelsAgree(s) && LosesEntry(s, channel, location)
    ensures Has(s, n, l) && InUse(s, n, l) && ChannelKey(n, l) == ChannelKey(channel, location)
    ensures n != channel || l != location
  {
    if s.activeChannel.Some? && s.activeChannel != Some(ChannelRef(channel, location))
       && SameKey(s.activeChannel.value.name, s.activeChannel.value.location, channel, location) {
      n, l := s.activeChannel.value.name, s.activeChannel.value.location;
    } else {
      var id :| id in s.joined
        && !(s.joined[id].channel == channel && s.joined[id].location == location)
        && SameKey(s.joined[id].channel, s.joined[id].location, channel, location);
      n, l := s.joined[id].channel, s.joined[id].location;
    }
  }

  lemma LosingIsConfusing(s: State, channel: string, location: string)
    requires UniqueKeys(s.subscribed) && ChannelsAgree(s) && LosesEntry(s, channel, location)
    ensures IsConfused(s, channel, location)
    ensures exists i | 0 <= i < |s.subscribed| ::
              KeyOf(s.subscribed[i]) == ChannelKey(channel, location)
                  && InUse(s, s.subscribed[i].name, s.subscribed[i].location)
  {
    var n, l := LosingPair(s, channel, location);
    var i :| 0 <= i < |s.subscribed| && s.subscribed[i].name == n && s.subscribed[i].location == l;
    assert KeyOf(s.subscribed[i]) == ChannelKey(channel, location);
    if Has(s, channel, location) {
      OneEntryPerKey(s, n, l, channel, location);
    }
  }

  lemma LosingIsConfused(s: State, channel: string, location: string)
    requires UniqueKeys(s.subscribed) && ChannelsAgree(s)
    ensures LosesEntry(s, channel, location)
       <==> IsConfused(s, channel, location)
            && exists i | 0 <= i < |s.subscribed| ::
                 KeyOf(s.subscribed[i]) == ChannelKey(channel, location)
                 && InUse(s, s.subscribed[i].name, s.subscribed[i].location)
  {
    if LosesEntry(s, channel, location) {
      LosingIsConfusing(s, channel, location);
    } else if IsConfused(s, channel, location) {
      forall i | 0 <= i < |s.subscribed| && KeyOf(s.subscribed[i]) == ChannelKey(channel, location)
        ensures !InUse(s, s.subscribed[i].name, s.subscribed[i].location)
      {
        assert Has(s, s.subscribed[i].name, s.subscribed[i].location);
      }
    }
  }

  lemma LeaveStepAgreement(s: State, name: string, location: string)
    requires UniqueKeys(s.subscribed) && ChannelsAgree(s)
    ensures UniqueKeys(After(s, LeaveChannel(name, location)).subscribed)
    ensures ChannelsAgree(After(s, LeaveChannel(name, location))) <==> !Confuses(s, LeaveChannel(name, location))
  {
    WithoutKeyIsUnique(s.subscribed, ChannelKey(Text.Normalize(name), location));
    LeaveAndAgreement(s, Text.Normalize(name), location);
    LosingIsConfused(s, Text.Normalize(name), location);
  }

  lemma HasHasKey(s: State, name: string, location: string)
    ensures Has(s, name, location) ==> HasKey(s.subscribed, ChannelKey(name, location))
  {
    if Has(s, name, location) {
      var i :| 0 <= i < |s.subscribed| && s.subscribed[i].name == name && s.subscribed[i].location == location;
      assert KeyOf(s.subscribed[i]) == ChannelKey(name, location);
    }
  }

  lemma JoinTopicAndAgreement(s: State, id: string, topicName: string, channel: string, location: string)
    requires ChannelsAgree(s) && HasKey(s.subscribed, ChannelKey(channel, location))
    ensures var s' := s.(joined := s.joined[id := JoinedTopic(topicName, channel, location)],
                         activeThread := Some(id), activeTopicName := Some(topicName));
            ChannelsAgree(s') <==> Has(s, channel, location)
  {
    var s' := s.(joined := s.joined[id := JoinedTopic(topicName, channel, location)],
      activeThread := Some(id), activeTopicName := Some(topicName));
    assert forall n, l :: Has(s', n, l) <==> Has(s, n, l);
    assert s'.joined[id] == JoinedTopic(topicName, channel, location);
  }

  /** An operation keeps the agreement exactly when it does not take one channel for another. */
  lemma StepKeepsAgreement(s: State, op: Op)
    requires UniqueKeys(s.subscribed) && ChannelsAgree(s)
    ensures UniqueKeys(After(s, op).subscribed)
    ensures ChannelsAgree(After(s, op)) <==> !Confuses(s, op)
  {
    match op
    case JoinChannel(name, source, location) =>
      JoinKeepsAgreement(s, Text.Normalize(name), source, location);
    case LeaveChannel(name, location) =>
      LeaveStepAgreement(s, name, location);
    case SetActiveChannel(name, location) =>
      HasHasKey(s, Text.Normalize(name), location);
    case JoinTopic(id, topicName, name, location) =>
      if HasKey(s.subscribed, ChannelKey(Text.Normalize(name), location)) {
        JoinTopicAndAgreement(s, id, topicName, Text.Normalize(name), location);
      }
    case _ =>
  }

  /** The active topic stays joined exactly when the operation does not strand it. */
  lemma StepAndActiveTopic(s: State, op: Op)
    requires ActiveTopicJoined(s)
    ensures ActiveTopicJoined(After(s, op)) <==> !Strands(s, op)
  {
  }

  // ---------------------------------------------------------------- runs

  datatype Run = Start | Later(before: Run, op: Op) {
    function State(): State {
      if Start? then EMPTY else After(before.State(), op)
    }

    predicate NeverConfuses() {
      Later? ==> !Confuses(before.State(), op) && before.NeverConfuses()
    }

    predicate NeverStrands() {
      Later? ==> !Strands(before.State(), op) && before.NeverStrands()
    }

    /** At the end and at every moment before. */
    ghost predicate AlwaysAgrees() {
      ChannelsAgree(State()) && (Later? ==> before.AlwaysAgrees())
    }

    ghost predicate AlwaysJoined() {
      ActiveTopicJoined(State()) && (Later? ==> before.AlwaysJoined())
    }

    /** The locations the operations name. */
    function Locations(): set<string> {
      if Start? then {}
      else before.Locations() + if op.LeaveTopic? || op.ClearTopic? then {} else {op.location}
    }
  }

  lemma {:induction false} KeysStayUnique(run: Run)
    ensures UniqueKeys(run.State().subscribed)
  {
    if run.Start? {
    } else {
      KeysStayUnique(run.before);
      var s := run.before.State();
      match run.op
      case LeaveChannel(name, location) =>
        WithoutKeyIsUnique(s.subscribed, ChannelKey(Text.Normalize(name), location));
      case _ =>
    }
  }

  /** A run keeps the channels in agreement throughout exactly when none of its operations takes one channel for
      another, and the active topic joined exactly when none strands it. */
  lemma {:induction false} ReachableContexts(run: Run)
    ensures run.AlwaysAgrees() <==> run.NeverConfuses()
    ensures run.AlwaysJoined() <==> run.NeverStrands()
  {
    if run.Start? {
    } else {
      ReachableContexts(run.before);
      KeysStayUnique(run.before);
      if run.before.AlwaysAgrees() {
        StepKeepsAgreement(run.before.State(), run.op);
      }
      if run.before.AlwaysJoined() {
        StepAndActiveTopic(run.before.State(), run.op);
      }
    }
  }

  // ---------------------------------------------------------------- which locations are safe

  /** No location shadows another. */
  predicate Apart(locations: set<string>) {
    forall l1, l2 | l1 in locations && l2 in locations :: !Shadows(l1, l2)
  }

  lemma PlainLocationsAreApart(locations: set<string>)
    requires forall l | l in locations :: Plain(l)
    ensures Apart(locations)
  {
    forall l1, l2 | l1 in locations && l2 in locations ensures !Shadows(l1, l2) {
      if Shadows(l1, l2) {
        ShadowsCollide(l1, l2);
        var n1, n2 :| IsName(n1) && IsName(n2) && ChannelKey(n1, l1) == ChannelKey(n2, l2);
        KeyIsPair(n1, l1, n2, l2);
      }
    }
  }

  ghost predicate FiledWithin(s: State, locations: set<string>) {
    forall c | c in s.subscribed :: IsName(c.name) && c.location in locations
  }

  lemma {:induction false} RunsFileNames(run: Run)
    ensures FiledWithin(run.State(), run.Locations())
  {
    if run.Start? {
    } else {
      RunsFileNames(run.before);
      if run.op.JoinChannel? {
        Text.NormalizeIdempotent(run.op.name);
      }
    }
  }

  lemma SameLocation(n1: string, n2: string, location: string)
    requires ChannelKey(n1, location) == ChannelKey(n2, location)
    ensures n1 == n2
  {
    assert n1 == ChannelKey(n1, location)[|location| + 2..];
    assert n2 == ChannelKey(n2, location)[|location| + 2..];
  }

  /** Among locations apart, the key acts as the pair. */
  lemma ApartIsNeverConfused(s: State, locations: set<string>, name: string, location: string)
    requires FiledWithin(s, locations) && Apart(locations) && location in locations && Text.Normalize(name) == name
    ensures !IsConfused(s, name, location)
  {
    if HasKey(s.subscribed, ChannelKey(name, location)) {
      var i :| 0 <= i < |s.subscribed| && KeyOf(s.subscribed[i]) == ChannelKey(name, location);
      var c := s.subscribed[i];
      assert c in s.subscribed;
      if c.location == location {
        SameLocation(c.name, name, location);
      } else if |c.location| <= |location| {
        CollisionShadows(c.name, c.location, name, location);
      } else {
        CollisionShadows(name, location, c.name, c.location);
      }
    }
  }

  /** So a run whose locations are apart, as locations without colons are, keeps the agreement throughout. */
  lemma {:induction false} ApartRunsAgree(run: Run)
    requires Apart(run.Locations())
    ensures run.NeverConfuses() && run.AlwaysAgrees()
  {
    if run.Start? {
    } else {
      assert run.before.Locations() <= run.Locations();
      ApartRunsAgree(run.before);
      RunsFileNames(run.before);
      if run.op.SetActiveChannel? || run.op.LeaveChannel? {
        Text.NormalizeIdempotent(run.op.name);
        ApartIsNeverConfused(run.before.State(), run.Locations(), Text.Normalize(run.op.name), run.op.location);
      } else if run.op.JoinTopic? {
        Text.NormalizeIdempotent(run.op.channel);
        ApartIsNeverConfused(run.before.State(), run.Locations(), Text.Normalize(run.op.channel), run.op.location);
      }
      ReachableContexts(run);
    }
  }

  lemma ApartKeysDiffer(locations: set<string>, n1: string, l1: string, n2: string, l2: string)
    requires Apart(locations) && l1 in locations && l2 in locations
    requires Text.Normalize(n1) == n1 && Text.Normalize(n2) == n2 && ChannelKey(n1, l1) == ChannelKey(n2, l2)
    ensures n1 == n2 && l1 == l2
  {
    if l1 == l2 {
      SameLocation(n1, n2, l1);
    } else if |l1| <= |l2| {
      CollisionShadows(n1, l1, n2, l2);
    } else {
      CollisionShadows(n2, l2, n1, l1);
    }
  }

  /** The channel has been joined and not left since: told from the operations alone. */
  predicate HasJoined(run: Run, name: string, location: string) {
    && run.Later?
    && ((run.op.JoinChannel? && Text.Normalize(run.op.name) == name != "" && run.op.location == location)
        || (HasJoined(run.before, name, location)
            && !(run.op.LeaveChannel? && Text.Normalize(run.op.name) == name && run.op.location == location)))
  }

  lemma HasIsMember(s: State, name: string, location: string)
    ensures Has(s, name, location) <==> exists c | c in s.subscribed :: c.name == name && c.location == location
  {
    if Has(s, name, location) {
      var i :| 0 <= i < |s.subscribed| && s.subscribed[i].name == name && s.subscribed[i].location == location;
      assert s.subscribed[i] in s.subscribed;
    }
  }

  lemma OpAndHasJoining(s: State, op: Op, locations: set<string>, name: string, location: string)
    requires FiledWithin(s, locations) && Apart(locations) && location in locations && IsName(name)
    requires op.JoinChannel? && op.location in locations
    ensures Has(After(s, op), name, location)
       <==> (Text.Normalize(op.name) == name && op.location == location) || Has(s, name, location)
  {
    var s', channel := After(s, op), Text.Normalize(op.name);
    HasIsMember(s, name, location);
    HasIsMember(s', name, location);
    if channel == name && op.location == location {
      if HasKey(s.subscribed, ChannelKey(name, location)) {
        ApartIsNeverConfused(s, locations, name, location);
        HasAfterJoin(s, channel, op.source, op.location, name, location);
      } else {
        OpAndChannels(s, op, SubscribedChannel(name, location, op.source));
      }
    } else if Has(s, name, location) && channel != "" {
      HasAfterJoin(s, channel, op.source, op.location, name, location);
    } else if c :| c in s'.subscribed && c.name == name && c.location == location {
      OpAndChannels(s, op, c);
    }
  }

  lemma OpAndHas(s: State, op: Op, locations: set<string>, name: string, location: string)
    requires FiledWithin(s, locations) && Apart(locations) && location in locations && IsName(name)
    requires op.LeaveTopic? || op.ClearTopic? || op.location in locations
    ensures Has(After(s, op), name, location)
       <==> || (op.JoinChannel? && Text.Normalize(op.name) == name && op.location == location)
            || (Has(s, name, location)
                && !(op.LeaveChannel? && Text.Normalize(op.name) == name && op.location == location))
  {
    match op
    case JoinChannel(raw, source, l) => OpAndHasJoining(s, op, locations, name, location);
    case LeaveChannel(raw, l) =>
      Text.NormalizeIdempotent(raw);
      HasAfterLeave(s, Text.Normalize(raw), l, name, location);
      if ChannelKey(name, location) == ChannelKey(Text.Normalize(raw), l) {
        ApartKeysDiffer(locations, name, location, Text.Normalize(raw), l);
      }
    case _ =>
  }

  /** Over locations that do not shadow each other, the channels subscribed are exactly those joined and not left
      since. */
  lemma {:induction false} SubscribedIsHistory(run: Run, locations: set<string>, name: string, location: string)
    requires run.Locations() <= locations && Apart(locations) && location in locations && IsName(name)
    ensures Has(run.State(), name, location) <==> HasJoined(run, name, location)
  {
    if run.Start? {
    } else {
      SubscribedIsHistory(run.before, locations, name, location);
      RunsFileNames(run.before);
      assert FiledWithin(run.before.State(), locations);
      OpAndHas(run.before.State(), run.op, locations, name, location);
    }
  }

  lemma {:induction false} JoinedAtItsLocation(run: Run, name: string, location: string)
    requires HasJoined(run, name, location)
    ensures location in run.Locations() && Text.Normalize(name) == name != ""
  {
    if run.op.JoinChannel? && Text.Normalize(run.op.name) == name != "" && run.op.location == location {
      Text.NormalizeIdempotent(run.op.name);
    } else {
      JoinedAtItsLocation(run.before, name, location);
    }
  }

  /** A channel name counts as subscribed exactly when it has been joined at some location and not left there since. */
  lemma AnywhereIsHistory(run: Run, name: string)
    requires Apart(run.Locations())
    ensures SubscribedAnywhere(run.State(), name) <==> exists location :: HasJoined(run, Text.Normalize(name), location)
  {
    var s, n := run.State(), Text.Normalize(name);
    RunsFileNames(run);
    if SubscribedAnywhere(s, name) {
      var i :| 0 <= i < |s.subscribed| && s.subscribed[i].name == n;
      assert s.subscribed[i] in s.subscribed;
      assert Has(s, n, s.subscribed[i].location);
      SubscribedIsHistory(run, run.Locations(), n, s.subscribed[i].location);
    }
    if location :| HasJoined(run, n, location) {
      JoinedAtItsLocation(run, n, location);
      SubscribedIsHistory(run, run.Locations(), n, location);
    }
  }

  /** Joining a channel at the one location and activating one under the same key at the other. */
  lemma ShadowsConfuse(l1: string, l2: string) returns (run: Run)
    requires Shadows(l1, l2)
    ensures run.Locations() == {l1, l2} && !run.NeverConfuses()
  {
    ShadowsCollide(l1, l2);
    var n1, n2 :| IsName(n1) && IsName(n2) && ChannelKey(n1, l1) == ChannelKey(n2, l2);
    var joined := Run.Later(Run.Start, JoinChannel(n2, Manual, l2));
    assert joined.State().subscribed == [SubscribedChannel(n2, l2, Manual)];
    assert KeyOf(joined.State().subscribed[0]) == ChannelKey(n1, l1);
    assert IsConfused(joined.State(), n1, l1);
    run := Run.Later(joined, SetActiveChannel(n1, l1));
    assert joined.Locations() == {l2};
  }

  /** Locations are safe to use together exactly when none shadows another. */
  lemma ApartExactly(locations: set<string>)
    ensures Apart(locations) <==> forall run: Run | run.Locations() <= locations :: run.NeverConfuses()
  {
    if Apart(locations) {
      forall run: Run | run.Locations() <= locations ensures run.NeverConfuses() {
        ApartRunsAgree(run);
      }
    } else {
      var l1, l2 :| l1 in locations && l2 in locations && Shadows(l1, l2);
      var run := ShadowsConfuse(l1, l2);
    }
  }

  /** With colons in location names two channels share a key: leaving one that was never joined takes the other away
      while it stays active. */
  lemma CollidingLocationsDisagree()
    ensures var run := Run.Later(Run.Later(Run.Start, JoinChannel("c", Manual, "a::b")), LeaveChannel("b::c", "a"));
            run.State().subscribed == [] && run.State().activeChannel == Some(ChannelRef("c", "a::b"))
  {
    assert Text.Normalize("c") == "c";
    assert Text.Trim("b::c") == "b::c";
    assert Text.Normalize("b::c") == "b::c";
    assert ChannelKey("c", "a::b") == "a::b::c" == ChannelKey("b::c", "a");
  }

  /** Leaving the channel of the active topic while another channel is active leaves a topic active that is no longer
      joined. */
  lemma StrandedTopic()
    ensures var run := Run.Later(Run.Later(Run.Later(Run.Later(Run.Start,
                         JoinChannel("x", Manual, "local")), JoinChannel("y", Manual, "local")),
                         JoinTopic("t", "talk", "y", "local")), LeaveChannel("y", "local"));
            run.State().activeThread == Some("t") && run.State().joined == map[]
  {
    assert Text.Normalize("x") == "x" && Text.Normalize("y") == "y";
    var one := After(EMPTY, JoinChannel("x", Manual, "local"));
    assert KeyOf(one.subscribed[0]) == "local::x" && ChannelKey("y", "local") == "local::y";
    var two := After(one, JoinChannel("y", Manual, "local"));
    assert KeyOf(two.subscribed[1]) == ChannelKey("y", "local");
  }
}
