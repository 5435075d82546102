/** The broker's state and what each request does to it (`broker.ts`), as functions. The class in Broker.dfy performs
    the same requests step by step. */
module BrokerModel {
  import opened Common
  import Text
  import HistoryPaging

  datatype TopicState = Active | Archived

  datatype Topic = Topic(
    name: string, channel: string, creator: string, state: TopicState, createdAt: int,
    messages: seq<HistoryPaging.HistoryEntry>, joined: set<string>)

  datatype Session = Session(objective: Option<string>, registeredAt: int, channels: set<string>)

  datatype EventType = Message | TopicCreated | TopicArchived | TopicUnarchived | Broadcast | Unknown

  datatype TopicInfo = TopicInfo(id: string, name: string, channel: Option<string>, creator: string,
      createdAt: Option<int>)

  /** An event as it travels on the stream: any field may be missing when it was injected. */
  datatype LocalEvent = LocalEvent(
    source: string, kind: EventType, channel: Option<string>, topicId: Option<string>, topic: Option<TopicInfo>,
    sender: Option<string>, text: Option<string>, archivedBy: Option<string>, unarchivedBy: Option<string>,
        ts: Option<int>)

  const NO_EVENT := LocalEvent("local", Unknown, None, None, None, None, None, None, None, None)

  function MessageEvent(channel: string, id: string, sender: string, text: string, ts: int): LocalEvent {
    NO_EVENT.(kind := Message, channel := Some(channel), topicId := Some(id), sender := Some(sender),
        text := Some(text), ts := Some(ts))
  }

  function CreatedEvent(id: string, t: Topic): LocalEvent {
    NO_EVENT.(kind := TopicCreated, channel := Some(t.channel),
    topic := Some(TopicInfo(id, t.name, Some(t.channel), t.creator, Some(t.createdAt))))
  }

  function ArchivedEvent(channel: string, id: string, actor: Option<string>): LocalEvent {
    NO_EVENT.(kind := TopicArchived, channel := Some(channel), topicId := Some(id),
        archivedBy := Some(actor.GetOr("unknown")))
  }

  function UnarchivedEvent(channel: string, id: string, actor: Option<string>): LocalEvent {
    NO_EVENT.(kind := TopicUnarchived, channel := Some(channel), topicId := Some(id),
        unarchivedBy := Some(actor.GetOr("unknown")))
  }

  function BroadcastEvent(channel: string, sender: string, text: string, ts: int): LocalEvent {
    NO_EVENT.(kind := Broadcast, channel := Some(channel), sender := Some(sender), text := Some(text), ts := Some(ts))
  }

  /** `outbox` holds, for every connected stream client, the events written to it so far. */
  datatype BrokerState = BrokerState(
    topics: map<string, Topic>, sessions: map<string, Session>, channels: map<string, set<string>>,
    outbox: map<nat, seq<LocalEvent>>)

  /** Requests after routing and body parsing; a missing string field is the empty string, as the source treats both
      alike. `id` is the identifier a new topic is given. */
  datatype Request =
    | Connect(client: nat)
    | Disconnect(client: nat)
    | Inject(event: LocalEvent)
    | JoinChannel(session: string, channel: string)
    | LeaveChannel(session: string, channel: string)
    | PostToChannel(sender: string, channel: string, text: string)
    | CreateTopic(id: string, topic: string, creator: string, channel: string)
    | PostMessage(id: string, sender: string, text: string)
    | JoinTopic(id: string, session: string)
    | LeaveTopic(id: string, session: string)
    | Archive(id: string, actor: Option<string>)
    | Unarchive(id: string, actor: Option<string>)
    | Register(name: string, objective: Option<string>)
    | Unregister(name: string)

  datatype Response = Done | BadRequest | Forbidden | NotFound | Conflict(existing: string)

  predicate Subscribed(s: BrokerState, name: string, channel: string) {
    name in s.sessions && channel in s.sessions[name].channels
  }

  predicate Member(s: BrokerState, name: string, channel: string) {
    channel in s.channels && name in s.channels[channel]
  }

  /** Does active topic `id` stand in the way of a new topic of this name in this channel? */
  predicate Clashes(topics: map<string, Topic>, id: string, topic: string, channel: string) {
    && id in topics
    && topics[id].state == Active
    && topics[id].channel == channel
    && Text.Normalize(topics[id].name) == Text.Normalize(topic)
  }

  // ---------------------------------------------------------------- effects

  function Emit(outbox: map<nat, seq<LocalEvent>>, e: LocalEvent): map<nat, seq<LocalEvent>> {
    map c | c in outbox :: outbox[c] + [e]
  }

  function WithSession(sessions: map<string, Session>, name: string, now: int): map<string, Session> {
    if name in sessions then sessions else sessions[name := Session(None, now, {})]
  }

  function Joined(s: BrokerState, name: string, channel: string, now: int): BrokerState {
    var sessions := WithSession(s.sessions, name, now);
    var members := if channel in s.channels then s.channels[channel] else {};
    s.(sessions := sessions[name := sessions[name].(channels := sessions[name].channels + {channel})],
    channels := s.channels[channel := members + {name}])
  }

  /** The member sets once `name` has left all of `gone`; emptied channels disappear. */
  function MembersWithout(channels: map<string, set<string>>, gone: set<string>,
      name: string): map<string, set<string>> {
    map ch | ch in channels && (ch in gone ==> channels[ch] - {name} != {})
      :: if ch in gone then channels[ch] - {name} else channels[ch]
  }

  function TopicsWithout(topics: map<string, Topic>, gone: set<string>, name: string): map<string, Topic> {
    map id | id in topics
      :: if topics[id].channel in gone then topics[id].(joined := topics[id].joined - {name}) else topics[id]
  }

  /** What remains when a known session has left every channel in `gone`. */
  function Departed(s: BrokerState, name: string, gone: set<string>): BrokerState {
    if name !in s.sessions then s
    else
      s.(sessions := s.sessions[name := s.sessions[name].(channels := s.sessions[name].channels - gone)],
      channels := MembersWithout(s.channels, gone, name),
      topics := TopicsWithout(s.topics, gone, name))
  }

  function Registered(s: BrokerState, name: string, objective: Option<string>, now: int): BrokerState {
    if name in s.sessions then
      s.(sessions := s.sessions[name := s.sessions[name].(
          objective := if objective.Some? then objective else s.sessions[name].objective)])
    else s.(sessions := s.sessions[name := Session(objective, now, {})])
  }

  // ---------------------------------------------------------------- handlers

  function Announced(s: BrokerState, sender: string, channel: string, text: string, now: int): BrokerState {
    if text == "" || sender == "" || channel == "" || !Subscribed(s, sender, channel) then s
    else s.(outbox := Emit(s.outbox, BroadcastEvent(channel, sender, text, now)))
  }

  function Created(s: BrokerState, id: string, topic: string, creator: string, channel: string, now: int): BrokerState {
    if topic == "" || creator == "" || channel == "" || !Subscribed(s, creator, channel) then s
    else if exists other | other in s.topics :: Clashes(s.topics, other, topic, channel) then s
    else
      var t := Topic(topic, channel, creator, Active, now, [], {});
      s.(topics := s.topics[id := t], outbox := Emit(s.outbox, CreatedEvent(id, t)))
  }

  function Posted(s: BrokerState, id: string, sender: string, text: string, now: int): BrokerState {
    if id !in s.topics || text == "" || sender == "" || !Subscribed(s, sender, s.topics[id].channel) then s
    else
      var t := s.topics[id];
      s.(topics := s.topics[id := t.(messages := t.messages + [HistoryPaging.HistoryEntry(sender, text, now)])],
      outbox := Emit(s.outbox, MessageEvent(t.channel, id, sender, text, now)))
  }

  function TopicJoined(s: BrokerState, id: string, name: string): BrokerState {
    if id !in s.topics || name == "" || !Subscribed(s, name, s.topics[id].channel) then s
    else s.(topics := s.topics[id := s.topics[id].(joined := s.topics[id].joined + {name})])
  }

  function TopicLeft(s: BrokerState, id: string, name: string): BrokerState {
    if id !in s.topics || name == "" then s
    else s.(topics := s.topics[id := s.topics[id].(joined := s.topics[id].joined - {name})])
  }

  function StateSet(s: BrokerState, id: string, state: TopicState, actor: Option<string>): BrokerState {
    if id !in s.topics then s
    else
      var t := s.topics[id];
      var e := if state == Archived then ArchivedEvent(t.channel, id, actor) else UnarchivedEvent(t.channel, id, actor);
      s.(topics := s.topics[id := t.(state := state)], outbox := Emit(s.outbox, e))
  }

  function Unregistered(s: BrokerState, name: string): BrokerState {
    if name !in s.sessions then s
    else
      var left := Departed(s, name, s.sessions[name].channels);
      left.(sessions := left.sessions - {name})
  }

  // ---------------------------------------------------------------- one request

  /** The state after a request. */
  function After(s: BrokerState, now: int, r: Request): BrokerState {
    match r
    case Connect(c) => if c in s.outbox then s else s.(outbox := s.outbox[c := []])
    case Disconnect(c) => s.(outbox := s.outbox - {c})
    case Inject(e) => s.(outbox := Emit(s.outbox, e))
    case JoinChannel(name, raw) =>
      if name == "" || Text.Normalize(raw) == "" then s else Joined(s, name, Text.Normalize(raw), now)
    case LeaveChannel(name, raw) =>
      if name == "" || Text.Normalize(raw) == "" then s else Departed(s, name, {Text.Normalize(raw)})
    case PostToChannel(sender, raw, text) => Announced(s, sender, Text.Normalize(raw), text, now)
    case CreateTopic(id, topic, creator, raw) => Created(s, id, topic, creator, Text.Normalize(raw), now)
    case PostMessage(id, sender, text) => Posted(s, id, sender, text, now)
    case JoinTopic(id, name) => TopicJoined(s, id, name)
    case LeaveTopic(id, name) => TopicLeft(s, id, name)
    case Archive(id, actor) => StateSet(s, id, Archived, actor)
    case Unarchive(id, actor) => StateSet(s, id, Active, actor)
    case Register(name, objective) => if name == "" then s else Registered(s, name, objective, now)
    case Unregister(name) => Unregistered(s, name)
  }

  // ---------------------------------------------------------------- invariants

  /** The three maps agree: a channel is in a session's set exactly when the session is among the channel's members,
      no member set is empty, and whoever joined a topic is a member of its channel. */
  ghost predicate Consistent(s: BrokerState) {
    && (forall name: string, ch: string :: Subscribed(s, name, ch) <==> Member(s, name, ch))
    && (forall ch | ch in s.channels :: s.channels[ch] != {})
    && (forall id, name | id in s.topics && name in s.topics[id].joined :: Member(s, name, s.topics[id].channel))
  }

  /** At most one active topic of a name in a channel. */
  ghost predicate NamesUnique(topics: map<string, Topic>) {
    forall a, b | a in topics && b in topics && Clashes(topics, a, topics[b].name, topics[b].channel)
        && topics[b].state == Active :: a == b
  }

  ghost predicate Timely(messages: seq<HistoryPaging.HistoryEntry>, now: int) {
    && HistoryPaging.Sorted(messages)
    && (forall m | m in messages :: m.ts <= now)
  }

  /** Every message log is sorted by time and lies in the past. */
  ghost predicate LogsTimely(s: BrokerState, now: int) {
    forall id | id in s.topics :: Timely(s.topics[id].messages, now)
  }

  /** Topics are never lost, never move, and their logs only grow. */
  ghost predicate LogsGrow(s: BrokerState, s': BrokerState) {
    forall id | id in s.topics ::
      && id in s'.topics
      && s'.topics[id].channel == s.topics[id].channel
      && s'.topics[id].name == s.topics[id].name
      && s'.topics[id].creator == s.topics[id].creator
      && s.topics[id].messages <= s'.topics[id].messages
  }

  /** A random UUID is one no topic has. */
  predicate FreshId(s: BrokerState, r: Request) {
    r.CreateTopic? ==> r.id !in s.topics
  }

  // ---------------------------------------------------------------- what a request may do to topics

  /** How an existing topic may change: its identity stays, its log grows only by the message posted to it, its state
      changes only by (un)archiving it, and the only session that can be added is one joining it. */
  predicate Evolved(id: string, t: Topic, t': Topic, now: int, r: Request) {
    && t' == t.(state := t'.state, messages := t'.messages, joined := t'.joined)
    && (t'.messages == t.messages
        || (r.PostMessage? && r.id == id
            && t'.messages == t.messages + [HistoryPaging.HistoryEntry(r.sender, r.text, now)]))
    && (t'.state == t.state || (r.Archive? && r.id == id && t'.state == Archived)
        || (r.Unarchive? && r.id == id && t'.state == Active))
    && (t'.joined <= t.joined || (r.JoinTopic? && r.id == id && t'.joined == t.joined + {r.session}))
  }

  /** Where a new topic comes from. */
  predicate Fresh(s: BrokerState, id: string, t: Topic, now: int, r: Request) {
    && r.CreateTopic? && r.id == id
    && t == Topic(r.topic, Text.Normalize(r.channel), r.creator, Active, now, [], {})
    && !exists other | other in s.topics :: Clashes(s.topics, other, t.name, t.channel)
  }

  ghost predicate TopicsEvolve(s: BrokerState, topics': map<string, Topic>, now: int, r: Request) {
    && (forall id | id in s.topics :: id in topics' && Evolved(id, s.topics[id], topics'[id], now, r))
    && (forall id | id in topics' && id !in s.topics :: Fresh(s, id, topics'[id], now, r))
  }

  predicate TopicRequest(r: Request) {
    r.CreateTopic? || r.PostMessage? || r.JoinTopic? || r.LeaveTopic? || r.Archive? || r.Unarchive?
  }

  predicate DepartureRequest(r: Request) {
    r.LeaveChannel? || r.Unregister?
  }

  lemma DepartureEvolvesTopics(s: BrokerState, name: string, gone: set<string>, now: int, r: Request)
    ensures TopicsEvolve(s, Departed(s, name, gone).topics, now, r)
  {
  }

  lemma OneTopicEvolves(s: BrokerState, id: string, t': Topic, now: int, r: Request)
    requires if id in s.topics then Evolved(id, s.topics[id], t', now, r) else Fresh(s, id, t', now, r)
    ensures TopicsEvolve(s, s.topics[id := t'], now, r)
  {
  }

  lemma NoTopicEvolves(s: BrokerState, now: int, r: Request)
    ensures TopicsEvolve(s, s.topics, now, r)
  {
  }

  lemma TopicRequestEvolves(s: BrokerState, now: int, r: Request)
    requires FreshId(s, r) && TopicRequest(r) && After(s, now, r) != s
    ensures TopicsEvolve(s, After(s, now, r).topics, now, r)
  {
    var t' := After(s, now, r).topics[r.id];
    assert After(s, now, r).topics == s.topics[r.id := t'];
    OneTopicEvolves(s, r.id, t', now, r);
  }

  lemma RequestEvolvesTopics(s: BrokerState, now: int, r: Request)
    requires FreshId(s, r)
    ensures TopicsEvolve(s, After(s, now, r).topics, now, r)
  {
    if After(s, now, r).topics == s.topics {
      NoTopicEvolves(s, now, r);
    } else if r.LeaveChannel? {
      DepartureEvolvesTopics(s, r.session, {Text.Normalize(r.channel)}, now, r);
    } else if r.Unregister? {
      DepartureEvolvesTopics(s, r.name, s.sessions[r.name].channels, now, r);
    } else {
      TopicRequestEvolves(s, now, r);
    }
  }

  // ---------------------------------------------------------------- every request keeps the invariants

  lemma SameMembership(s: BrokerState, s': BrokerState)
    requires Consistent(s)
    requires forall n: string, ch: string :: Subscribed(s', n, ch) <==> Subscribed(s, n, ch)
    requires s'.channels == s.channels
    requires forall id, name | id in s'.topics && name in s'.topics[id].joined :: Member(s, name, s'.topics[id].channel)
    ensures Consistent(s')
  {
  }

  lemma JoinKeepsConsistent(s: BrokerState, name: string, channel: string, now: int)
    requires Consistent(s)
    ensures Consistent(Joined(s, name, channel, now))
    ensures forall n: string, ch: string ::
              Subscribed(Joined(s, name, channel, now), n, ch) <==> Subscribed(s, n, ch) || (n == name && ch == channel)
    ensures forall n: string, ch: string ::
              Member(Joined(s, name, channel, now), n, ch) <==> Member(s, n, ch) || (n == name && ch == channel)
  {
    var s' := Joined(s, name, channel, now);
    forall n: string, ch: string
      ensures Subscribed(s', n, ch) <==> Subscribed(s, n, ch) || (n == name && ch == channel)
      ensures Member(s', n, ch) <==> Member(s, n, ch) || (n == name && ch == channel)
    {
    }
  }

  lemma DepartureKeepsConsistent(s: BrokerState, name: string, gone: set<string>)
    requires Consistent(s)
    ensures Consistent(Departed(s, name, gone))
    ensures forall n: string, ch: string ::
              Subscribed(Departed(s, name, gone), n, ch) <==> Subscribed(s, n, ch) && !(n == name && ch in gone)
    ensures forall n: string, ch: string :: name in s.sessions ==>
              (Member(Departed(s, name, gone), n, ch) <==> Member(s, n, ch) && !(n == name && ch in gone))
  {
    var s' := Departed(s, name, gone);
    if name in s.sessions {
      forall n: string, ch: string
        ensures Subscribed(s', n, ch) <==> Subscribed(s, n, ch) && !(n == name && ch in gone)
        ensures Member(s', n, ch) <==> Member(s, n, ch) && !(n == name && ch in gone)
      {
        if Member(s, n, ch) && n != name {
          assert n in s.channels[ch] - {name};
        }
      }
    }
  }

  lemma UnregisterKeepsConsistent(s: BrokerState, name: string)
    requires Consistent(s)
    ensures Consistent(Unregistered(s, name))
  {
    if name in s.sessions {
      var left := Departed(s, name, s.sessions[name].channels);
      DepartureKeepsConsistent(s, name, s.sessions[name].channels);
      assert forall ch: string :: !Subscribed(left, name, ch);
      SameMembership(left, Unregistered(s, name));
    }
  }

  lemma SubscriptionsStay(s: BrokerState, now: int, r: Request)
    requires !r.JoinChannel? && !DepartureRequest(r)
    ensures After(s, now, r).channels == s.channels
    ensures forall n: string, ch: string :: Subscribed(After(s, now, r), n, ch) <==> Subscribed(s, n, ch)
  {
  }

  lemma JoinersAreSubscribed(s: BrokerState, now: int, r: Request, id: string, name: string)
    requires id in s.topics && id in After(s, now, r).topics && name in After(s, now, r).topics[id].joined
    requires Evolved(id, s.topics[id], After(s, now, r).topics[id], now, r)
    ensures name in s.topics[id].joined || Subscribed(s, name, s.topics[id].channel)
  {
  }

  lemma TopicRequestKeepsConsistent(s: BrokerState, now: int, r: Request)
    requires Consistent(s) && FreshId(s, r)
    requires !r.JoinChannel? && !DepartureRequest(r)
    ensures Consistent(After(s, now, r))
  {
    var s' := After(s, now, r);
    RequestEvolvesTopics(s, now, r);
    SubscriptionsStay(s, now, r);
    forall id, name | id in s'.topics && name in s'.topics[id].joined
      ensures Member(s, name, s'.topics[id].channel)
    {
      if id in s.topics {
        assert Evolved(id, s.topics[id], s'.topics[id], now, r);
        JoinersAreSubscribed(s, now, r, id, name);
      }
    }
    SameMembership(s, s');
  }

  lemma StepKeepsConsistent(s: BrokerState, now: int, r: Request)
    requires Consistent(s) && FreshId(s, r)
    ensures Consistent(After(s, now, r))
  {
    var s' := After(s, now, r);
    match r
    case JoinChannel(name, raw) =>
      JoinKeepsConsistent(s, name, Text.Normalize(raw), now);
    case LeaveChannel(name, raw) =>
      DepartureKeepsConsistent(s, name, {Text.Normalize(raw)});
    case Unregister(name) =>
      UnregisterKeepsConsistent(s, name);
    case _ =>
      TopicRequestKeepsConsistent(s, now, r);
  }

  lemma LogStaysTimely(h: seq<HistoryPaging.HistoryEntry>, h': seq<HistoryPaging.HistoryEntry>, now: int, now': int)
    requires Timely(h, now) && now <= now'
    requires h' == h || (|h'| == |h| + 1 && h' == h + [h'[|h|]] && h'[|h|].ts == now')
    ensures Timely(h', now')
  {
    forall i: nat, j: nat | i <= j < |h'| ensures HistoryPaging.InOrder(h', i, j) {
      if j < |h| {
        assert HistoryPaging.InOrder(h, i, j);
      } else if i < |h| {
        assert h[i] in h;
      }
    }
  }

  lemma StepKeepsLogs(s: BrokerState, now: int, now': int, r: Request)
    requires now <= now' && LogsTimely(s, now) && FreshId(s, r)
    ensures LogsTimely(After(s, now', r), now')
    ensures LogsGrow(s, After(s, now', r))
  {
    var topics' := After(s, now', r).topics;
    RequestEvolvesTopics(s, now', r);
    forall id | id in topics'
      ensures Timely(topics'[id].messages, now')
    {
      if id in s.topics {
        assert Evolved(id, s.topics[id], topics'[id], now', r);
        LogStaysTimely(s.topics[id].messages, topics'[id].messages, now, now');
      } else {
        assert Fresh(s, id, topics'[id], now', r);
      }
    }
    assert forall id | id in s.topics :: Evolved(id, s.topics[id], topics'[id], now', r);
  }

  /** A topic active after a request other than unarchiving is new or was active under the same name. */
  lemma Unchanged(s: BrokerState, topics': map<string, Topic>, now: int, r: Request, id: string)
    requires TopicsEvolve(s, topics', now, r) && !r.Unarchive?
    requires id in topics' && topics'[id].state == Active
    ensures id in s.topics ==>
              s.topics[id].state == Active && s.topics[id].name == topics'[id].name
                  && s.topics[id].channel == topics'[id].channel
    ensures id !in s.topics ==> Fresh(s, id, topics'[id], now, r)
  {
  }

  /** Creating a topic, like every request but unarchiving, keeps active names unique. */
  lemma StepKeepsNames(s: BrokerState, now: int, r: Request)
    requires NamesUnique(s.topics) && !r.Unarchive? && FreshId(s, r)
    ensures NamesUnique(After(s, now, r).topics)
  {
    var topics' := After(s, now, r).topics;
    RequestEvolvesTopics(s, now, r);
    forall a, b | a in topics' && b in topics' && Clashes(topics', a, topics'[b].name, topics'[b].channel)
        && topics'[b].state == Active
      ensures a == b
    {
      Unchanged(s, topics', now, r, a);
      Unchanged(s, topics', now, r, b);
      if a in s.topics && b in s.topics {
        assert Clashes(s.topics, a, s.topics[b].name, s.topics[b].channel);
      } else if a in s.topics {
        assert Clashes(s.topics, a, topics'[b].name, topics'[b].channel);
      } else if b in s.topics {
        assert Clashes(s.topics, b, topics'[a].name, topics'[a].channel);
      }
    }
  }

  /** Unarchiving does no name check: names stay unique exactly when no other active topic of the channel has the
      name already. */
  lemma UnarchiveAndNames(s: BrokerState, now: int, id: string, actor: Option<string>)
    requires NamesUnique(s.topics) && id in s.topics
    ensures NamesUnique(After(s, now, Unarchive(id, actor)).topics)
            <==> forall other | other in s.topics
                && other != id :: !Clashes(s.topics, other, s.topics[id].name, s.topics[id].channel)
  {
    var t' := After(s, now, Unarchive(id, actor)).topics;
    forall a, b | a in s.topics && b in s.topics && a != b
      ensures Clashes(t', a, t'[b].name, t'[b].channel) <==>
              (a == id || s.topics[a].state == Active) && s.topics[a].channel == s.topics[b].channel
              && Text.Normalize(s.topics[a].name) == Text.Normalize(s.topics[b].name)
    {
    }
    if other :| other in s.topics && other != id && Clashes(s.topics, other, s.topics[id].name, s.topics[id].channel) {
      assert Clashes(t', other, t'[id].name, t'[id].channel);
    } else {
      forall a, b | a in t' && b in t' && Clashes(t', a, t'[b].name, t'[b].channel) && t'[b].state == Active
        ensures a == b
      {
        if a == id {
          assert b != id ==> Clashes(s.topics, b, s.topics[id].name, s.topics[id].channel);
        } else {
          assert Clashes(s.topics, a, s.topics[b].name, s.topics[b].channel);
        }
      }
    }
  }

  // ---------------------------------------------------------------- runs

  datatype Run = Start(init: BrokerState, at: int) | Later(before: Run, now: int, request: Request) {
    function State(): BrokerState {
      if Start? then init else After(before.State(), now, request)
    }

    function Clock(): int {
      if Start? then at else now
    }

    /** Identifiers are fresh and the clock does not go back. */
    predicate Valid() {
      Later? ==> before.Valid() && FreshId(before.State(), request) && before.Clock() <= now
    }

    predicate NeverUnarchives() {
      Later? ==> !request.Unarchive? && before.NeverUnarchives()
    }
  }

  const EMPTY := BrokerState(map[], map[], map[], map[])

  function Origin(run: Run): BrokerState {
    if run.Start? then run.init else Origin(run.before)
  }

  /** What holds in every state the broker can reach. */
  lemma {:induction false} ReachableStates(run: Run)
    requires run.Valid() && Origin(run) == EMPTY
    ensures Consistent(run.State())
    ensures LogsTimely(run.State(), run.Clock())
    ensures run.NeverUnarchives() ==> NamesUnique(run.State().topics)
  {
    if run.Start? {
    } else {
      ReachableStates(run.before);
      var s := run.before.State();
      StepKeepsConsistent(s, run.now, run.request);
      StepKeepsLogs(s, run.before.Clock(), run.now, run.request);
      if run.NeverUnarchives() {
        StepKeepsNames(s, run.now, run.request);
      }
    }
  }

  /** The moments of a run: `run` itself or any earlier part of it. */
  predicate Within(earlier: Run, run: Run) {
    earlier == run || (run.Later? && Within(earlier, run.before))
  }

  /** Between any two moments of a run, logs only grow and stay sorted: the histories that a cursor walk reads page
      by page are what the pager needs. */
  lemma {:induction false} HistoriesFeedWalks(earlier: Run, run: Run)
    requires run.Valid() && Within(earlier, run) && Origin(run) == EMPTY
    ensures Origin(earlier) == EMPTY && earlier.Valid()
    ensures LogsGrow(earlier.State(), run.State())
    ensures forall id | id in run.State().topics :: HistoryPaging.Sorted(run.State().topics[id].messages)
    decreases run
  {
    ReachableStates(run);
    if earlier != run {
      HistoriesFeedWalks(earlier, run.before);
      ReachableStates(run.before);
      StepKeepsLogs(run.before.State(), run.before.Clock(), run.now, run.request);
    }
    assert forall id | id in run.State().topics :: Timely(run.State().topics[id].messages, run.Clock());
  }

  const TALK := Topic("t", "c", "s", Active, 0, [], {})

  lemma CreatesTalk(s: BrokerState, id: string)
    requires Subscribed(s, "s", "c") && forall other | other in s.topics :: s.topics[other].state == Archived
    ensures var s' := After(s, 0, CreateTopic(id, "t", "s", "c"));
            s'.topics == s.topics[id := TALK] && s'.sessions == s.sessions
  {
    assert Text.Normalize("c") == "c";
    assert !exists other | other in s.topics :: Clashes(s.topics, other, "t", "c");
  }

  lemma SetsState(s: BrokerState, id: string, state: TopicState)
    requires id in s.topics
    ensures var s' := After(s, 0, if state == Archived then Archive(id, None) else Unarchive(id, None));
            s'.topics == s.topics[id := s.topics[id].(state := state)] && s'.sessions == s.sessions
  {
  }

  lemma Extend(run: Run, request: Request) returns (longer: Run)
    requires run.Valid() && FreshId(run.State(), request)
    ensures longer.Valid() && Origin(longer) == Origin(run) && longer.Clock() == run.Clock()
    ensures longer.State() == After(run.State(), run.Clock(), request)
  {
    longer := Later(run, run.Clock(), request);
  }

  lemma TwoTalks(topics: map<string, Topic>, first: string, second: string)
    requires first != second && first in topics && second in topics && topics[first] == topics[second] == TALK
    ensures !NamesUnique(topics)
  {
    assert Clashes(topics, first, topics[second].name, topics[second].channel);
  }

  /** Session "s" has joined channel "c", created a topic there and archived it. */
  lemma FirstArchived(first: string) returns (run: Run)
    ensures run.Valid() && Origin(run) == EMPTY && run.Clock() == 0
    ensures run.State().topics == map[first := TALK.(state := Archived)] && Subscribed(run.State(), "s", "c")
  {
    assert Text.Normalize("c") == "c";
    var r := Extend(Start(EMPTY, 0), JoinChannel("s", "c"));
    assert r.State().topics == map[] && Subscribed(r.State(), "s", "c");
    CreatesTalk(r.State(), first);
    r := Extend(r, CreateTopic(first, "t", "s", "c"));
    SetsState(r.State(), first, Archived);
    run := Extend(r, Archive(first, None));
  }

  /** Creating a topic, archiving it, creating another of the same name and unarchiving the first: two active topics of
      one name. */
  lemma UnarchiveBreaksNames(first: string, second: string) returns (run: Run)
    requires first != second
    ensures run.Valid() && Origin(run) == EMPTY && !NamesUnique(run.State().topics)
  {
    var r := FirstArchived(first);
    CreatesTalk(r.State(), second);
    r := Extend(r, CreateTopic(second, "t", "s", "c"));
    SetsState(r.State(), first, Active);
    run := Extend(r, Unarchive(first, None));
    TwoTalks(run.State().topics, first, second);
  }
}
