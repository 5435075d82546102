/** What a request comes to for each part of the broker's state (`broker.ts`), and what the state is after a whole run,
    told from the requests alone. */
module BrokerHistory {
  import opened Common
  import opened BrokerModel
  import Text
  import HistoryPaging

  // ---------------------------------------------------------------- which requests are carried out

  /** A post that is not refused. */
  predicate Accepts(s: BrokerState, id: string, sender: string, text: string) {
    id in s.topics && text != "" && sender != "" && Subscribed(s, sender, s.topics[id].channel)
  }

  predicate AcceptsBroadcast(s: BrokerState, sender: string, channel: string, text: string) {
    text != "" && sender != "" && channel != "" && Subscribed(s, sender, channel)
  }

  /** An active topic of the channel has the name, whatever its case and the space around it. */
  predicate IsTaken(topics: map<string, Topic>, id: string, topic: string, channel: string) {
    && id in topics && topics[id].state == Active && topics[id].channel == channel
    && Text.Normalize(topics[id].name) == Text.Normalize(topic)
  }

  /** A creation that is not refused, and whose name is not taken. */
  predicate AcceptsTopic(s: BrokerState, topic: string, creator: string, channel: string) {
    && topic != "" && creator != "" && channel != "" && Subscribed(s, creator, channel)
    && forall other | other in s.topics :: !IsTaken(s.topics, other, topic, channel)
  }

  predicate Joins(r: Request, name: string, channel: string) {
    r.JoinChannel? && r.session == name != "" && Text.Normalize(r.channel) == channel != ""
  }

  predicate Leaves(r: Request, name: string, channel: string) {
    || (r.LeaveChannel? && r.session == name != "" && Text.Normalize(r.channel) == channel != "")
    || (r.Unregister? && r.name == name)
  }

  lemma ClashesIsTaken(topics: map<string, Topic>, topic: string, channel: string)
    ensures forall id :: Clashes(topics, id, topic, channel) <==> IsTaken(topics, id, topic, channel)
  {
  }

  /** No two active topics of a channel have one name. */
  lemma NamesAreUnique(topics: map<string, Topic>)
    ensures NamesUnique(topics) <==>
              forall a, b | a in topics && b in topics && topics[b].state == Active
                  && IsTaken(topics, a, topics[b].name, topics[b].channel) :: a == b
  {
    forall a, b | a in topics && b in topics
      ensures Clashes(topics, a, topics[b].name, topics[b].channel)
         <==> IsTaken(topics, a, topics[b].name, topics[b].channel)
    {
      ClashesIsTaken(topics, topics[b].name, topics[b].channel);
    }
  }

  // ---------------------------------------------------------------- one request, part by part

  /** Every connected client is told `e`, after what it was told before. */
  predicate AllTold(before: map<nat, seq<LocalEvent>>, after: map<nat, seq<LocalEvent>>, e: LocalEvent) {
    after.Keys == before.Keys && forall c | c in before :: after[c] == before[c] + [e]
  }

  /** Whether `e` is the event of an accepted post, field by field. */
  predicate TellsPost(e: LocalEvent, channel: string, id: string, sender: string, text: string, ts: int) {
    && e.source == "local" && e.kind == Message && e.channel == Some(channel) && e.topicId == Some(id)
    && e.sender == Some(sender) && e.text == Some(text) && e.ts == Some(ts)
    && e.topic.None? && e.archivedBy.None? && e.unarchivedBy.None?
  }

  predicate TellsBroadcast(e: LocalEvent, channel: string, sender: string, text: string, ts: int) {
    && e.source == "local" && e.kind == Broadcast && e.channel == Some(channel)
    && e.sender == Some(sender) && e.text == Some(text) && e.ts == Some(ts)
    && e.topicId.None? && e.topic.None? && e.archivedBy.None? && e.unarchivedBy.None?
  }

  predicate TellsTopic(e: LocalEvent, channel: string, id: string, topic: string, creator: string, ts: int) {
    && e.source == "local" && e.kind == TopicCreated && e.channel == Some(channel) && e.topic.Some?
    && e.topic.value.id == id && e.topic.value.name == topic && e.topic.value.channel == Some(channel)
    && e.topic.value.creator == creator && e.topic.value.createdAt == Some(ts)
    && e.topicId.None? && e.sender.None? && e.text.None? && e.ts.None? && e.archivedBy.None? && e.unarchivedBy.None?
  }

  predicate TellsState(e: LocalEvent, channel: string, id: string, archived: bool, actor: Option<string>) {
    && e.source == "local" && e.kind == (if archived then TopicArchived else TopicUnarchived)
    && e.channel == Some(channel) && e.topicId == Some(id)
    && e.archivedBy == (if archived then Some(actor.GetOr("unknown")) else None)
    && e.unarchivedBy == (if archived then None else Some(actor.GetOr("unknown")))
    && e.topic.None? && e.sender.None? && e.text.None? && e.ts.None?
  }

  /** Is `e` what the request tells every client? */
  predicate Tells(s: BrokerState, now: int, r: Request, e: LocalEvent) {
    match r
    case Inject(event) => e == event
    case PostToChannel(sender, raw, text) =>
      AcceptsBroadcast(s, sender, Text.Normalize(raw), text)
      && TellsBroadcast(e, Text.Normalize(raw), sender, text, now)
    case CreateTopic(id, topic, creator, raw) =>
      AcceptsTopic(s, topic, creator, Text.Normalize(raw))
          && TellsTopic(e, Text.Normalize(raw), id, topic, creator, now)
    case PostMessage(id, sender, text) =>
      Accepts(s, id, sender, text) && TellsPost(e, s.topics[id].channel, id, sender, text, now)
    case Archive(id, actor) => id in s.topics && TellsState(e, s.topics[id].channel, id, true, actor)
    case Unarchive(id, actor) => id in s.topics && TellsState(e, s.topics[id].channel, id, false, actor)
    case _ => false
  }

  /** A request that tells the clients nothing. */
  predicate TellsNothing(s: BrokerState, r: Request) {
    match r
    case Inject(_) => false
    case PostToChannel(sender, raw, text) => !AcceptsBroadcast(s, sender, Text.Normalize(raw), text)
    case CreateTopic(id, topic, creator, raw) => !AcceptsTopic(s, topic, creator, Text.Normalize(raw))
    case PostMessage(id, sender, text) => !Accepts(s, id, sender, text)
    case Archive(id, _) => id !in s.topics
    case Unarchive(id, _) => id !in s.topics
    case _ => true
  }

  /** An accepted post is the last message of its topic afterwards, every other log is as it was, and every client is
      told of it once. */
  lemma PostIsStoredAndTold(s: BrokerState, now: int, id: string, sender: string, text: string)
    requires Accepts(s, id, sender, text)
    ensures var s' := After(s, now, PostMessage(id, sender, text));
            && id in s'.topics
                && s'.topics[id].messages == s.topics[id].messages + [HistoryPaging.HistoryEntry(sender, text, now)]
            && s'.topics.Keys == s.topics.Keys
            && (forall other | other in s.topics && other != id :: s'.topics[other] == s.topics[other])
            && s'.outbox.Keys == s.outbox.Keys
            && forall c | c in s.outbox ::
                 && |s'.outbox[c]| == |s.outbox[c]| + 1 && s.outbox[c] <= s'.outbox[c]
                 && TellsPost(s'.outbox[c][|s.outbox[c]|], s.topics[id].channel, id, sender, text, now)
  {
  }

  /** A log grows by exactly the posts accepted for it. */
  lemma RequestAndLog(s: BrokerState, now: int, r: Request, id: string)
    requires FreshId(s, r) && id in s.topics
    ensures id in After(s, now, r).topics
    ensures After(s, now, r).topics[id].messages
         == s.topics[id].messages
            + if r.PostMessage? && r.id == id && Accepts(s, id, r.sender, r.text)
              then [HistoryPaging.HistoryEntry(r.sender, r.text, now)] else []
  {
  }

  /** Topics come to be by accepted creations only, with what was asked for, and never disappear or move. */
  lemma RequestAndTopic(s: BrokerState, now: int, r: Request, id: string)
    requires FreshId(s, r)
    ensures id in After(s, now, r).topics
       <==> id in s.topics
            || (r.CreateTopic? && r.id == id && AcceptsTopic(s, r.topic, r.creator, Text.Normalize(r.channel)))
    ensures id in After(s, now, r).topics ==>
              var t' := After(s, now, r).topics[id];
              if id in s.topics then
                var t := s.topics[id];
                && t'.name == t.name && t'.channel == t.channel && t'.creator == t.creator
                && t'.createdAt == t.createdAt
                && t'.state == if r.Archive? && r.id == id then Archived
                   else if r.Unarchive? && r.id == id then Active else t.state
              else
                && r.CreateTopic? && t'.name == r.topic && t'.channel == Text.Normalize(r.channel)
                && t'.creator == r.creator && t'.createdAt == now && t'.state == Active
                && t'.messages == [] && t'.joined == {}
  {
    RequestEvolvesTopics(s, now, r);
  }

  /** Who has joined a topic: whoever joins it while in its channel, until leaving the topic or the channel. */
  lemma RequestAndJoined(s: BrokerState, now: int, r: Request, id: string, name: string)
    requires FreshId(s, r) && id in s.topics
    ensures id in After(s, now, r).topics
    ensures name in After(s, now, r).topics[id].joined
       <==> || (r == JoinTopic(id, name) && name != "" && Subscribed(s, name, s.topics[id].channel))
            || (name in s.topics[id].joined
                && !(r == LeaveTopic(id, name) && name != "")
                && !(r.LeaveChannel? && name in s.sessions && Leaves(r, name, s.topics[id].channel))
                && !(r == Unregister(name) && Subscribed(s, name, s.topics[id].channel)))
  {
  }

  /** Membership: whoever joins is in, until leaving or being unregistered. */
  lemma RequestAndMembership(s: BrokerState, now: int, r: Request, name: string, channel: string)
    ensures Subscribed(After(s, now, r), name, channel)
       <==> Joins(r, name, channel) || (Subscribed(s, name, channel) && !Leaves(r, name, channel))
  {
  }

  /** Sessions come to be by joining a channel or registering, and go by unregistering; they keep the time they came,
      and the objective last given. */
  lemma RequestAndSession(s: BrokerState, now: int, r: Request, name: string)
    ensures name in After(s, now, r).sessions
       <==> || (name in s.sessions && r != Unregister(name))
            || (r.JoinChannel? && r.session == name != "" && Text.Normalize(r.channel) != "")
            || (r.Register? && r.name == name != "")
    ensures name in After(s, now, r).sessions ==>
              var session := After(s, now, r).sessions[name];
              && session.registeredAt == (if name in s.sessions then s.sessions[name].registeredAt else now)
              && session.objective
                 == if r.Register? && r.name == name != "" && r.objective.Some? then r.objective
                    else if name in s.sessions then s.sessions[name].objective else None
  {
  }

  lemma RequestAndClients(s: BrokerState, now: int, r: Request, c: nat)
    ensures c in After(s, now, r).outbox <==> (c in s.outbox && r != Disconnect(c)) || r == Connect(c)
    ensures c in After(s, now, r).outbox && c !in s.outbox ==> After(s, now, r).outbox[c] == []
  {
  }

  lemma RequestTells(s: BrokerState, now: int, r: Request, c: nat)
    requires c in s.outbox && r != Disconnect(c)
    ensures c in After(s, now, r).outbox
    ensures var told := After(s, now, r).outbox[c];
            if TellsNothing(s, r) then told == s.outbox[c]
            else |told| == |s.outbox[c]| + 1 && s.outbox[c] <= told && Tells(s, now, r, told[|s.outbox[c]|])
  {
  }

  /** Connected clients are told what the request tells, and nothing else; a client that connects starts from
      nothing. */
  lemma RequestAndOutbox(s: BrokerState, now: int, r: Request, c: nat)
    ensures c in After(s, now, r).outbox <==> (c in s.outbox && r != Disconnect(c)) || r == Connect(c)
    ensures c in After(s, now, r).outbox ==>
              var told := After(s, now, r).outbox[c];
              if c !in s.outbox then told == []
              else if TellsNothing(s, r) then told == s.outbox[c]
              else |told| == |s.outbox[c]| + 1 && s.outbox[c] <= told && Tells(s, now, r, told[|s.outbox[c]|])
  {
    RequestAndClients(s, now, r, c);
    if c in s.outbox && r != Disconnect(c) {
      RequestTells(s, now, r, c);
    }
  }

  // ---------------------------------------------------------------- whole runs

  /** The session has joined the channel and not left it since: told from the requests alone. */
  predicate IsIn(run: Run, name: string, channel: string) {
    run.Later?
    && (Joins(run.request, name, channel)
        || (IsIn(run.before, name, channel) && !Leaves(run.request, name, channel)))
  }

  /** The posts accepted for a topic, in order. */
  function AcceptedPosts(run: Run, id: string): seq<HistoryPaging.HistoryEntry> {
    if run.Start? then []
    else
      AcceptedPosts(run.before, id)
      + if run.request.PostMessage? && run.request.id == id
           && Accepts(run.before.State(), id, run.request.sender, run.request.text)
        then [HistoryPaging.HistoryEntry(run.request.sender, run.request.text, run.now)] else []
  }

  /** After every run from the empty broker: who is in a channel is whoever joined it and has not left it since. */
  lemma {:induction false} MembershipIsHistory(run: Run, name: string, channel: string)
    requires Origin(run) == EMPTY
    ensures Subscribed(run.State(), name, channel) <==> IsIn(run, name, channel)
  {
    if run.Start? {
    } else {
      MembershipIsHistory(run.before, name, channel);
      RequestAndMembership(run.before.State(), run.now, run.request, name, channel);
    }
  }

  /** And the log of every topic is exactly the posts accepted for it, each once, in the order they came. */
  lemma {:induction false} LogIsAcceptedPosts(run: Run, id: string)
    requires run.Valid() && Origin(run) == EMPTY
    ensures id in run.State().topics ==> run.State().topics[id].messages == AcceptedPosts(run, id)
    ensures id !in run.State().topics ==> AcceptedPosts(run, id) == []
  {
    if run.Start? {
    } else {
      LogIsAcceptedPosts(run.before, id);
      var s := run.before.State();
      RequestAndTopic(s, run.now, run.request, id);
      if id in s.topics {
        RequestAndLog(s, run.now, run.request, id);
      }
    }
  }

  ghost predicate IsNext(run: Run, c: nat, t: seq<LocalEvent>)
    requires run.Later?
    decreases run, 0
  {
    if TellsNothing(run.before.State(), run.request) then IsTold(run.before, c, Some(t))
    else
      && t != [] && IsTold(run.before, c, Some(t[..|t| - 1]))
      && Tells(run.before.State(), run.now, run.request, t[|t| - 1])
  }

  /** What a client has been told since it connected, `None` while it is not: one event for each request since then that
      tells something. */
  ghost predicate IsTold(run: Run, c: nat, told: Option<seq<LocalEvent>>)
    decreases run, 1
  {
    if run.Start? then told.None?
    else
      match told
      case None => run.request == Disconnect(c) || (IsTold(run.before, c, None) && run.request != Connect(c))
      case Some(t) =>
        || (run.request == Connect(c) && IsTold(run.before, c, None) && t == [])
        || (run.request != Disconnect(c) && IsNext(run, c, t))
  }

  function OutboxOf(s: BrokerState, c: nat): Option<seq<LocalEvent>> {
    if c in s.outbox then Some(s.outbox[c]) else None
  }

  lemma TellsOneThing(s: BrokerState, now: int, r: Request, e: LocalEvent, f: LocalEvent)
    requires Tells(s, now, r, e) && Tells(s, now, r, f)
    ensures e == f
  {
  }

  lemma LastTold(s: BrokerState, s': BrokerState, now: int, r: Request, c: nat, front: seq<LocalEvent>,
      last: LocalEvent)
    requires s' == After(s, now, r) && !TellsNothing(s, r) && r != Disconnect(c) && c in s.outbox
               && s.outbox[c] == front
    ensures Tells(s, now, r, last) <==> OutboxOf(s', c) == Some(front + [last])
  {
    RequestAndOutbox(s, now, r, c);
    var told := s'.outbox[c];
    assert told == front + [told[|front|]];
    if Tells(s, now, r, last) {
      TellsOneThing(s, now, r, last, told[|front|]);
    }
  }

  /** And what a client has been told is exactly that. */
  lemma {:induction false} OutboxIsHistory(run: Run, c: nat, told: Option<seq<LocalEvent>>)
    requires Origin(run) == EMPTY
    ensures IsTold(run, c, told) <==> told == OutboxOf(run.State(), c)
  {
    if run.Start? {
    } else {
      var s, s' := run.before.State(), run.State();
      RequestAndOutbox(s, run.now, run.request, c);
      OutboxIsHistory(run.before, c, None);
      if told.Some? {
        OutboxIsHistory(run.before, c, told);
        if told.value != [] && c in s.outbox {
          var front, last := told.value[..|told.value| - 1], told.value[|told.value| - 1];
          OutboxIsHistory(run.before, c, Some(front));
          assert told.value == front + [last];
          if !TellsNothing(s, run.request) && run.request != Disconnect(c) && s.outbox[c] == front {
            LastTold(s, s', run.now, run.request, c, front, last);
          }
        } else if told.value != [] {
          OutboxIsHistory(run.before, c, Some(told.value[..|told.value| - 1]));
        }
      }
    }
  }
}
