/** The event listener (`broker-event-listener.ts`) and what reaches the message bus, end to end. */
module Listener {
  import opened Common
  import opened BrokerModel
  import Text
  import HistoryPaging
  import Context
  import EventStream
  import ChunkedDelivery
  import BrokerHistory
  import Utf8

  /** What `bus.push` is called with; `kind` records the event it was made from. */
  datatype Push = Push(kind: EventType, sender: string, text: string, ts: int, channel: string,
      threadTs: Option<string>)

  predicate ChannelSubscribed(ctx: Context.State, channel: string) {
    channel != "" && Context.SubscribedAnywhere(ctx, channel)
  }

  predicate Follows(ctx: Context.State, id: Option<string>) {
    id.Some? && id.value != "" && Context.TopicIsJoined(ctx, id.value)
  }

  /** `isExactSelf`, for a sender that is present and not empty. */
  predicate IsSelf(self: Option<string>, sender: Option<string>) {
    sender.Some? && sender.value != "" && self == sender
  }

  /** `handleLocalEvent`: the push an event leads to, if any. */
  function Filter(ctx: Context.State, self: Option<string>, e: LocalEvent, now: int): Option<Push> {
    var channel := Text.Normalize(e.channel.GetOr(""));
    match e.kind
    case TopicCreated =>
      if e.topic.None? then None
      else
        var t := e.topic.value;
        var home := Text.Normalize(if e.channel.Some? then e.channel.value else t.channel.GetOr(""));
        if !ChannelSubscribed(ctx, home) || IsSelf(self, Some(t.creator)) then None
        else Some(Push(TopicCreated, t.creator, "New topic in \"" + home + "\": \"" + t.name + "\"",
            t.createdAt.GetOr(now), home, None))
    case Message =>
      if !ChannelSubscribed(ctx, channel) || !Follows(ctx, e.topicId) || IsSelf(self, e.sender) then None
      else Some(Push(Message, e.sender.GetOr("unknown"), e.text.GetOr(""), e.ts.GetOr(now), channel, e.topicId))
    case TopicArchived =>
      if !ChannelSubscribed(ctx, channel) || !Follows(ctx, e.topicId) || IsSelf(self, e.archivedBy) then None
      else Some(Push(TopicArchived, e.archivedBy.GetOr("unknown"), "Topic archived", now, channel, e.topicId))
    case TopicUnarchived =>
      if !ChannelSubscribed(ctx, channel) || !Follows(ctx, e.topicId) || IsSelf(self, e.unarchivedBy) then None
      else Some(Push(TopicUnarchived, e.unarchivedBy.GetOr("unknown"), "Topic unarchived", now, channel, e.topicId))
    case Broadcast =>
      if !ChannelSubscribed(ctx, channel) || IsSelf(self, e.sender) then None
      else Some(Push(Broadcast, e.sender.GetOr("unknown"), e.text.GetOr(""), e.ts.GetOr(now), channel, None))
    case Unknown => None
  }

  class BrokerEventListener {
    const context: Context.ActiveContext
    var self: Option<string>
    var pushed: seq<Push>

    constructor (context: Context.ActiveContext)
      ensures this.context == context && pushed == [] && self == None
    {
      this.context, self, pushed := context, None, [];
    }

    /** One parsed payload: events that do not say they are local are dropped. */
    method ProcessEvent(e: LocalEvent, now: int)
      modifies this`pushed
      ensures var p := Filter(context.Abs(), self, e, now);
              pushed == old(pushed) + if e.source == "local" && p.Some? then [p.value] else []
    {
      if e.source != "local" {
        return;
      }
      match e.kind
      case TopicCreated =>
        if e.topic.None? {
          return;
        }
        var t := e.topic.value;
        var channel := Text.Normalize(if e.channel.Some? then e.channel.value else t.channel.GetOr(""));
        if !ChannelSubscribed(context.Abs(), channel) {
          return;
        }
        if t.creator != "" && self == Some(t.creator) {
          return;
        }
        pushed := pushed + [Push(TopicCreated, t.creator, "New topic in \"" + channel + "\": \"" + t.name + "\"",
                                 t.createdAt.GetOr(now), channel, None)];
      case Message =>
        var channel := Text.Normalize(e.channel.GetOr(""));
        if !ChannelSubscribed(context.Abs(), channel) {
          return;
        }
        if e.topicId.None? || e.topicId.value == "" || !Context.TopicIsJoined(context.Abs(), e.topicId.value) {
          return;
        }
        if IsSelf(self, e.sender) {
          return;
        }
        pushed := pushed
            + [Push(Message, e.sender.GetOr("unknown"), e.text.GetOr(""), e.ts.GetOr(now), channel, e.topicId)];
      case TopicArchived | TopicUnarchived =>
        var actor := if e.kind == TopicArchived then e.archivedBy else e.unarchivedBy;
        var channel := Text.Normalize(e.channel.GetOr(""));
        if !ChannelSubscribed(context.Abs(), channel) || !Follows(context.Abs(), e.topicId) || IsSelf(self, actor) {
          return;
        }
        var text := if e.kind == TopicArchived then "Topic archived" else "Topic unarchived";
        pushed := pushed + [Push(e.kind, actor.GetOr("unknown"), text, now, channel, e.topicId)];
      case Broadcast =>
        var channel := Text.Normalize(e.channel.GetOr(""));
        if !ChannelSubscribed(context.Abs(), channel) || IsSelf(self, e.sender) {
          return;
        }
        pushed := pushed
            + [Push(Broadcast, e.sender.GetOr("unknown"), e.text.GetOr(""), e.ts.GetOr(now), channel, None)];
      case Unknown =>
    }
  }

  // ---------------------------------------------------------------- broker and listener together

  /** The broker, and one listener connected as client `me`: how many of the events written to it it has handled, its
      context and name, and everything it has pushed. */
  datatype System = System(broker: BrokerState, me: nat, handled: nat, ctx: Context.State, self: Option<string>,
      pushed: seq<Push>) {
    function Inbox(): seq<LocalEvent> {
      if me in broker.outbox then broker.outbox[me] else []
    }

    /** Written to the listener but not handled yet. */
    function Pending(): seq<LocalEvent> {
      if handled <= |Inbox()| then Inbox()[handled..] else []
    }
  }

  datatype Step =
    | Ask(now: int, request: Request)
    | Deliver(now: int)
    | Operate(op: Context.Op)
    | Introduce(name: string)

  function Next(s: System, step: Step): System {
    match step
    case Ask(now, r) =>
      var s' := s.(broker := After(s.broker, now, r));
      if s.me in s.broker.outbox && s.me in s'.broker.outbox then s' else s'.(handled := 0)
    case Deliver(now) =>
      if s.Pending() == [] then s
      else
        var e := s.Pending()[0];
        var p := Filter(s.ctx, s.self, e, now);
        s.(handled := s.handled + 1, pushed := s.pushed + if e.source == "local" && p.Some? then [p.value] else [])
    case Operate(op) => s.(ctx := Context.After(s.ctx, op))
    case Introduce(name) => s.(self := Some(name))
  }

  // ---------------------------------------------------------------- safety, injected events included

  /** Who an event says it is from. */
  function Author(e: LocalEvent): Option<string> {
    match e.kind
    case TopicCreated => if e.topic.Some? then Some(e.topic.value.creator) else None
    case Message => e.sender
    case TopicArchived => e.archivedBy
    case TopicUnarchived => e.unarchivedBy
    case Broadcast => e.sender
    case Unknown => None
  }

  /** A push made from an event concerns a subscribed channel, for message, archive and unarchive events a joined topic,
      and never the listener's own name; it carries the author the event names. */
  ghost predicate Proper(ctx: Context.State, self: Option<string>, e: LocalEvent, p: Push) {
    && p.kind == e.kind && p.sender == Author(e).GetOr("unknown")
    && Context.SubscribedAnywhere(ctx, p.channel)
    && (p.kind in {Message, TopicArchived, TopicUnarchived} ==>
          p.threadTs == e.topicId && p.threadTs.Some? && Context.TopicIsJoined(ctx, p.threadTs.value))
    && (Author(e).Some? && Author(e).value != "" ==> self != Author(e))
  }

  lemma FilterIsProper(ctx: Context.State, self: Option<string>, e: LocalEvent, now: int)
    ensures var p := Filter(ctx, self, e, now); p.Some? ==> Proper(ctx, self, e, p.value)
  {
    match e.kind
    case TopicCreated =>
    case Message =>
    case Broadcast =>
    case _ =>
  }

  /** Whatever the broker sends, a step pushes at most one thing, made from the event it handles, and never a message of
      a topic that is not joined at that moment, of a channel that is not subscribed, or of an author by the listener's
      own name. */
  lemma NothingForeign(s: System, step: Step)
    ensures var s' := Next(s, step);
            || s'.pushed == s.pushed
            || (step.Deliver? && s.Pending() != []
                && exists p :: s'.pushed == s.pushed + [p] && Proper(s.ctx, s.self, s.Pending()[0], p))
  {
    var s' := Next(s, step);
    if step.Deliver? && s.Pending() != [] && s'.pushed != s.pushed {
      var e := s.Pending()[0];
      FilterIsProper(s.ctx, s.self, e, step.now);
      var p := Filter(s.ctx, s.self, e, step.now).value;
      assert s'.pushed == s.pushed + [p];
    }
  }

  // ---------------------------------------------------------------- which events are handed on, and as what

  /** The channel an event is about. */
  function ChannelOf(e: LocalEvent): string {
    var named := if e.channel.Some? then e.channel
                 else if e.kind == TopicCreated && e.topic.Some? then e.topic.value.channel else None;
    Text.Normalize(if named.Some? then named.value else "")
  }

  predicate NeedsJoining(kind: EventType) {
    kind == Message || kind == TopicArchived || kind == TopicUnarchived
  }

  /** The listener's own name stands on the event. */
  predicate IsOwn(self: Option<string>, e: LocalEvent) {
    Author(e).Some? && Author(e).value != "" && self == Author(e)
  }

  /** An event concerns a listener that is subscribed to its channel and, unless it is a broadcast or a new topic,
      joined to its topic. */
  predicate Concerns(ctx: Context.State, e: LocalEvent) {
    && e.kind != Unknown && (e.kind == TopicCreated ==> e.topic.Some?)
    && ChannelOf(e) != "" && Context.SubscribedAnywhere(ctx, ChannelOf(e))
    && (NeedsJoining(e.kind)
        ==> e.topicId.Some? && e.topicId.value != "" && Context.TopicIsJoined(ctx, e.topicId.value))
  }

  /** What the user is to read. */
  function Reads(e: LocalEvent): string {
    match e.kind
    case TopicCreated =>
      if e.topic.Some? then "New topic in \"" + ChannelOf(e) + "\": \"" + e.topic.value.name + "\"" else ""
    case TopicArchived => "Topic archived"
    case TopicUnarchived => "Topic unarchived"
    case _ => if e.text.Some? then e.text.value else ""
  }

  /** An event is handed on exactly when it concerns the listener and is not its own, with its author, channel and
      topic, and with its time where it has one. */
  lemma FilterExactly(ctx: Context.State, self: Option<string>, e: LocalEvent, now: int)
    ensures Filter(ctx, self, e, now).Some? <==> Concerns(ctx, e) && !IsOwn(self, e)
    ensures Filter(ctx, self, e, now).Some? ==>
              var p := Filter(ctx, self, e, now).value;
              && p.kind == e.kind && p.channel == ChannelOf(e) && p.text == Reads(e)
              && p.sender == (if Author(e).Some? then Author(e).value else "unknown")
              && p.threadTs == (if NeedsJoining(e.kind) then e.topicId else None)
              && p.ts == (match e.kind
                          case Message => if e.ts.Some? then e.ts.value else now
                          case Broadcast => if e.ts.Some? then e.ts.value else now
                          case TopicCreated =>
                            if e.topic.Some?
                                && e.topic.value.createdAt.Some? then e.topic.value.createdAt.value else now
                          case _ => now)
  {
    match e.kind
    case TopicCreated =>
    case Message =>
    case Broadcast =>
    case _ =>
  }

  /** What an accepted request comes to at a listener, in the request's own terms; `None` when nothing is handed on. */
  function Reaches(s: BrokerState, now: int, r: Request, later: int): Option<Push> {
    match r
    case PostToChannel(sender, raw, text) =>
      if BrokerHistory.AcceptsBroadcast(s, sender, Text.Normalize(raw), text) then
        Some(Push(Broadcast, sender, text, now, Text.Normalize(raw), None))
      else None
    case CreateTopic(_, topic, creator, raw) =>
      if BrokerHistory.AcceptsTopic(s, topic, creator, Text.Normalize(raw)) then
        Some(Push(TopicCreated, creator, "New topic in \"" + Text.Normalize(raw) + "\": \"" + topic + "\"", now,
            Text.Normalize(raw), None))
      else None
    case PostMessage(id, sender, text) =>
      if BrokerHistory.Accepts(s, id, sender, text) then
        Some(Push(Message, sender, text, now, s.topics[id].channel, Some(id)))
      else None
    case Archive(id, actor) =>
      if id in s.topics then
        Some(Push(TopicArchived, actor.GetOr("unknown"), "Topic archived", later, s.topics[id].channel, Some(id)))
      else None
    case Unarchive(id, actor) =>
      if id in s.topics then
        Some(Push(TopicUnarchived, actor.GetOr("unknown"), "Topic unarchived", later, s.topics[id].channel, Some(id)))
      else None
    case _ => None
  }

  /** The listener is to be told: subscribed, joined where a topic is meant, and somebody else. */
  predicate Wants(ctx: Context.State, self: Option<string>, p: Push) {
    && Context.SubscribedAnywhere(ctx, p.channel)
    && (NeedsJoining(p.kind) ==> p.threadTs.Some? && Context.TopicIsJoined(ctx, p.threadTs.value))
    && (p.sender != "" ==> self != Some(p.sender))
  }

  /** Channels and topics of a broker without injected oddities have names that are not empty. */
  ghost predicate WellNamed(s: BrokerState) {
    forall id | id in s.topics :: id != "" && Text.Normalize(s.topics[id].channel) == s.topics[id].channel != ""
  }

  /** From a request to a listener: of whatever a connected listener is written for a request, it hands on exactly what
      the request comes to, if it wants it. */
  lemma RequestReaches(s: BrokerState, now: int, r: Request, ctx: Context.State, self: Option<string>, later: int,
                       e: LocalEvent)
    requires WellNamed(s) && !r.Inject? && BrokerHistory.Tells(s, now, r, e)
    ensures Reaches(s, now, r, later).Some?
    ensures var p := Reaches(s, now, r, later);
            Filter(ctx, self, e, later) == if Wants(ctx, self, p.value) then p else None
  {
    Text.NormalizeIdempotent(if r.PostToChannel? || r.CreateTopic? then r.channel else "");
    FilterExactly(ctx, self, e, later);
  }

  /** Handling an event takes it off what is waiting, and hands it on if it is local, concerns the listener and is not
      its own. */
  lemma DeliverTakesOne(s: System, now: int)
    requires s.Pending() != []
    ensures var s', e := Next(s, Deliver(now)), s.Pending()[0];
            && s'.Pending() == s.Pending()[1..] && s'.handled == s.handled + 1
            && |s'.pushed|
                == |s.pushed| + (if e.source == "local" && Concerns(s.ctx, e) && !IsOwn(s.self, e) then 1 else 0)
            && s.pushed <= s'.pushed
            && s' == s.(handled := s'.handled, pushed := s'.pushed)
  {
    FilterExactly(s.ctx, s.self, s.Pending()[0], now);
  }

  /** A client that connects has been written nothing yet and has handled nothing, whatever it had before. */
  lemma ConnectsAfresh(s: System, now: int)
    requires s.me !in s.broker.outbox
    ensures var s' := Next(s, Ask(now, Connect(s.me))); s'.handled == 0 && s'.Inbox() == [] && s'.Pending() == []
    ensures Next(s, Ask(now, Connect(s.me))).pushed == s.pushed
  {
  }

  /** The session's name is the one it last introduced itself with; its context changes by its own operations only. */
  lemma StepAndSession(s: System, step: Step)
    ensures Next(s, step).self == if step.Introduce? then Some(step.name) else s.self
    ensures Next(s, step).ctx == if step.Operate? then Context.After(s.ctx, step.op) else s.ctx
    ensures Next(s, step).broker != s.broker ==> step.Ask?
    ensures !step.Deliver? ==> Next(s, step).pushed == s.pushed
  {
  }

  // ---------------------------------------------------------------- exact delivery

  function DueOne(e: LocalEvent, id: string, self: Option<string>): seq<Push> {
    if e.kind == Message && e.topicId == Some(id) && !IsSelf(self, e.sender) then
      [Push(Message, e.sender.GetOr(""), e.text.GetOr(""), e.ts.GetOr(0), e.channel.GetOr(""), Some(id))]
    else []
  }

  /** The events of topic `id` sent by others, as the pushes they should become. */
  function Due(events: seq<LocalEvent>, id: string, self: Option<string>): seq<Push> {
    if events == [] then []
    else Due(events[..|events| - 1], id, self) + DueOne(events[|events| - 1], id, self)
  }

  /** The stored messages of others, as the pushes they should become. */
  function Expected(log: seq<HistoryPaging.HistoryEntry>, channel: string, id: string,
      self: Option<string>): seq<Push> {
    if log == [] then []
    else
      var front, m := Expected(log[..|log| - 1], channel, id, self), log[|log| - 1];
      if IsSelf(self, Some(m.sender)) then front else front + [Push(Message, m.sender, m.text, m.ts, channel, Some(id))]
  }

  /** The message pushes of topic `id` among everything pushed. */
  function OfTopic(pushed: seq<Push>, id: string): seq<Push> {
    if pushed == [] then []
    else
      var front, p := OfTopic(pushed[..|pushed| - 1], id), pushed[|pushed| - 1];
      if p.kind == Message && p.threadTs == Some(id) then front + [p] else front
  }

  predicate NormalName(channel: string) {
    channel != "" && Text.Normalize(channel) == channel
  }

  /** A message event the broker itself made, for a topic it has. */
  predicate Genuine(topics: map<string, Topic>, e: LocalEvent) {
    e.kind == Message ==>
      && e.source == "local"
      && e.topicId.Some? && e.topicId.value in topics && e.topicId.value != ""
      && e.channel == Some(topics[e.topicId.value].channel)
      && e.sender.Some? && e.text.Some? && e.ts.Some?
  }

  ghost predicate Honest(s: BrokerState) {
    && (forall id | id in s.topics :: id != "" && NormalName(s.topics[id].channel))
    && (forall c, k | c in s.outbox && 0 <= k < |s.outbox[c]| :: Genuine(s.topics, s.outbox[c][k]))
  }

  /** A request that injects nothing and gives new topics a real identifier. */
  predicate Ordinary(s: BrokerState, r: Request) {
    !r.Inject? && FreshId(s, r) && (r.CreateTopic? ==> r.id != "")
  }

  // ---------------------------------------------------------------- one request

  /** What one request writes to an inbox matches what it appends to the log of topic `id`. */
  ghost predicate InboxFollowsLog(s: BrokerState, s': BrokerState, c: nat, id: string, self: Option<string>)
    requires c in s.outbox && id in s.topics
  {
    && c in s'.outbox && s.outbox[c] <= s'.outbox[c]
    && id in s'.topics && s'.topics[id].channel == s.topics[id].channel
    && s.topics[id].messages <= s'.topics[id].messages
    && Due(s'.outbox[c][|s.outbox[c]|..], id, self)
       == Expected(s'.topics[id].messages[|s.topics[id].messages|..], s.topics[id].channel, id, self)
  }

  lemma NothingNew(s: BrokerState, s': BrokerState, c: nat, id: string, self: Option<string>)
    requires c in s.outbox && id in s.topics && id in s'.topics && s'.outbox == s.outbox
    requires s'.topics[id].channel == s.topics[id].channel && s'.topics[id].messages == s.topics[id].messages
    ensures InboxFollowsLog(s, s', c, id, self)
  {
  }

  lemma OneEvent(s: BrokerState, s': BrokerState, e: LocalEvent, c: nat, id: string, self: Option<string>)
    requires c in s.outbox && id in s.topics && id in s'.topics && s'.outbox == Emit(s.outbox, e)
    requires s'.topics[id].channel == s.topics[id].channel
    requires if e.kind == Message && e.topicId == Some(id)
             then && e == MessageEvent(s.topics[id].channel, id, e.sender.GetOr(""), e.text.GetOr(""), e.ts.GetOr(0))
                  && s'.topics[id].messages
                     == s.topics[id].messages
                         + [HistoryPaging.HistoryEntry(e.sender.GetOr(""), e.text.GetOr(""), e.ts.GetOr(0))]
             else s'.topics[id].messages == s.topics[id].messages
    ensures InboxFollowsLog(s, s', c, id, self)
  {
    var old_, log, log' := s.outbox[c], s.topics[id].messages, s'.topics[id].messages;
    assert s'.outbox[c] == old_ + [e];
    assert s'.outbox[c][|old_|..] == [e];
    assert [e][..0] == [];
    assert Due([e], id, self) == [] + DueOne(e, id, self);
    if |log'| > |log| {
      assert log'[|log|..] == [log'[|log|]];
      assert [log'[|log|]][..0] == [];
    } else {
      assert log'[|log|..] == [];
    }
  }

  lemma OtherEvent(s: BrokerState, now: int, r: Request) returns (e: LocalEvent)
    requires r.PostToChannel? || r.CreateTopic? || r.Archive? || r.Unarchive?
    requires After(s, now, r) != s
    ensures e.kind != Message && After(s, now, r).outbox == Emit(s.outbox, e)
  {
    match r
    case PostToChannel(sender, raw, text) => e := BroadcastEvent(Text.Normalize(raw), sender, text, now);
    case CreateTopic(id, topic, creator, raw) => e := CreatedEvent(id,
        Topic(topic, Text.Normalize(raw), creator, Active, now, [], {}));
    case Archive(id, actor) => e := ArchivedEvent(s.topics[id].channel, id, actor);
    case Unarchive(id, actor) => e := UnarchivedEvent(s.topics[id].channel, id, actor);
  }

  lemma SameInbox(s: BrokerState, s': BrokerState, c: nat, id: string, self: Option<string>)
    requires c in s.outbox && c in s'.outbox && s'.outbox[c] == s.outbox[c] && id in s.topics && id in s'.topics
    requires s'.topics[id].channel == s.topics[id].channel && s'.topics[id].messages == s.topics[id].messages
    ensures InboxFollowsLog(s, s', c, id, self)
  {
    assert s'.outbox[c][|s.outbox[c]|..] == [];
    assert s'.topics[id].messages[|s.topics[id].messages|..] == [];
  }

  lemma OtherInboxes(s: BrokerState, now: int, r: Request, c: nat, id: string, self: Option<string>)
    requires r != Disconnect(c) && c in s.outbox && id in s.topics
    requires r.Connect? || r.Disconnect? || r.JoinChannel? || r.LeaveChannel? || r.JoinTopic? || r.LeaveTopic?
             || r.Register? || r.Unregister?
    ensures InboxFollowsLog(s, After(s, now, r), c, id, self)
  {
    SameInbox(s, After(s, now, r), c, id, self);
  }

  lemma RequestFeedsInbox(s: BrokerState, now: int, r: Request, c: nat, id: string, self: Option<string>)
    requires Ordinary(s, r) && r != Disconnect(c) && c in s.outbox && id in s.topics
    ensures InboxFollowsLog(s, After(s, now, r), c, id, self)
  {
    var s' := After(s, now, r);
    RequestEvolvesTopics(s, now, r);
    assert Evolved(id, s.topics[id], s'.topics[id], now, r);
    if s' == s {
      NothingNew(s, s', c, id, self);
    } else if r.PostMessage? {
      OneEvent(s, s', MessageEvent(s.topics[r.id].channel, r.id, r.sender, r.text, now), c, id, self);
    } else if r.PostToChannel? || r.CreateTopic? || r.Archive? || r.Unarchive? {
      var e := OtherEvent(s, now, r);
      OneEvent(s, s', e, c, id, self);
    } else {
      OtherInboxes(s, now, r, c, id, self);
    }
  }

  lemma NewTopicsAreNormal(s: BrokerState, now: int, r: Request)
    requires r.CreateTopic? && r.id !in s.topics && r.id in After(s, now, r).topics
    ensures NormalName(After(s, now, r).topics[r.id].channel)
  {
    Text.NormalizeIdempotent(r.channel);
  }

  lemma OldEventsStay(s: BrokerState, now: int, r: Request, c: nat, k: nat)
    requires c in s.outbox && c in After(s, now, r).outbox && k < |s.outbox[c]|
    ensures k < |After(s, now, r).outbox[c]| && After(s, now, r).outbox[c][k] == s.outbox[c][k]
  {
  }

  /** The event a request writes to every client, if any. */
  function Written(s: BrokerState, now: int, r: Request): Option<LocalEvent> {
    match r
    case PostMessage(id, sender, text) =>
      if id in s.topics then Some(MessageEvent(s.topics[id].channel, id, sender, text, now)) else None
    case PostToChannel(sender, raw, text) => Some(BroadcastEvent(Text.Normalize(raw), sender, text, now))
    case CreateTopic(id, topic, creator, raw) =>
      Some(CreatedEvent(id, Topic(topic, Text.Normalize(raw), creator, Active, now, [], {})))
    case Archive(id, actor) => if id in s.topics then Some(ArchivedEvent(s.topics[id].channel, id, actor)) else None
    case Unarchive(id, actor) => if id in s.topics then Some(UnarchivedEvent(s.topics[id].channel, id, actor)) else None
    case _ => None
  }

  lemma NewEventIsWritten(s: BrokerState, now: int, r: Request, c: nat, k: nat)
    requires !r.Inject? && c in After(s, now, r).outbox && k < |After(s, now, r).outbox[c]|
    requires c in s.outbox ==> k >= |s.outbox[c]|
    ensures Written(s, now, r) == Some(After(s, now, r).outbox[c][k])
  {
  }

  lemma NewEventsAreGenuine(s: BrokerState, now: int, r: Request, c: nat, k: nat)
    requires Ordinary(s, r) && Honest(s)
    requires c in After(s, now, r).outbox && k < |After(s, now, r).outbox[c]|
    requires c in s.outbox ==> k >= |s.outbox[c]|
    ensures Genuine(After(s, now, r).topics, After(s, now, r).outbox[c][k])
  {
    NewEventIsWritten(s, now, r, c, k);
    if r.PostMessage? {
      RequestEvolvesTopics(s, now, r);
      assert Evolved(r.id, s.topics[r.id], After(s, now, r).topics[r.id], now, r);
    }
  }

  lemma RequestStaysHonest(s: BrokerState, now: int, r: Request)
    requires Honest(s) && Ordinary(s, r)
    ensures Honest(After(s, now, r))
  {
    var s' := After(s, now, r);
    RequestEvolvesTopics(s, now, r);
    forall id | id in s'.topics ensures id != "" && NormalName(s'.topics[id].channel) {
      if id in s.topics {
        assert Evolved(id, s.topics[id], s'.topics[id], now, r);
      } else {
        assert Fresh(s, id, s'.topics[id], now, r);
        NewTopicsAreNormal(s, now, r);
      }
    }
    forall c, k | c in s'.outbox && 0 <= k < |s'.outbox[c]|
      ensures Genuine(s'.topics, s'.outbox[c][k])
    {
      var e := s'.outbox[c][k];
      if c in s.outbox && k < |s.outbox[c]| {
        OldEventsStay(s, now, r, c, k);
        assert Genuine(s.topics, e);
        if e.kind == Message {
          assert Evolved(e.topicId.value, s.topics[e.topicId.value], s'.topics[e.topicId.value], now, r);
        }
      } else {
        NewEventsAreGenuine(s, now, r, c, k);
      }
    }
  }

  predicate OrdinaryRun(run: BrokerModel.Run) {
    run.Later? ==> OrdinaryRun(run.before) && Ordinary(run.before.State(), run.request)
  }

  /** Every state a broker reaches without injected events is honest. */
  lemma {:induction false} OrdinaryRunsAreHonest(run: BrokerModel.Run)
    requires Origin(run) == EMPTY && OrdinaryRun(run)
    ensures Honest(run.State())
  {
    if run.Start? {
    } else {
      OrdinaryRunsAreHonest(run.before);
      RequestStaysHonest(run.before.State(), run.now, run.request);
    }
  }

  // ---------------------------------------------------------------- a stretch of listening

  lemma DueSnoc(events: seq<LocalEvent>, e: LocalEvent, id: string, self: Option<string>)
    ensures Due(events + [e], id, self) == Due(events, id, self) + DueOne(e, id, self)
  {
    assert (events + [e])[..|events|] == events;
  }

  lemma {:induction false} DueConcat(a: seq<LocalEvent>, b: seq<LocalEvent>, id: string, self: Option<string>)
    ensures Due(a + b, id, self) == Due(a, id, self) + Due(b, id, self)
  {
    if b == [] {
      assert a + b == a;
    } else {
      var front, e := b[..|b| - 1], b[|b| - 1];
      assert b == front + [e] && a + b == a + front + [e];
      DueConcat(a, front, id, self);
      DueSnoc(a + front, e, id, self);
      DueSnoc(front, e, id, self);
      Regroup(Due(a, id, self), Due(front, id, self), DueOne(e, id, self));
    }
  }

  lemma {:induction false} ExpectedConcat(a: seq<HistoryPaging.HistoryEntry>, b: seq<HistoryPaging.HistoryEntry>,
                                          channel: string, id: string, self: Option<string>)
    ensures Expected(a + b, channel, id, self) == Expected(a, channel, id, self) + Expected(b, channel, id, self)
  {
    if b == [] {
      assert a + b == a;
    } else {
      assert (a + b)[..|a + b| - 1] == a + b[..|b| - 1];
      ExpectedConcat(a, b[..|b| - 1], channel, id, self);
    }
  }

  /** What is due for one stored message: itself, unless it is the session's own. */
  lemma ExpectedOne(m: HistoryPaging.HistoryEntry, channel: string, id: string, self: Option<string>)
    ensures Expected([m], channel, id, self)
         == if m.sender != ""
             && self == Some(m.sender) then [] else [Push(Message, m.sender, m.text, m.ts, channel, Some(id))]
  {
    assert [m][..0] == [];
  }

  /** The listener is connected, subscribed to the topic's channel and joined to the topic. */
  predicate Listening(s: System, id: string) {
    && s.me in s.broker.outbox
    && s.handled <= |s.broker.outbox[s.me]|
    && id in s.broker.topics
    && ChannelSubscribed(s.ctx, s.broker.topics[id].channel)
    && Follows(s.ctx, Some(id))
  }

  /** A step that injects no event, does not disconnect the listener and does not rename the session. */
  predicate Quiet(s: System, step: Step) {
    && !step.Introduce?
    && (step.Ask? ==> Ordinary(s.broker, step.request) && step.request != Disconnect(s.me))
  }

  datatype Stretch = Begin(start: System) | Then(before: Stretch, step: Step) {
    function End(): System {
      if Begin? then start else Next(before.End(), step)
    }

    function Origin(): System {
      if Begin? then start else before.Origin()
    }

    /** Listening all the time, from an honest state on. */
    ghost predicate ListensTo(id: string) {
      && Listening(End(), id)
      && if Begin? then Honest(start.broker) else before.ListensTo(id) && Quiet(before.End(), step)
    }
  }

  /** Handed on already, or on its way. */
  function Accounted(s: System, id: string): seq<Push> {
    OfTopic(s.pushed, id) + Due(s.Pending(), id, s.self)
  }

  /** Everything handed on plus everything still on its way is what was there at the beginning plus what others posted
      since, in stored order. */
  ghost predicate Balanced(from: System, to: System, id: string) {
    && id in from.broker.topics && id in to.broker.topics
    && from.self == to.self
    && from.broker.topics[id].channel == to.broker.topics[id].channel
    && from.broker.topics[id].messages <= to.broker.topics[id].messages
    && Accounted(to, id)
       == Accounted(from, id)
          + Expected(to.broker.topics[id].messages[|from.broker.topics[id].messages|..], to.broker.topics[id].channel,
              id, to.self)
  }

  lemma InboxBalances(s: System, s': System, id: string)
    requires s.me in s.broker.outbox && s.handled <= |s.broker.outbox[s.me]| && id in s.broker.topics
    requires InboxFollowsLog(s.broker, s'.broker, s.me, id, s.self)
    requires s' == s.(broker := s'.broker)
    ensures Balanced(s, s', id)
  {
    var was, grown := s.broker.outbox[s.me], s'.broker.outbox[s.me];
    assert grown[s.handled..] == was[s.handled..] + grown[|was|..];
    DueConcat(was[s.handled..], grown[|was|..], id, s.self);
    Regroup(OfTopic(s.pushed, id), Due(was[s.handled..], id, s.self), Due(grown[|was|..], id, s.self));
  }

  lemma AskBalances(s: System, now: int, r: Request, id: string)
    requires Listening(s, id) && Quiet(s, Ask(now, r)) && s.me in After(s.broker, now, r).outbox
    ensures Balanced(s, Next(s, Ask(now, r)), id)
  {
    RequestFeedsInbox(s.broker, now, r, s.me, id, s.self);
    InboxBalances(s, Next(s, Ask(now, r)), id);
  }

  lemma SameLogBalances(s: System, s': System, id: string)
    requires id in s.broker.topics && s'.broker == s.broker && s'.self == s.self
    requires Accounted(s', id) == Accounted(s, id)
    ensures Balanced(s, s', id)
  {
  }

  lemma DueAlone(e: LocalEvent, id: string, self: Option<string>)
    ensures Due([e], id, self) == DueOne(e, id, self)
  {
    assert [e][..0] == [];
  }

  lemma DueFirst(events: seq<LocalEvent>, id: string, self: Option<string>)
    requires events != []
    ensures Due(events, id, self) == DueOne(events[0], id, self) + Due(events[1..], id, self)
  {
    assert events == [events[0]] + events[1..];
    DueConcat([events[0]], events[1..], id, self);
    DueAlone(events[0], id, self);
  }

  lemma TakeOne(
    pending: seq<LocalEvent>, rest: seq<LocalEvent>, pushed: seq<Push>, pushed': seq<Push>, id: string,
        self: Option<string>)
    requires pending != [] && rest == pending[1..]
    requires OfTopic(pushed', id) == OfTopic(pushed, id) + DueOne(pending[0], id, self)
    ensures OfTopic(pushed', id) + Due(rest, id, self) == OfTopic(pushed, id) + Due(pending, id, self)
  {
    DueFirst(pending, id, self);
    Regroup(OfTopic(pushed, id), DueOne(pending[0], id, self), Due(rest, id, self));
  }

  /** A message event of the topic from someone else is handed on as it was stored; nothing else is handed on as a
      message of the topic. */
  lemma HandOn(s: System, e: LocalEvent, now: int, id: string)
    requires Honest(s.broker) && Listening(s, id) && Genuine(s.broker.topics, e)
    ensures var p := Filter(s.ctx, s.self, e, now);
            OfTopic(s.pushed + (if e.source == "local" && p.Some? then [p.value] else []), id)
            == OfTopic(s.pushed, id) + DueOne(e, id, s.self)
  {
    var p := Filter(s.ctx, s.self, e, now);
    if e.source == "local" && p.Some? {
      assert (s.pushed + [p.value])[..|s.pushed|] == s.pushed;
    } else {
      assert s.pushed + [] == s.pushed;
    }
  }

  lemma DeliverBalances(s: System, now: int, id: string)
    requires Honest(s.broker) && Listening(s, id)
    ensures Balanced(s, Next(s, Deliver(now)), id)
  {
    var s' := Next(s, Deliver(now));
    if s.Pending() != [] {
      var e := s.Pending()[0];
      assert Genuine(s.broker.topics, s.broker.outbox[s.me][s.handled]);
      HandOn(s, e, now, id);
      TakeOne(s.Pending(), s'.Pending(), s.pushed, s'.pushed, id, s.self);
    }
    SameLogBalances(s, s', id);
  }

  lemma BalanceAddsUp(a: System, b: System, c: System, id: string)
    requires Balanced(a, b, id) && Balanced(b, c, id)
    ensures Balanced(a, c, id)
  {
    var la, lb, lc := a.broker.topics[id].messages, b.broker.topics[id].messages, c.broker.topics[id].messages;
    assert lc[|la|..] == lb[|la|..] + lc[|lb|..];
    var channel := c.broker.topics[id].channel;
    ExpectedConcat(lb[|la|..], lc[|lb|..], channel, id, c.self);
    Regroup(Accounted(a, id), Expected(lb[|la|..], channel, id, c.self), Expected(lc[|lb|..], channel, id, c.self));
  }

  /** While a listener stays connected, subscribed and joined to a topic, and nothing is injected, what it hands to the
      bus for the topic is exactly what others post there, in the order stored. */
  lemma {:induction false} ExactDelivery(run: Stretch, id: string)
    requires run.ListensTo(id)
    ensures Honest(run.End().broker)
    ensures Balanced(run.Origin(), run.End(), id)
  {
    if run.Begin? {
      SameLogBalances(run.start, run.start, id);
    } else {
      var s := run.before.End();
      ExactDelivery(run.before, id);
      match run.step {
        case Ask(now, r) =>
          RequestStaysHonest(s.broker, now, r);
          AskBalances(s, now, r, id);
        case Deliver(now) =>
          DeliverBalances(s, now, id);
        case Operate(op) =>
          SameLogBalances(s, run.End(), id);
      }
      BalanceAddsUp(run.Origin(), s, run.End(), id);
    }
  }

  lemma NothingOnItsWay(s: System, id: string)
    requires s.Pending() == []
    ensures Accounted(s, id) == OfTopic(s.pushed, id)
  {
  }

  /** From one moment at which the listener has caught up to another, it hands on exactly the messages posted
      between. */
  lemma CaughtUp(run: Stretch, id: string)
    requires run.ListensTo(id)
    requires run.Origin().Pending() == [] && run.End().Pending() == []
    ensures id in run.Origin().broker.topics
            && |run.Origin().broker.topics[id].messages| <= |run.End().broker.topics[id].messages|
    ensures OfTopic(run.End().pushed, id)
            == OfTopic(run.Origin().pushed, id)
               + Expected(run.End().broker.topics[id].messages[|run.Origin().broker.topics[id].messages|..],
                          run.End().broker.topics[id].channel, id, run.End().self)
  {
    ExactDelivery(run, id);
    NothingOnItsWay(run.Origin(), id);
    NothingOnItsWay(run.End(), id);
  }

  // ---------------------------------------------------------------- over the wire

  function Rendered(events: seq<LocalEvent>, render: LocalEvent -> string): seq<string> {
    seq(|events|, i requires 0 <= i < |events| => render(events[i]))
  }

  function Parsed(payloads: seq<string>, parse: string -> LocalEvent): seq<LocalEvent> {
    seq(|payloads|, i requires 0 <= i < |payloads| => parse(payloads[i]))
  }

  /** Handling events one by one from the inbox is what the byte stream does: for any JSON codec that reads back what it
      writes and writes no raw newline, and any cuts between characters, the first `n` characters of the stream yield
      the first events of the inbox, in order, and the whole stream yields them all. */
  lemma StreamYieldsInbox(inbox: seq<LocalEvent>, render: LocalEvent -> string, parse: string -> LocalEvent,
                          chunks: seq<seq<Utf8.byte>>, n: nat)
    requires forall e :: parse(render(e)) == e && EventStream.SingleLine(render(e))
    requires n <= |EventStream.Frames(Rendered(inbox, render))|
    requires ChunkedDelivery.AllWhole(chunks)
    requires Flatten(chunks) == Utf8.Encode(EventStream.Frames(Rendered(inbox, render))[..n])
    ensures var got := Parsed(EventStream.Delivered(EventStream.Received(chunks)), parse);
            got == inbox[..EventStream.Arrived(Rendered(inbox, render), n)]
    ensures n == |EventStream.Frames(Rendered(inbox, render))| ==>
              EventStream.Arrived(Rendered(inbox, render), n) == |inbox|
  {
    var payloads := Rendered(inbox, render);
    assert EventStream.AllSingleLine(payloads);
    ChunkedDelivery.PartialDelivery(chunks, payloads, n);
    EventStream.AllArrived(payloads);
  }
}
