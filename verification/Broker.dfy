/** The broker itself (`broker.ts`): its maps, changed in place by the handlers, each proved to do what BrokerModel
    says. */
module Broker {
  import opened Common
  import opened BrokerModel
  import BrokerHistory
  import Text
  import HistoryPaging

  lemma DepartNothing(s: BrokerState, name: string)
    requires name in s.sessions
    ensures Departed(s, name, {}) == s
  {
    var s' := Departed(s, name, {});
    assert s.sessions[name].channels - {} == s.sessions[name].channels;
    assert s'.sessions == s.sessions;
    assert s'.channels == s.channels;
    assert s'.topics == s.topics;
  }

  lemma MembersOneMore(channels: map<string, set<string>>, left: set<string>, ch: string, name: string)
    ensures MembersWithout(MembersWithout(channels, left, name), {ch}, name)
              == MembersWithout(channels, left + {ch}, name)
  {
    var one, both := MembersWithout(MembersWithout(channels, left, name), {ch}, name),
        MembersWithout(channels, left + {ch}, name);
    assert forall k | k in one :: k in both && one[k] == both[k];
    assert forall k | k in both :: k in one;
  }

  lemma TopicsOneMore(topics: map<string, Topic>, left: set<string>, ch: string, name: string)
    ensures TopicsWithout(TopicsWithout(topics, left, name), {ch}, name) == TopicsWithout(topics, left + {ch}, name)
  {
    forall id | id in topics
      ensures TopicsWithout(TopicsWithout(topics, left, name), {ch}, name)[id]
                == TopicsWithout(topics, left + {ch}, name)[id]
    {
      assert topics[id].joined - {name} - {name} == topics[id].joined - {name};
    }
  }

  /** Leaving channels one after the other is leaving them together. */
  lemma DepartOneMore(s: BrokerState, name: string, left: set<string>, ch: string)
    requires name in s.sessions
    ensures Departed(Departed(s, name, left), name, {ch}) == Departed(s, name, left + {ch})
  {
    MembersOneMore(s.channels, left, ch, name);
    TopicsOneMore(s.topics, left, ch, name);
    assert s.sessions[name].channels - left - {ch} == s.sessions[name].channels - (left + {ch});
  }

  class Broker {
    var topics: map<string, Topic>
    var sessions: map<string, Session>
    var channels: map<string, set<string>>
    var outbox: map<nat, seq<LocalEvent>>

    function State(): BrokerState
      reads this
    {
      BrokerState(topics, sessions, channels, outbox)
    }

    constructor ()
      ensures State() == EMPTY
    {
      topics, sessions, channels, outbox := map[], map[], map[], map[];
    }

    method EnsureSession(name: string, now: int)
      modifies this`sessions
      ensures sessions == WithSession(old(sessions), name, now)
    {
      if name !in sessions {
        sessions := sessions[name := Session(None, now, {})];
      }
    }

    method JoinChannel(name: string, channel: string, now: int) returns (added: bool)
      modifies this`sessions, this`channels
      ensures State() == Joined(old(State()), name, channel, now)
      ensures added <==> !old(Subscribed(State(), name, channel))
    {
      EnsureSession(name, now);
      var already := channel in sessions[name].channels;
      sessions := sessions[name := sessions[name].(channels := sessions[name].channels + {channel})];
      if channel !in channels {
        channels := channels[channel := {}];
      }
      channels := channels[channel := channels[channel] + {name}];
      return !already;
    }

    method LeaveChannel(name: string, channel: string) returns (removed: bool)
      modifies this`sessions, this`channels, this`topics
      ensures State() == Departed(old(State()), name, {channel})
      ensures removed <==> old(Subscribed(State(), name, channel))
    {
      if name !in sessions {
        return false;
      }
      removed := channel in sessions[name].channels;
      sessions := sessions[name := sessions[name].(channels := sessions[name].channels - {channel})];
      if channel in channels {
        channels := channels[channel := channels[channel] - {name}];
        if channels[channel] == {} {
          channels := channels - {channel};
        }
      }
      assert channels == MembersWithout(old(channels), {channel}, name);
      DropFromTopics(name, channel);
    }

    /** The part of leaving a channel that leaves its topics. */
    method DropFromTopics(name: string, channel: string)
      modifies this`topics
      ensures topics == TopicsWithout(old(topics), {channel}, name)
    {
      var todo := topics.Keys;
      while todo != {}
        invariant todo <= topics.Keys == old(topics).Keys
        invariant forall id | id in topics ::
                    topics[id] == (if id in todo then old(topics)[id]
                        else TopicsWithout(old(topics), {channel}, name)[id])
        decreases |todo|
      {
        var id :| id in todo;
        if topics[id].channel == channel {
          topics := topics[id := topics[id].(joined := topics[id].joined - {name})];
        }
        todo := todo - {id};
      }
      assert topics == TopicsWithout(old(topics), {channel}, name);
    }

    method RemoveSessionFromAllChannels(name: string)
      modifies this`sessions, this`channels, this`topics
      ensures State() == if name in old(sessions) then Departed(old(State()), name, old(sessions)[name].channels)
                else old(State())
    {
      if name !in sessions {
        return;
      }
      ghost var left: set<string> := {};
      var todo := sessions[name].channels;
      DepartNothing(State(), name);
      while todo != {}
        invariant todo + left == old(sessions)[name].channels
        invariant State() == Departed(old(State()), name, left)
        decreases |todo|
      {
        var ch :| ch in todo;
        DepartOneMore(old(State()), name, left, ch);
        var _ := LeaveChannel(name, ch);
        left, todo := left + {ch}, todo - {ch};
      }
    }

    /** `broadcast`: the event is written to every connected client. */
    method Broadcast(e: LocalEvent)
      modifies this`outbox
      ensures outbox == Emit(old(outbox), e) && BrokerHistory.AllTold(old(outbox), outbox, e)
    {
      var todo := outbox.Keys;
      while todo != {}
        invariant todo <= outbox.Keys == old(outbox).Keys
        invariant forall c | c in outbox :: outbox[c] == old(outbox)[c] + if c in todo then [] else [e]
        decreases |todo|
      {
        var c :| c in todo;
        outbox := outbox[c := outbox[c] + [e]];
        todo := todo - {c};
      }
      assert outbox == Emit(old(outbox), e);
    }

    // ---------------------------------------------------------------- handlers

    method HandlePostToChannel(sender: string, raw: string, text: string, now: int) returns (reply: Response)
      modifies this
      ensures State() == After(old(State()), now, PostToChannel(sender, raw, text))
      ensures reply == Done <==>
                && text != "" && sender != "" && Text.Normalize(raw) != ""
                && old(Subscribed(State(), sender, Text.Normalize(raw)))
      ensures reply != Done ==> reply == BadRequest && State() == old(State())
      ensures reply == Done ==>
                && topics == old(topics) && sessions == old(sessions) && channels == old(channels)
                && BrokerHistory.AllTold(old(outbox), outbox,
                    LocalEvent("local", EventType.Broadcast, Some(Text.Normalize(raw)), None, None, Some(sender),
                               Some(text), None, None, Some(now)))
    {
      var channel := Text.Normalize(raw);
      if text == "" || sender == "" || channel == "" {
        return BadRequest;
      }
      if sender !in sessions || channel !in sessions[sender].channels {
        return BadRequest;
      }
      Broadcast(BroadcastEvent(channel, sender, text, now));
      return Done;
    }

    method HandleCreateTopic(id: string, topic: string, creator: string, raw: string, now: int)
      returns (reply: Response)
      modifies this
      ensures State() == After(old(State()), now, CreateTopic(id, topic, creator, raw))
      ensures reply.Conflict? ==>
                old(Clashes(topics, reply.existing, topic, Text.Normalize(raw))) && State() == old(State())
      ensures reply == Done ==>
                !exists other | other in old(topics) :: old(Clashes(topics, other, topic, Text.Normalize(raw)))
      ensures reply == BadRequest <==>
              topic == "" || creator == "" || Text.Normalize(raw) == ""
                  || !old(Subscribed(State(), creator, Text.Normalize(raw)))
      ensures reply == Done || reply == BadRequest || reply.Conflict?
      ensures reply == Done ==>
                && topics == old(topics)[id := Topic(topic, Text.Normalize(raw), creator, Active, now, [], {})]
                && sessions == old(sessions) && channels == old(channels)
                && BrokerHistory.AllTold(old(outbox), outbox,
                    LocalEvent("local", TopicCreated, Some(Text.Normalize(raw)), None,
                               Some(TopicInfo(id, topic, Some(Text.Normalize(raw)), creator, Some(now))), None, None,
                               None, None, None))
    {
      var channel := Text.Normalize(raw);
      if topic == "" || creator == "" || channel == "" {
        return BadRequest;
      }
      if creator !in sessions || channel !in sessions[creator].channels {
        return BadRequest;
      }
      var todo := topics.Keys;
      while todo != {}
        invariant todo <= topics.Keys
        invariant State() == old(State())
        invariant forall other | other in topics && other !in todo :: !Clashes(topics, other, topic, channel)
        decreases |todo|
      {
        var other :| other in todo;
        if Clashes(topics, other, topic, channel) {
          return Conflict(other);
        }
        todo := todo - {other};
      }
      var t := Topic(topic, channel, creator, Active, now, [], {});
      topics := topics[id := t];
      Broadcast(CreatedEvent(id, t));
      return Done;
    }

    method HandlePostMessage(id: string, sender: string, text: string, now: int) returns (reply: Response)
      modifies this
      ensures State() == After(old(State()), now, PostMessage(id, sender, text))
      ensures reply == NotFound <==> id !in old(topics)
      ensures reply == Done <==>
                && id in old(topics) && text != "" && sender != ""
                && old(Subscribed(State(), sender, topics[id].channel))
      ensures reply == BadRequest <==> id in old(topics) && (text == "" || sender == "")
      ensures !reply.Conflict? && (reply != Done ==> State() == old(State()))
      ensures reply == Done ==>
                && id in topics && sessions == old(sessions) && channels == old(channels)
                && topics[id].messages == old(topics)[id].messages + [HistoryPaging.HistoryEntry(sender, text, now)]
                && topics == old(topics)[id := old(topics)[id].(messages := topics[id].messages)]
                && BrokerHistory.AllTold(old(outbox), outbox,
                    LocalEvent("local", Message, Some(old(topics)[id].channel), Some(id), None, Some(sender),
                               Some(text), None, None, Some(now)))
    {
      if id !in topics {
        return NotFound;
      }
      if text == "" || sender == "" {
        return BadRequest;
      }
      var t := topics[id];
      if sender !in sessions || t.channel !in sessions[sender].channels {
        return Forbidden;
      }
      topics := topics[id := t.(messages := t.messages + [HistoryPaging.HistoryEntry(sender, text, now)])];
      Broadcast(MessageEvent(t.channel, id, sender, text, now));
      return Done;
    }

    method HandleJoinTopic(id: string, name: string, now: int) returns (reply: Response)
      modifies this`topics
      ensures State() == After(old(State()), now, JoinTopic(id, name))
      ensures reply == NotFound <==> id !in old(topics)
      ensures reply == Done <==> id in old(topics) && name != "" && old(Subscribed(State(), name, topics[id].channel))
      ensures reply == BadRequest <==> id in old(topics) && name == ""
      ensures !reply.Conflict? && (reply != Done ==> topics == old(topics))
      ensures reply == Done ==>
                id in topics && topics == old(topics)[id := topics[id]]
                && topics[id] == old(topics)[id].(joined := old(topics)[id].joined + {name})
    {
      if id !in topics {
        return NotFound;
      }
      if name == "" {
        return BadRequest;
      }
      if name !in sessions || topics[id].channel !in sessions[name].channels {
        return Forbidden;
      }
      topics := topics[id := topics[id].(joined := topics[id].joined + {name})];
      return Done;
    }

    method HandleLeaveTopic(id: string, name: string, now: int) returns (reply: Response)
      modifies this`topics
      ensures State() == After(old(State()), now, LeaveTopic(id, name))
      ensures reply == if id in old(topics) then Done else NotFound
      ensures id in old(topics) ==>
                && id in topics && topics == old(topics)[id := topics[id]]
                && topics[id] == old(topics)[id].(joined :=
                     old(topics)[id].joined - if name == "" then {} else {name})
    {
      if id !in topics {
        return NotFound;
      }
      if name != "" {
        topics := topics[id := topics[id].(joined := topics[id].joined - {name})];
      }
      return Done;
    }

    method HandleSetState(id: string, state: TopicState, actor: Option<string>) returns (reply: Response)
      modifies this
      ensures State() == StateSet(old(State()), id, state, actor)
      ensures reply == if id in old(topics) then Done else NotFound
      ensures id in old(topics) ==>
                && id in topics && sessions == old(sessions) && channels == old(channels)
                && topics == old(topics)[id := old(topics)[id].(state := state)]
                && var who := Some(actor.GetOr("unknown"));
                   BrokerHistory.AllTold(old(outbox), outbox,
                       if state == Archived then
                         LocalEvent("local", TopicArchived, Some(old(topics)[id].channel), Some(id), None, None, None,
                                    who, None, None)
                       else
                         LocalEvent("local", TopicUnarchived, Some(old(topics)[id].channel), Some(id), None, None, None,
                                    None, who, None))
    {
      if id !in topics {
        return NotFound;
      }
      var channel := topics[id].channel;
      topics := topics[id := topics[id].(state := state)];
      if state == Archived {
        Broadcast(ArchivedEvent(channel, id, actor));
      } else {
        Broadcast(UnarchivedEvent(channel, id, actor));
      }
      return Done;
    }

    method HandleRegister(name: string, objective: Option<string>, now: int) returns (reply: Response)
      modifies this`sessions
      ensures State() == After(old(State()), now, Register(name, objective))
      ensures reply == if name != "" then Done else BadRequest
      ensures reply == Done ==>
                && name in sessions && sessions == old(sessions)[name := sessions[name]]
                && (if name in old(sessions)
                    then && sessions[name].registeredAt == old(sessions)[name].registeredAt
                         && sessions[name].channels == old(sessions)[name].channels
                    else sessions[name] == Session(objective, now, {}))
                && (objective.Some? ==> sessions[name].objective == objective)
                && (objective.None? && name in old(sessions) ==>
                      sessions[name].objective == old(sessions)[name].objective)
    {
      if name == "" {
        return BadRequest;
      }
      if name in sessions {
        var existing := sessions[name];
        sessions := sessions[name := existing.(objective := if objective.Some? then objective else existing.objective)];
      } else {
        sessions := sessions[name := Session(objective, now, {})];
      }
      return Done;
    }

    method HandleUnregister(name: string, now: int)
      modifies this
      ensures State() == After(old(State()), now, Unregister(name))
      ensures sessions == old(sessions) - {name} && outbox == old(outbox)
    {
      RemoveSessionFromAllChannels(name);
      sessions := sessions - {name};
    }

    /** One request, whichever it is. */
    method Handle(now: int, r: Request) returns (reply: Response)
      modifies this
      ensures State() == After(old(State()), now, r)
      ensures r.JoinChannel? || r.LeaveChannel? ==>
                reply == if r.session == "" || Text.Normalize(r.channel) == "" then BadRequest else Done
    {
      reply := Done;
      match r
      case Connect(c) =>
        if c !in outbox {
          outbox := outbox[c := []];
        }
      case Disconnect(c) =>
        outbox := outbox - {c};
      case Inject(e) =>
        Broadcast(e);
      case JoinChannel(name, raw) =>
        if name == "" || Text.Normalize(raw) == "" {
          return BadRequest;
        }
        var _ := JoinChannel(name, Text.Normalize(raw), now);
      case LeaveChannel(name, raw) =>
        if name == "" || Text.Normalize(raw) == "" {
          return BadRequest;
        }
        var _ := LeaveChannel(name, Text.Normalize(raw));
      case PostToChannel(sender, raw, text) =>
        reply := HandlePostToChannel(sender, raw, text, now);
      case CreateTopic(id, topic, creator, raw) =>
        reply := HandleCreateTopic(id, topic, creator, raw, now);
      case PostMessage(id, sender, text) =>
        reply := HandlePostMessage(id, sender, text, now);
      case JoinTopic(id, name) =>
        reply := HandleJoinTopic(id, name, now);
      case LeaveTopic(id, name) =>
        reply := HandleLeaveTopic(id, name, now);
      case Archive(id, actor) =>
        reply := HandleSetState(id, Archived, actor);
      case Unarchive(id, actor) =>
        reply := HandleSetState(id, Active, actor);
      case Register(name, objective) =>
        reply := HandleRegister(name, objective, now);
      case Unregister(name) =>
        HandleUnregister(name, now);
    }

    /** GET of a topic's messages: a malformed or absent cursor means the newest page. */
    method ReadHistory(id: string, limit: HistoryPaging.QueryNumber, before: HistoryPaging.QueryNumber)
      returns (page: Option<HistoryPaging.HistoryPage>)
      ensures page.None? <==> id !in topics
      ensures page.Some? ==>
                HistoryPaging.IsPage(HistoryPaging.Older(topics[id].messages, HistoryPaging.Cursor(before)),
                                     HistoryPaging.ClampHistoryLimit(limit), page.value)
      ensures page.Some? && !before.Finite? ==> HistoryPaging.IsNewest(topics[id].messages, page.value)
      ensures page.Some? && HistoryPaging.Sorted(topics[id].messages) ==>
                HistoryPaging.IsNewestBefore(topics[id].messages, HistoryPaging.Cursor(before), page.value)
    {
      if id !in topics {
        return None;
      }
      var p := HistoryPaging.PageTopicHistory(topics[id].messages, HistoryPaging.ClampHistoryLimit(limit),
          HistoryPaging.Cursor(before));
      return Some(p);
    }
  }
}
