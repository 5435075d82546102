/** From the broker's log to the user: broker, bytes on the wire, decoder, event filter and duplicate filter put
    together. */
module EndToEnd {
  import opened Common
  import opened BrokerModel
  import opened Listener
  import opened Utf8
  import Context
  import EventStream
  import ChunkedDelivery
  import DedupCache

  // ---------------------------------------------------------------- the listener on bytes

  /** `chunks` is what has arrived on the listener's connection. */
  datatype Wire = Wire(broker: BrokerState, me: nat, chunks: seq<seq<byte>>, ctx: Context.State, self: Option<string>,
      pushed: seq<Push>)

  datatype WireStep =
    | Asked(now: int, request: Request)
    | Arrive(now: int, chunk: seq<byte>)
    | Operated(op: Context.Op)
    | Introduced(name: string)

  /** Any rendering of events as text without a raw newline that reads back. */
  ghost predicate ReadsBack(render: LocalEvent -> string, parse: string -> LocalEvent) {
    forall e :: parse(render(e)) == e && EventStream.SingleLine(render(e))
  }

  /** The events read from the chunks. */
  function Events(chunks: seq<seq<byte>>, parse: string -> LocalEvent): seq<LocalEvent> {
    Parsed(EventStream.Delivered(EventStream.Received(chunks)), parse)
  }

  /** The events a chunk completes, decoded behind the text the decoder has kept. */
  function Completed(chunks: seq<seq<byte>>, chunk: seq<byte>, parse: string -> LocalEvent): seq<LocalEvent> {
    Parsed(EventStream.Delivered(EventStream.Split(EventStream.Received(chunks)).pending + Decode(chunk)), parse)
  }

  function PushesOf(ctx: Context.State, self: Option<string>, events: seq<LocalEvent>, now: int): seq<Push> {
    if events == [] then []
    else
      var front, e := PushesOf(ctx, self, events[..|events| - 1], now), events[|events| - 1];
      var p := Filter(ctx, self, e, now);
      front + if e.source == "local" && p.Some? then [p.value] else []
  }

  function InboxOf(broker: BrokerState, me: nat): seq<LocalEvent> {
    if me in broker.outbox then broker.outbox[me] else []
  }

  /** Everything the broker has written to the connection. */
  function Sent(inbox: seq<LocalEvent>, render: LocalEvent -> string): seq<byte> {
    Encode(EventStream.Frames(Rendered(inbox, render)))
  }

  function NextWire(w: Wire, step: WireStep, parse: string -> LocalEvent): Wire {
    match step
    case Asked(now, r) =>
      var w' := w.(broker := After(w.broker, now, r));
      if w.me in w.broker.outbox && w.me in w'.broker.outbox then w' else w'.(chunks := [])
    case Arrive(now, chunk) =>
      w.(chunks := w.chunks + [chunk],
      pushed := w.pushed + PushesOf(w.ctx, w.self, Completed(w.chunks, chunk, parse), now))
    case Operated(op) => w.(ctx := Context.After(w.ctx, op))
    case Introduced(name) => w.(self := Some(name))
  }

  /** The same moment seen as events handled one by one. */
  function Abs(w: Wire, parse: string -> LocalEvent): System {
    System(w.broker, w.me, |Events(w.chunks, parse)|, w.ctx, w.self, w.pushed)
  }

  /** What has arrived is the beginning of what was written, cut between characters. */
  ghost predicate InStep(w: Wire, render: LocalEvent -> string) {
    && w.me in w.broker.outbox
    && ChunkedDelivery.AllWhole(w.chunks)
    && Flatten(w.chunks) <= Sent(InboxOf(w.broker, w.me), render)
  }

  /** All of it has arrived. */
  ghost predicate AllRead(w: Wire, render: LocalEvent -> string) {
    Flatten(w.chunks) == Sent(InboxOf(w.broker, w.me), render)
  }

  /** Subscribed to the topic's channel and joined to the topic. */
  predicate Tuned(w: Wire, id: string) {
    && id in w.broker.topics
    && ChannelSubscribed(w.ctx, w.broker.topics[id].channel)
    && Follows(w.ctx, Some(id))
  }

  /** Nothing is injected, the listener stays connected under its name, and the network delivers in order and cuts
      between characters. */
  ghost predicate Fair(w: Wire, step: WireStep, render: LocalEvent -> string) {
    match step
    case Asked(_, r) => Ordinary(w.broker, r) && r != Disconnect(w.me)
    case Arrive(_, chunk) =>
      && ChunkedDelivery.WholeCharacters(chunk)
      && Flatten(w.chunks + [chunk]) <= Sent(InboxOf(w.broker, w.me), render)
    case Operated(_) => true
    case Introduced(_) => false
  }

  datatype WireRun = Opened(start: Wire) | Further(before: WireRun, step: WireStep) {
    function End(parse: string -> LocalEvent): Wire {
      if Opened? then start else NextWire(before.End(parse), step, parse)
    }

    function Origin(): Wire {
      if Opened? then start else before.Origin()
    }

    ghost predicate ListensTo(id: string, render: LocalEvent -> string, parse: string -> LocalEvent) {
      && Tuned(End(parse), id)
      && if Opened? then Honest(start.broker) && InStep(start, render)
         else before.ListensTo(id, render, parse) && Fair(before.End(parse), step, render)
    }
  }

  // ---------------------------------------------------------------- bytes read as events

  lemma {:induction false} WholeChunksEncode(chunks: seq<seq<byte>>)
    requires ChunkedDelivery.AllWhole(chunks)
    ensures Encode(EventStream.Received(chunks)) == Flatten(chunks)
  {
    if chunks == [] {
    } else {
      assert ChunkedDelivery.WholeCharacters(chunks[0]);
      WholeChunksEncode(chunks[1..]);
      EncodeConcat(Decode(chunks[0]), EventStream.Received(chunks[1..]));
    }
  }

  lemma DecodeWhole(s: string)
    ensures Decode(Encode(s)) == s
  {
    DecodeEncode(s, []);
    assert Encode(s) + [] == Encode(s);
  }

  lemma EncodedPrefix(a: string, b: string)
    requires Encode(a) <= Encode(b)
    ensures a <= b
  {
    var rest := Encode(b)[|Encode(a)|..];
    assert Encode(b) == Encode(a) + rest;
    DecodeEncode(a, rest);
    DecodeWhole(b);
  }

  /** What has been read is the beginning of what was written; all of it once everything has arrived. */
  lemma ChunksReadInbox(inbox: seq<LocalEvent>, chunks: seq<seq<byte>>, render: LocalEvent -> string,
                        parse: string -> LocalEvent)
    requires ReadsBack(render, parse) && ChunkedDelivery.AllWhole(chunks) && Flatten(chunks) <= Sent(inbox, render)
    ensures Events(chunks, parse) <= inbox
    ensures Flatten(chunks) == Sent(inbox, render) ==> Events(chunks, parse) == inbox
  {
    var text, whole := EventStream.Received(chunks), EventStream.Frames(Rendered(inbox, render));
    WholeChunksEncode(chunks);
    EncodedPrefix(text, whole);
    assert whole[..|text|] == text;
    StreamYieldsInbox(inbox, render, parse, chunks, |text|);
    if Flatten(chunks) == Sent(inbox, render) {
      EncodedPrefix(whole, text);
    }
  }

  lemma ParsedConcat(a: seq<string>, b: seq<string>, parse: string -> LocalEvent)
    ensures Parsed(a + b, parse) == Parsed(a, parse) + Parsed(b, parse)
  {
  }

  /** A chunk adds exactly the events it completes. */
  lemma EventsGrow(chunks: seq<seq<byte>>, chunk: seq<byte>, parse: string -> LocalEvent)
    ensures Events(chunks + [chunk], parse) == Events(chunks, parse) + Completed(chunks, chunk, parse)
  {
    var text := EventStream.Received(chunks);
    ChunkedDelivery.ChunkAdds(chunks, chunk);
    EventStream.DeliveredConcat(text, Decode(chunk));
    ParsedConcat(EventStream.Delivered(text),
        EventStream.Delivered(EventStream.Split(text).pending + Decode(chunk)), parse);
  }

  lemma {:induction false} FramesGrow(a: seq<string>, b: seq<string>)
    ensures EventStream.Frames(a + b) == EventStream.Frames(a) + EventStream.Frames(b)
  {
    if b == [] {
      assert a + b == a;
    } else {
      assert (a + b)[..|a + b| - 1] == a + b[..|b| - 1];
      FramesGrow(a, b[..|b| - 1]);
    }
  }

  lemma SentGrows(inbox: seq<LocalEvent>, more: seq<LocalEvent>, render: LocalEvent -> string)
    requires inbox <= more
    ensures Sent(inbox, render) <= Sent(more, render)
  {
    var rest := more[|inbox|..];
    assert Rendered(more, render) == Rendered(inbox, render) + Rendered(rest, render);
    FramesGrow(Rendered(inbox, render), Rendered(rest, render));
    EncodeConcat(EventStream.Frames(Rendered(inbox, render)), EventStream.Frames(Rendered(rest, render)));
  }

  // ---------------------------------------------------------------- refinement

  /** Handling several waiting events at one moment. */
  lemma {:induction false} DeliverAll(run: Stretch, id: string, events: seq<LocalEvent>, now: int)
    returns (longer: Stretch)
    requires run.ListensTo(id) && events <= run.End().Pending()
    ensures longer.ListensTo(id) && longer.Origin() == run.Origin()
    ensures var s := run.End();
            longer.End() == s.(handled := s.handled + |events|,
                               pushed := s.pushed + PushesOf(s.ctx, s.self, events, now))
  {
    if events == [] {
      longer := run;
    } else {
      var s, n := run.End(), |events| - 1;
      var front := DeliverAll(run, id, events[..n], now);
      var mid := front.End();
      assert mid.Pending()[0] == s.Pending()[n] == events[n];
      longer := Then(front, Deliver(now));
      var before, all := PushesOf(s.ctx, s.self, events[..n], now), PushesOf(s.ctx, s.self, events, now);
      Regroup(s.pushed, before, all[|before|..]);
    }
  }

  lemma RequestKeepsPace(w: Wire, now: int, r: Request, id: string, render: LocalEvent -> string,
                         parse: string -> LocalEvent)
    requires Tuned(w, id) && InStep(w, render) && Fair(w, Asked(now, r), render)
    ensures InStep(NextWire(w, Asked(now, r), parse), render)
    ensures Next(Abs(w, parse), Ask(now, r)) == Abs(NextWire(w, Asked(now, r), parse), parse)
    ensures InboxOf(w.broker, w.me) <= InboxOf(After(w.broker, now, r), w.me)
  {
    var w' := NextWire(w, Asked(now, r), parse);
    RequestFeedsInbox(w.broker, now, r, w.me, id, w.self);
    SentGrows(InboxOf(w.broker, w.me), InboxOf(w'.broker, w'.me), render);
  }

  /** The events a chunk completes are the next ones waiting. */
  lemma ArrivalIsNext(inbox: seq<LocalEvent>, chunks: seq<seq<byte>>, chunk: seq<byte>, render: LocalEvent -> string,
                      parse: string -> LocalEvent)
    requires ReadsBack(render, parse) && ChunkedDelivery.AllWhole(chunks) && Flatten(chunks) <= Sent(inbox, render)
    requires ChunkedDelivery.AllWhole(chunks + [chunk]) && Flatten(chunks + [chunk]) <= Sent(inbox, render)
    ensures var seen, added := |Events(chunks, parse)|, Completed(chunks, chunk, parse);
            && |Events(chunks + [chunk], parse)| == seen + |added|
            && seen <= |inbox| && added <= inbox[seen..]
  {
    ChunksReadInbox(inbox, chunks, render, parse);
    ChunksReadInbox(inbox, chunks + [chunk], render, parse);
    EventsGrow(chunks, chunk, parse);
  }

  lemma OneMore(before: Stretch, step: Step, s: System, s': System, id: string) returns (longer: Stretch)
    requires before.ListensTo(id) && before.End() == s && Quiet(s, step) && Next(s, step) == s' && Listening(s', id)
    ensures longer.ListensTo(id) && longer.Origin() == before.Origin() && longer.End() == s'
  {
    longer := Then(before, step);
  }

  lemma AskedIsAsk(before: Stretch, w: Wire, now: int, r: Request, id: string, render: LocalEvent -> string,
                   parse: string -> LocalEvent)
    returns (events: Stretch)
    requires before.ListensTo(id) && before.End() == Abs(w, parse) && InStep(w, render) && Tuned(w, id)
    requires Fair(w, Asked(now, r), render) && Tuned(NextWire(w, Asked(now, r), parse), id)
    ensures events.ListensTo(id) && events.Origin() == before.Origin()
    ensures events.End() == Abs(NextWire(w, Asked(now, r), parse), parse)
    ensures InStep(NextWire(w, Asked(now, r), parse), render)
  {
    RequestKeepsPace(w, now, r, id, render, parse);
    events := OneMore(before, Ask(now, r), Abs(w, parse), Abs(NextWire(w, Asked(now, r), parse), parse), id);
  }

  lemma ArrivalIsDelivery(before: Stretch, w: Wire, now: int, chunk: seq<byte>, id: string,
                          render: LocalEvent -> string, parse: string -> LocalEvent)
    returns (events: Stretch)
    requires before.ListensTo(id) && before.End() == Abs(w, parse) && InStep(w, render)
    requires ReadsBack(render, parse) && Fair(w, Arrive(now, chunk), render)
    ensures events.ListensTo(id) && events.Origin() == before.Origin()
    ensures events.End() == Abs(NextWire(w, Arrive(now, chunk), parse), parse)
    ensures InStep(NextWire(w, Arrive(now, chunk), parse), render)
  {
    ChunkedDelivery.WholeAdds(w.chunks, chunk);
    ArrivalIsNext(InboxOf(w.broker, w.me), w.chunks, chunk, render, parse);
    events := DeliverAll(before, id, Completed(w.chunks, chunk, parse), now);
  }

  /** The listener on bytes refines the listener on events: each run of the one is a run of the other, a chunk being the
      handling of the events it completes. */
  lemma {:induction false} BytesRefineEvents(run: WireRun, id: string, render: LocalEvent -> string,
                                             parse: string -> LocalEvent)
    returns (events: Stretch)
    requires ReadsBack(render, parse) && run.ListensTo(id, render, parse)
    ensures events.ListensTo(id)
    ensures events.Origin() == Abs(run.Origin(), parse) && events.End() == Abs(run.End(parse), parse)
    ensures InStep(run.Origin(), render) && InStep(run.End(parse), render)
  {
    if run.Opened? {
      ChunksReadInbox(InboxOf(run.start.broker, run.start.me), run.start.chunks, render, parse);
      events := Begin(Abs(run.start, parse));
    } else {
      var w := run.before.End(parse);
      events := BytesRefineEvents(run.before, id, render, parse);
      match run.step
      case Asked(now, r) =>
        events := AskedIsAsk(events, w, now, r, id, render, parse);
      case Arrive(now, chunk) =>
        events := ArrivalIsDelivery(events, w, now, chunk, id, render, parse);
      case Operated(op) =>
        events := OneMore(events, Operate(op), Abs(w, parse), Abs(run.End(parse), parse), id);
    }
  }

  lemma NothingWaits(w: Wire, render: LocalEvent -> string, parse: string -> LocalEvent)
    requires ReadsBack(render, parse) && InStep(w, render) && AllRead(w, render)
    ensures Abs(w, parse).Pending() == []
  {
    ChunksReadInbox(InboxOf(w.broker, w.me), w.chunks, render, parse);
  }

  /** A listener in step can always be brought up to date by one more chunk. */
  lemma RestCanArrive(w: Wire, now: int, render: LocalEvent -> string, parse: string -> LocalEvent)
    returns (chunk: seq<byte>)
    requires ReadsBack(render, parse) && InStep(w, render)
    ensures Fair(w, Arrive(now, chunk), render) && AllRead(NextWire(w, Arrive(now, chunk), parse), render)
    ensures Abs(NextWire(w, Arrive(now, chunk), parse), parse).Pending() == []
  {
    var inbox := InboxOf(w.broker, w.me);
    var text, whole := EventStream.Received(w.chunks), EventStream.Frames(Rendered(inbox, render));
    WholeChunksEncode(w.chunks);
    EncodedPrefix(text, whole);
    chunk := Encode(whole[|text|..]);
    assert whole == text + whole[|text|..];
    EncodeConcat(text, whole[|text|..]);
    ChunkedDelivery.EncodeWhole(whole[|text|..]);
    ChunkedDelivery.ChunkAdds(w.chunks, chunk);
    ChunkedDelivery.WholeAdds(w.chunks, chunk);
    NothingWaits(NextWire(w, Arrive(now, chunk), parse), render, parse);
  }

  /** `got` holds, for the topic, what had been handed on at first and then what others have posted since. */
  ghost predicate Delivers(from: Wire, to: Wire, id: string, got: seq<Push>) {
    && id in from.broker.topics && id in to.broker.topics
    && |from.broker.topics[id].messages| <= |to.broker.topics[id].messages|
    && OfTopic(got, id)
       == OfTopic(from.pushed, id)
          + Expected(to.broker.topics[id].messages[|from.broker.topics[id].messages|..], to.broker.topics[id].channel,
              id, to.self)
  }

  /** What the listener hands on for a topic, from one moment at which all bytes written have arrived to another: the
      messages posted by others in between, in stored order. */
  lemma BytesDeliver(run: WireRun, id: string, render: LocalEvent -> string, parse: string -> LocalEvent)
    requires ReadsBack(render, parse) && run.ListensTo(id, render, parse)
    requires AllRead(run.Origin(), render) && AllRead(run.End(parse), render)
    ensures Delivers(run.Origin(), run.End(parse), id, run.End(parse).pushed)
  {
    var events := BytesRefineEvents(run, id, render, parse);
    NothingWaits(run.Origin(), render, parse);
    NothingWaits(run.End(parse), render, parse);
    CaughtUp(events, id);
  }

  // ---------------------------------------------------------------- through the duplicate filter

  /** Something pushed to the bus, and when. */
  datatype Arriving = Arriving(push: Push, now: int)

  function AsMessage(p: Push, iso: int -> string): DedupCache.Message {
    DedupCache.Message(p.sender, p.channel, p.threadTs, iso(p.ts), Some(p.ts), p.text)
  }

  function Keyed(a: Arriving, iso: int -> string): DedupCache.Arrival {
    DedupCache.Arrival(DedupCache.DedupKey(AsMessage(a.push, iso)), a.now)
  }

  function AllKeyed(arriving: seq<Arriving>, iso: int -> string): seq<DedupCache.Arrival> {
    seq(|arriving|, i requires 0 <= i < |arriving| => Keyed(arriving[i], iso))
  }

  function Pushes(arriving: seq<Arriving>): seq<Push> {
    seq(|arriving|, i requires 0 <= i < |arriving| => arriving[i].push)
  }

  /** What the bus passes on to the user. */
  function Notified(arriving: seq<Arriving>, iso: int -> string): seq<Push> {
    if arriving == [] then []
    else
      var front, last := arriving[..|arriving| - 1], arriving[|arriving| - 1];
      Notified(front, iso)
      + if DedupCache.Accepts(AllKeyed(front, iso), Keyed(last, iso)) then [last.push] else []
  }

  function PlaceOf(p: Push): string {
    p.threadTs.GetOr(p.channel)
  }

  /** The same sender says the same at the same place in the same second. */
  predicate Twins(p: Push, q: Push) {
    p.sender == q.sender && PlaceOf(p) == PlaceOf(q) && p.ts / 1000 == q.ts / 1000 && p.text == q.text
  }

  predicate PlainNames(p: Push) {
    '|' !in p.sender && '|' !in PlaceOf(p)
  }

  predicate IsOfTopic(p: Push, id: string) {
    p.kind == Message && p.threadTs == Some(id)
  }

  /** No message of the topic repeats anything pushed before it. */
  predicate NoRepeats(arriving: seq<Arriving>, id: string) {
    && (forall i | 0 <= i < |arriving| :: PlainNames(arriving[i].push))
    && (forall i, j | 0 <= i < j < |arriving| ::
          IsOfTopic(arriving[j].push, id) ==> !Twins(arriving[i].push, arriving[j].push))
  }

  lemma TwinsShareKey(p: Push, q: Push, iso: int -> string)
    requires PlainNames(p) && PlainNames(q)
    ensures DedupCache.DedupKey(AsMessage(p, iso)) == DedupCache.DedupKey(AsMessage(q, iso)) <==> Twins(p, q)
  {
    DedupCache.KeyIsSameSecond(AsMessage(p, iso), AsMessage(q, iso));
  }

  lemma NoTwinPasses(front: seq<Arriving>, last: Arriving, id: string, iso: int -> string)
    requires NoRepeats(front + [last], id) && IsOfTopic(last.push, id)
    ensures DedupCache.Accepts(AllKeyed(front, iso), Keyed(last, iso))
  {
    var all := front + [last];
    forall i | 0 <= i < |front| ensures AllKeyed(front, iso)[i].key != Keyed(last, iso).key {
      assert all[i] == front[i] && all[|front|] == last;
      assert PlainNames(all[i].push) && PlainNames(all[|front|].push);
      TwinsShareKey(front[i].push, last.push, iso);
    }
    DedupCache.NewKeyPasses(AllKeyed(front, iso), Keyed(last, iso));
  }

  lemma OfTopicSnoc(pushed: seq<Push>, p: Push, id: string)
    ensures OfTopic(pushed + [p], id) == OfTopic(pushed, id) + if IsOfTopic(p, id) then [p] else []
  {
    assert (pushed + [p])[..|pushed|] == pushed;
  }

  lemma NoRepeatsBefore(arriving: seq<Arriving>, id: string)
    requires NoRepeats(arriving, id) && arriving != []
    ensures NoRepeats(arriving[..|arriving| - 1], id)
  {
  }

  lemma PushesSnoc(front: seq<Arriving>, last: Arriving)
    ensures Pushes(front + [last]) == Pushes(front) + [last.push]
  {
  }

  lemma OnePassed(got: seq<Push>, all: seq<Push>, p: Push, passes: bool, id: string)
    requires OfTopic(got, id) == OfTopic(all, id) && (IsOfTopic(p, id) ==> passes)
    ensures OfTopic(got + if passes then [p] else [], id) == OfTopic(all + [p], id)
  {
    OfTopicSnoc(got, p, id);
    OfTopicSnoc(all, p, id);
    assert got + [] == got;
  }

  /** Whatever else is pushed in between, wherever it comes from and whatever the clock does: messages of a topic that
      repeat nothing all reach the user, in order. */
  lemma {:induction false} TopicGetsThrough(arriving: seq<Arriving>, id: string, iso: int -> string)
    requires NoRepeats(arriving, id)
    ensures OfTopic(Notified(arriving, iso), id) == OfTopic(Pushes(arriving), id)
  {
    if arriving == [] {
    } else {
      var front, last := arriving[..|arriving| - 1], arriving[|arriving| - 1];
      NoRepeatsBefore(arriving, id);
      TopicGetsThrough(front, id, iso);
      assert arriving == front + [last];
      PushesSnoc(front, last);
      var passes := DedupCache.Accepts(AllKeyed(front, iso), Keyed(last, iso));
      if IsOfTopic(last.push, id) {
        NoTwinPasses(front, last, id, iso);
      }
      OnePassed(Notified(front, iso), Pushes(front), last.push, passes, id);
    }
  }

  /** From the topic's log to the user, over bytes and through the duplicate filter: once all bytes written have
      arrived, the user has been told of exactly the messages others posted, in stored order. */
  lemma EveryMessageIsTold(run: WireRun, arriving: seq<Arriving>, id: string, render: LocalEvent -> string,
                           parse: string -> LocalEvent, iso: int -> string)
    requires ReadsBack(render, parse) && run.ListensTo(id, render, parse)
    requires AllRead(run.Origin(), render) && AllRead(run.End(parse), render)
    requires OfTopic(Pushes(arriving), id) == OfTopic(run.End(parse).pushed, id) && NoRepeats(arriving, id)
    ensures Delivers(run.Origin(), run.End(parse), id, Notified(arriving, iso))
  {
    BytesDeliver(run, id, render, parse);
    TopicGetsThrough(arriving, id, iso);
  }
}
