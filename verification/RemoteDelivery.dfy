/** Topic subscriptions of the remote transport (`transport/remote.ts`): the bounded id set, the delivery of rows from
    overlapping batches, and the cursor that survives resubscribing. */
module RemoteDelivery {
  import opened Common

  const DEDUP_CAPACITY: nat := 10_000

  datatype Row = Row(id: string, from: string, text: string, ts: int)

  predicate NoDuplicates<T(==)>(s: seq<T>) {
    forall i, j | 0 <= i < j < |s| :: s[i] != s[j]
  }

  lemma NewestLast<T>(added: seq<T>, x: T, n: nat)
    ensures var all := LastN(added, n) + [x];
            LastN(added + [x], n) == if |all| <= n then all else all[1..]
  {
  }

  lemma OldestLeaves(order: seq<string>)
    requires order != [] && NoDuplicates(order)
    ensures (set x | x in order) - {order[0]} == set x | x in order[1..]
  {
  }

  /** A FIFO set of at most `capacity` ids. `added` is everything it ever took in, oldest first. */
  class BoundedIdSet {
    const capacity: nat
    var ids: set<string>
    var order: seq<string>
    ghost var added: seq<string>

    ghost predicate Valid()
      reads this
    {
      && order == LastN(added, capacity)
      && NoDuplicates(order)
      && ids == set id | id in order
    }

    constructor (capacity: nat)
      ensures Valid() && this.capacity == capacity && added == []
    {
      this.capacity, ids, order, added := capacity, {}, [], [];
    }

    predicate Has(id: string)
      reads this
    {
      id in ids
    }

    /** An id already held is not taken in again; otherwise it joins, and the oldest leave until the bound holds. */
    method Add(id: string)
      requires Valid()
      modifies this
      ensures Valid()
      ensures added == if old(Has(id)) then old(added) else old(added) + [id]
    {
      if id in ids {
        return;
      }
      ids := ids + {id};
      order := order + [id];
      added := added + [id];
      ghost var all := order;
      NewestLast(old(added), id, capacity);
      assert NoDuplicates(all);
      while |order| > capacity
        invariant order == all || (|all| == capacity + 1 && order == all[1..])
        invariant ids == set x | x in order
        invariant added == old(added) + [id]
        decreases |order|
      {
        OldestLeaves(order);
        var evicted := order[0];
        order := order[1..];
        ids := ids - {evicted};
      }
    }
  }

  // ---------------------------------------------------------------- the set as a value

  /** The ids held after offering `offered` one by one to an empty set. */
  function Taken(offered: seq<string>, capacity: nat): seq<string> {
    if offered == [] then []
    else
      var before := Taken(offered[..|offered| - 1], capacity);
      var id := offered[|offered| - 1];
      if id in LastN(before, capacity) then before else before + [id]
  }

  /** First occurrences, in order. */
  function Firsts(offered: seq<string>): seq<string> {
    if offered == [] then []
    else
      var before := Firsts(offered[..|offered| - 1]);
      var id := offered[|offered| - 1];
      if id in before then before else before + [id]
  }

  /** While no more distinct ids than the capacity have been offered, the set forgets nothing: it takes in exactly the
      first occurrences. */
  lemma {:induction false} NothingForgotten(offered: seq<string>, capacity: nat)
    requires |Firsts(offered)| <= capacity
    ensures Taken(offered, capacity) == Firsts(offered)
  {
    if offered == [] {
    } else {
      NothingForgotten(offered[..|offered| - 1], capacity);
    }
  }

  lemma {:induction false} FirstsAreDistinct(offered: seq<string>)
    ensures NoDuplicates(Firsts(offered))
    ensures forall id :: id in Firsts(offered) <==> id in offered
  {
    if offered == [] {
    } else {
      var before, id := offered[..|offered| - 1], offered[|offered| - 1];
      FirstsAreDistinct(before);
      assert offered == before + [id];
    }
  }

  // ---------------------------------------------------------------- one topic's cursor and subscription

  /** The highest timestamp primed or seen, as the source's map entry: absent until something positive came. */
  function Raised(cursor: Option<int>, ts: int): Option<int> {
    if ts > cursor.GetOr(0) then Some(ts) else cursor
  }

  /** What a subscription has done: the topic's cursor, the ids taken in, the rows handed on. */
  datatype Feed = Feed(cursor: Option<int>, added: seq<string>, delivered: seq<Row>)

  function FedRow(f: Feed, row: Row, own: Option<string>, capacity: nat): Feed {
    if row.id in LastN(f.added, capacity) then f
    else Feed(Raised(f.cursor, row.ts), f.added + [row.id],
              if Some(row.from) == own then f.delivered else f.delivered + [row])
  }

  function FedBatch(f: Feed, rows: seq<Row>, own: Option<string>, capacity: nat): Feed {
    if rows == [] then f
    else FedRow(FedBatch(f, rows[..|rows| - 1], own, capacity), rows[|rows| - 1], own, capacity)
  }

  lemma FedNext(f: Feed, rows: seq<Row>, i: nat, own: Option<string>, capacity: nat)
    requires i < |rows|
    ensures FedBatch(f, rows[..i + 1], own, capacity)
              == FedRow(FedBatch(f, rows[..i], own, capacity), rows[i], own, capacity)
  {
    assert rows[..i + 1][..i] == rows[..i];
  }

  class TopicFeed {
    var cursor: Option<int>
    var seen: BoundedIdSet
    const ownSession: Option<string>
    var delivered: seq<Row>

    ghost predicate Valid()
      reads this, seen
    {
      seen.Valid() && seen.capacity == DEDUP_CAPACITY
    }

    constructor (ownSession: Option<string>)
      ensures Valid() && fresh(seen) && cursor == None && delivered == [] && seen.added == []
      ensures this.ownSession == ownSession
    {
      cursor, delivered := None, [];
      this.ownSession := ownSession;
      seen := new BoundedIdSet(DEDUP_CAPACITY);
    }

    method PrimeTopicCursor(ts: int)
      modifies this`cursor
      ensures cursor == Raised(old(cursor), ts)
    {
      var prior := cursor.GetOr(0);
      if ts > prior {
        cursor := Some(ts);
      }
    }

    /** Subscribing starts from the cursor the topic has, with nothing seen. */
    method Subscribe() returns (since: Option<int>)
      modifies this`seen
      ensures Valid() && fresh(seen)
      ensures since == cursor && Abs() == old(Abs()).(added := [])
    {
      since := cursor;
      seen := new BoundedIdSet(DEDUP_CAPACITY);
    }

    ghost function Abs(): Feed
      reads this, seen
    {
      Feed(cursor, seen.added, delivered)
    }

    /** One `onUpdate` batch. */
    method OnUpdate(rows: seq<Row>)
      requires Valid()
      modifies this`cursor, this`delivered, seen
      ensures Valid()
      ensures Abs() == FedBatch(old(Abs()), rows, ownSession, DEDUP_CAPACITY)
    {
      ghost var before := Abs();
      for i := 0 to |rows|
        invariant Valid()
        invariant Abs() == FedBatch(before, rows[..i], ownSession, DEDUP_CAPACITY)
      {
        FedNext(before, rows, i, ownSession, DEDUP_CAPACITY);
        OnRow(rows[i]);
      }
      assert rows[..|rows|] == rows;
    }

    /** The body of that loop: the first sight of a row raises the cursor, and hands the row on unless it is our own. */
    method OnRow(row: Row)
      requires Valid()
      modifies this`cursor, this`delivered, seen
      ensures Valid()
      ensures Abs() == FedRow(old(Abs()), row, ownSession, DEDUP_CAPACITY)
    {
      if seen.Has(row.id) {
        return;
      }
      seen.Add(row.id);
      var prior := cursor.GetOr(0);
      if row.ts > prior {
        cursor := Some(row.ts);
      }
      if Some(row.from) == ownSession {
        return;
      }
      delivered := delivered + [row];
    }
  }

  function Ids(rows: seq<Row>): seq<string> {
    if rows == [] then [] else Ids(rows[..|rows| - 1]) + [rows[|rows| - 1].id]
  }

  /** The rows whose id comes for the first time, without the session's own. */
  function FirstRows(rows: seq<Row>, own: Option<string>): seq<Row> {
    if rows == [] then []
    else
      var before, row := rows[..|rows| - 1], rows[|rows| - 1];
      if row.id in Ids(before) || Some(row.from) == own then FirstRows(before, own) else FirstRows(before, own) + [row]
  }

  lemma {:induction false} FedConcat(f: Feed, a: seq<Row>, b: seq<Row>, own: Option<string>, capacity: nat)
    ensures FedBatch(f, a + b, own, capacity) == FedBatch(FedBatch(f, a, own, capacity), b, own, capacity)
  {
    if b == [] {
      assert a + b == a;
    } else {
      assert (a + b)[..|a + b| - 1] == a + b[..|b| - 1];
      FedConcat(f, a, b[..|b| - 1], own, capacity);
    }
  }

  /** However rows are batched and however batches overlap, with at most `capacity` distinct ids each row of another
      session is handed on exactly once, in first-seen order. */
  lemma {:induction false} EachRowOnce(cursor: Option<int>, rows: seq<Row>, own: Option<string>, capacity: nat)
    requires |Firsts(Ids(rows))| <= capacity
    ensures var f := FedBatch(Feed(cursor, [], []), rows, own, capacity);
            f.delivered == FirstRows(rows, own) && f.added == Firsts(Ids(rows))
  {
    if rows == [] {
    } else {
      var before, row := rows[..|rows| - 1], rows[|rows| - 1];
      assert Ids(rows)[..|Ids(rows)| - 1] == Ids(before);
      EachRowOnce(cursor, before, own, capacity);
      FirstsAreDistinct(Ids(before));
    }
  }

  /** However many ids come, what a subscription takes in is what the bounded set takes in. */
  lemma {:induction false} FeedTakesIn(cursor: Option<int>, rows: seq<Row>, own: Option<string>, capacity: nat)
    ensures FedBatch(Feed(cursor, [], []), rows, own, capacity).added == Taken(Ids(rows), capacity)
  {
    if rows == [] {
    } else {
      assert Ids(rows)[..|Ids(rows)| - 1] == Ids(rows[..|rows| - 1]);
      FeedTakesIn(cursor, rows[..|rows| - 1], own, capacity);
    }
  }

  /** A subscription's batches, one after another. */
  function FedAll(f: Feed, batches: seq<seq<Row>>, own: Option<string>, capacity: nat): Feed {
    if batches == [] then f
    else FedBatch(FedAll(f, batches[..|batches| - 1], own, capacity), batches[|batches| - 1], own, capacity)
  }

  lemma FlattenLast(batches: seq<seq<Row>>)
    requires batches != []
    ensures Flatten(batches) == Flatten(batches[..|batches| - 1]) + batches[|batches| - 1]
  {
    var last := batches[|batches| - 1];
    assert batches == batches[..|batches| - 1] + [last];
    FlattenConcat(batches[..|batches| - 1], [last]);
    assert [last][1..] == [] && Flatten([last]) == last + [];
  }

  lemma {:induction false} BatchesDoNotMatter(f: Feed, batches: seq<seq<Row>>, own: Option<string>, capacity: nat)
    ensures FedAll(f, batches, own, capacity) == FedBatch(f, Flatten(batches), own, capacity)
  {
    if batches == [] {
    } else {
      BatchesDoNotMatter(f, batches[..|batches| - 1], own, capacity);
      FlattenLast(batches);
      FedConcat(f, Flatten(batches[..|batches| - 1]), batches[|batches| - 1], own, capacity);
    }
  }

  lemma OverlappingBatches(cursor: Option<int>, batches: seq<seq<Row>>, own: Option<string>)
    requires |Firsts(Ids(Flatten(batches)))| <= DEDUP_CAPACITY
    ensures FedAll(Feed(cursor, [], []), batches, own, DEDUP_CAPACITY).delivered == FirstRows(Flatten(batches), own)
  {
    BatchesDoNotMatter(Feed(cursor, [], []), batches, own, DEDUP_CAPACITY);
    EachRowOnce(cursor, Flatten(batches), own, DEDUP_CAPACITY);
  }

  // ---------------------------------------------------------------- many subscriptions of one topic

  /** What happens to one topic's feed, row by row. */
  datatype Op = Prime(ts: int) | Subscribe | Update(row: Row) | Unsubscribe

  /** `marks` lists every timestamp primed or seen so far; `base` is how many there were when the present subscription
      started, with the cursor `since`. Each delivery remembers its subscription, that subscription's base and the place
      of its own timestamp among the marks. */
  datatype Delivery = Delivery(row: Row, session: nat, base: nat, mark: nat)

  datatype Topic = Topic(
    cursor: Option<int>, marks: seq<int>, subscribed: bool, session: nat, since: Option<int>, base: nat,
    added: seq<string>, out: seq<Delivery>)

  const NEW_TOPIC := Topic(None, [], false, 0, None, 0, [], [])

  /** A server that returns only rows strictly after `sinceTs`. */
  predicate ServerMayReturn(row: Row, since: Option<int>) {
    since.Some? ==> row.ts > since.value
  }

  predicate Possible(t: Topic, op: Op) {
    op.Update? ==> t.subscribed && ServerMayReturn(op.row, t.since)
  }

  function After(t: Topic, op: Op, own: Option<string>, capacity: nat): Topic {
    match op
    case Prime(ts) => t.(cursor := Raised(t.cursor, ts), marks := t.marks + [ts])
    case Subscribe => t.(subscribed := true, session := t.session + 1, since := t.cursor, base := |t.marks|,
        added := [])
    case Unsubscribe => t.(subscribed := false)
    case Update(row) =>
      if row.id in LastN(t.added, capacity) then t
      else
        var f := FedRow(Feed(t.cursor, t.added, []), row, own, capacity);
        t.(cursor := f.cursor, added := f.added, marks := t.marks + [row.ts],
        out := if f.delivered == [] then t.out else t.out + [Delivery(row, t.session, t.base, |t.marks|)])
  }

  /** The highest of the marks, and at least 0. */
  function HighWater(marks: seq<int>): (h: int)
    ensures h >= 0
    ensures forall k | 0 <= k < |marks| :: marks[k] <= h
    ensures h > 0 ==> h in marks
  {
    if marks == [] then 0
    else
      var h := HighWater(marks[..|marks| - 1]);
      if marks[|marks| - 1] > h then marks[|marks| - 1] else h
  }

  /** A delivery lies above everything positive primed or seen before its subscription. */
  ghost predicate AboveBase(marks: seq<int>, d: Delivery) {
    && d.base <= d.mark < |marks| && marks[d.mark] == d.row.ts
    && forall k | 0 <= k < d.base :: marks[k] > 0 ==> marks[k] < d.row.ts
  }

  /** Of two deliveries of different subscriptions, the earlier one's mark was there when the later one's began. */
  predicate Precedes(d: Delivery, e: Delivery) {
    d.session < e.session ==> d.mark < e.base
  }

  ghost predicate DeliveriesInOrder(t: Topic) {
    && (forall d | d in t.out ::
          && AboveBase(t.marks, d) && d.session <= t.session
          && (d.session < t.session ==> d.mark < t.base))
    && (forall d, e | d in t.out && e in t.out :: Precedes(d, e))
  }

  predicate Covers(since: Option<int>, marks: seq<int>) {
    since == if HighWater(marks) > 0 then Some(HighWater(marks)) else None
  }

  /** The present subscription's cursor covers every positive mark made before it. */
  ghost predicate BaseIsCovered(t: Topic) {
    && t.base <= |t.marks|
    && (t.subscribed ==> Covers(t.since, t.marks[..t.base]))
  }

  ghost predicate CursorInv(t: Topic) {
    Covers(t.cursor, t.marks) && BaseIsCovered(t) && DeliveriesInOrder(t)
  }

  lemma RaisedIsHighWater(cursor: Option<int>, marks: seq<int>, ts: int)
    requires Covers(cursor, marks)
    ensures Covers(Raised(cursor, ts), marks + [ts])
  {
  }

  lemma MarkKeepsOrder(t: Topic, ts: int)
    requires DeliveriesInOrder(t)
    ensures DeliveriesInOrder(t.(marks := t.marks + [ts]))
  {
  }

  lemma DeliverKeepsOrder(t: Topic, row: Row)
    requires DeliveriesInOrder(t) && BaseIsCovered(t) && t.subscribed && ServerMayReturn(row, t.since)
    ensures DeliveriesInOrder(t.(marks := t.marks + [row.ts],
              out := t.out + [Delivery(row, t.session, t.base, |t.marks|)]))
  {
    var last := Delivery(row, t.session, t.base, |t.marks|);
    MarkKeepsOrder(t, row.ts);
    assert AboveBase(t.marks + [row.ts], last) by {
      assert forall k | 0 <= k < t.base :: (t.marks + [row.ts])[k] == t.marks[..t.base][k];
    }
  }

  lemma PrimeKeepsCursor(t: Topic, ts: int)
    requires CursorInv(t)
    ensures CursorInv(t.(cursor := Raised(t.cursor, ts), marks := t.marks + [ts]))
  {
    RaisedIsHighWater(t.cursor, t.marks, ts);
    MarkKeepsOrder(t, ts);
    assert (t.marks + [ts])[..t.base] == t.marks[..t.base];
  }

  lemma DeliverKeepsCursor(t: Topic, row: Row)
    requires CursorInv(t) && t.subscribed && ServerMayReturn(row, t.since)
    ensures CursorInv(t.(cursor := Raised(t.cursor, row.ts), marks := t.marks + [row.ts],
                         out := t.out + [Delivery(row, t.session, t.base, |t.marks|)]))
  {
    RaisedIsHighWater(t.cursor, t.marks, row.ts);
    DeliverKeepsOrder(t, row);
    assert (t.marks + [row.ts])[..t.base] == t.marks[..t.base];
  }

  lemma SubscribeKeepsCursor(t: Topic, t': Topic)
    requires CursorInv(t)
    requires t' == t.(subscribed := true, session := t.session + 1, since := t.cursor, base := |t.marks|, added := [])
    ensures CursorInv(t')
  {
  }

  /** The parts of a topic the cursor depends on. */
  predicate SameCursor(t: Topic, t': Topic) {
    t' == t.(added := t'.added, subscribed := t'.subscribed) && (t'.subscribed ==> t.subscribed)
  }

  lemma SameCursorKeeps(t: Topic, t': Topic)
    requires CursorInv(t) && SameCursor(t, t')
    ensures CursorInv(t')
  {
  }

  lemma UpdateKeepsCursor(t: Topic, row: Row, own: Option<string>, capacity: nat)
    requires CursorInv(t) && t.subscribed && ServerMayReturn(row, t.since)
    ensures CursorInv(After(t, Update(row), own, capacity))
  {
    var t' := After(t, Update(row), own, capacity);
    if row.id in LastN(t.added, capacity) {
      assert t' == t;
    } else if Some(row.from) == own {
      var raised := t.(cursor := Raised(t.cursor, row.ts), marks := t.marks + [row.ts]);
      PrimeKeepsCursor(t, row.ts);
      assert t' == raised.(added := t'.added);
      SameCursorKeeps(raised, t');
    } else {
      var fed := t.(cursor := Raised(t.cursor, row.ts), marks := t.marks + [row.ts],
        out := t.out + [Delivery(row, t.session, t.base, |t.marks|)]);
      DeliverKeepsCursor(t, row);
      assert t' == fed.(added := t'.added);
      SameCursorKeeps(fed, t');
    }
  }

  lemma StepKeepsCursor(t: Topic, op: Op, own: Option<string>, capacity: nat)
    requires CursorInv(t) && Possible(t, op)
    ensures CursorInv(After(t, op, own, capacity))
  {
    match op
    case Prime(ts) => PrimeKeepsCursor(t, ts);
    case Subscribe => SubscribeKeepsCursor(t, After(t, op, own, capacity));
    case Unsubscribe => SameCursorKeeps(t, After(t, op, own, capacity));
    case Update(row) => UpdateKeepsCursor(t, row, own, capacity);
  }

  datatype Run = Start | Later(before: Run, op: Op) {
    function State(own: Option<string>, capacity: nat): Topic {
      if Start? then NEW_TOPIC else After(before.State(own, capacity), op, own, capacity)
    }

    predicate Valid(own: Option<string>, capacity: nat) {
      Later? ==> before.Valid(own, capacity) && Possible(before.State(own, capacity), op)
    }
  }

  lemma {:induction false} CursorOverRuns(run: Run, own: Option<string>, capacity: nat)
    requires run.Valid(own, capacity)
    ensures CursorInv(run.State(own, capacity))
  {
    if run.Start? {
    } else {
      CursorOverRuns(run.before, own, capacity);
      StepKeepsCursor(run.before.State(own, capacity), run.op, own, capacity);
    }
  }

  /** Across any primes, subscribes and unsubscribes, a row delivered in a later subscription is strictly newer than
      every row with a positive timestamp delivered in an earlier one, and than everything primed before; so none is
      repeated. */
  lemma NoneRepeated(run: Run, own: Option<string>, capacity: nat, i: nat, j: nat)
    requires run.Valid(own, capacity)
    requires i < |run.State(own, capacity).out| && j < |run.State(own, capacity).out|
    requires var out := run.State(own, capacity).out; out[i].session < out[j].session && out[i].row.ts > 0
    ensures var out := run.State(own, capacity).out; out[i].row.ts < out[j].row.ts
  {
    CursorOverRuns(run, own, capacity);
    var t := run.State(own, capacity);
    assert Precedes(t.out[i], t.out[j]);
    assert AboveBase(t.marks, t.out[i]) && AboveBase(t.marks, t.out[j]);
  }

  lemma PrimedIsCovered(run: Run, own: Option<string>, capacity: nat, j: nat, k: nat)
    requires run.Valid(own, capacity) && j < |run.State(own, capacity).out|
    requires var t := run.State(own, capacity); k < t.out[j].base && k < |t.marks| && t.marks[k] > 0
    ensures var t := run.State(own, capacity); t.marks[k] < t.out[j].row.ts
  {
    CursorOverRuns(run, own, capacity);
    var t := run.State(own, capacity);
    assert AboveBase(t.marks, t.out[j]);
  }

  /** Subscribing, receiving the row, unsubscribing, and the same again. */
  lemma DeliverTwice(row: Row) returns (run: Run)
    requires row.ts <= 0
    ensures run == Run.Later(Run.Later(Run.Later(Run.Later(Run.Later(Run.Start, Subscribe), Update(row)), Unsubscribe),
              Subscribe),
                             Update(row))
    ensures run.Valid(None, DEDUP_CAPACITY)
    ensures run.State(None, DEDUP_CAPACITY).out == [Delivery(row, 1, 0, 0), Delivery(row, 2, 1, 1)]
  {
    var r1 := Run.Later(Run.Start, Subscribe);
    var r2 := Run.Later(r1, Update(row));
    var r4 := Run.Later(Run.Later(r2, Unsubscribe), Subscribe);
    assert r1.State(None, DEDUP_CAPACITY) == NEW_TOPIC.(subscribed := true, session := 1);
    assert r2.State(None, DEDUP_CAPACITY)
        == NEW_TOPIC.(subscribed := true, session := 1, added := [row.id], marks := [row.ts],
            out := [Delivery(row, 1, 0, 0)]);
    assert r2.Valid(None, DEDUP_CAPACITY);
    assert Run.Later(r2, Unsubscribe).State(None, DEDUP_CAPACITY)
        == r2.State(None, DEDUP_CAPACITY).(subscribed := false);
    assert r4.State(None, DEDUP_CAPACITY) == Topic(None, [row.ts], true, 2, None, 1, [], [Delivery(row, 1, 0, 0)]);
    assert r4.Valid(None, DEDUP_CAPACITY);
    run := Run.Later(r4, Update(row));
  }

  /** Timestamps that are not positive never raise the cursor: such a row is delivered again. */
  lemma NonPositiveIsRepeated(row: Row)
    requires row.ts <= 0
    ensures var once := Run.Later(Run.Later(Run.Start, Subscribe), Update(row));
            var twice := Run.Later(Run.Later(Run.Later(once, Unsubscribe), Subscribe), Update(row));
            && twice.Valid(None, DEDUP_CAPACITY)
            && |twice.State(None, DEDUP_CAPACITY).out| == 2
            && twice.State(None, DEDUP_CAPACITY).out[0].row == row == twice.State(None, DEDUP_CAPACITY).out[1].row
  {
    var twice := DeliverTwice(row);
  }

  predicate IsRepeated(run: Run, row: Row, i: nat, j: nat) {
    && run.Valid(None, DEDUP_CAPACITY)
    && var out := run.State(None, DEDUP_CAPACITY).out;
       i < |out| && j < |out| && out[i].session < out[j].session && out[i].row == row == out[j].row
  }

  /** A row can be delivered again in a later subscription exactly when its timestamp is not positive. */
  lemma RepeatedExactly(row: Row)
    ensures (exists run, i, j :: IsRepeated(run, row, i, j)) <==> row.ts <= 0
  {
    if row.ts <= 0 {
      var run := DeliverTwice(row);
      assert IsRepeated(run, row, 0, 1);
    } else {
      forall run, i, j | IsRepeated(run, row, i, j) ensures false {
        NoneRepeated(run, None, DEDUP_CAPACITY, i, j);
      }
    }
  }

  // ---------------------------------------------------------------- what the cursor remembers

  /** The operation brings a timestamp. */
  predicate Brings(op: Op, ts: int) {
    op == Prime(ts) || (op.Update? && op.row.ts == ts)
  }

  predicate HasBrought(run: Run, ts: int) {
    run.Later? && (Brings(run.op, ts) || HasBrought(run.before, ts))
  }

  predicate HasPrimed(run: Run, ts: int) {
    run.Later? && (run.op == Prime(ts) || HasPrimed(run.before, ts))
  }

  lemma CursorNeverFalls(t: Topic, op: Op, own: Option<string>, capacity: nat)
    ensures t.cursor.GetOr(0) <= After(t, op, own, capacity).cursor.GetOr(0)
    ensures op.Prime? ==> op.ts <= After(t, op, own, capacity).cursor.GetOr(0)
    ensures op.Update? && op.row.id !in LastN(t.added, capacity) ==>
              op.row.ts <= After(t, op, own, capacity).cursor.GetOr(0)
  {
  }

  /** The cursor never falls behind a timestamp that was primed, and never runs ahead of what was primed or received. */
  lemma {:induction false} CursorIsHistory(run: Run, own: Option<string>, capacity: nat, ts: int)
    ensures HasPrimed(run, ts) ==> ts <= run.State(own, capacity).cursor.GetOr(0)
    ensures run.State(own, capacity).cursor == Some(ts) ==> HasBrought(run, ts)
  {
    if run.Start? {
    } else {
      CursorIsHistory(run.before, own, capacity, ts);
      CursorNeverFalls(run.before.State(own, capacity), run.op, own, capacity);
    }
  }

  /** Subscribing starts from the cursor, with nothing seen; a row not seen in this subscription is remembered, and
      handed on unless it is the session's own; one already seen changes nothing. */
  lemma OpAndTopic(t: Topic, op: Op, own: Option<string>, capacity: nat)
    ensures var t' := After(t, op, own, capacity);
            match op
            case Prime(_) => t'.out == t.out && t'.added == t.added && t'.subscribed == t.subscribed
            case Subscribe =>
              t'.subscribed && t'.since == t.cursor == t'.cursor && t'.added == [] && t'.session == t.session + 1
              && t'.out == t.out
            case Unsubscribe => t' == t.(subscribed := false)
            case Update(row) =>
              if row.id in LastN(t.added, capacity) then t' == t
              else
                && t'.added == t.added + [row.id] && t'.marks == t.marks + [row.ts]
                && |t'.out| == |t.out| + (if own == Some(row.from) then 0 else 1) && t.out <= t'.out
                && (own != Some(row.from) ==> t'.out[|t.out|].row == row && t'.out[|t.out|].session == t.session)
  {
  }
}
