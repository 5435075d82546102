/** The message bus's duplicate filter (`message-bus.ts`): the key that identifies a logical message and the cache of
    keys accepted lately, bounded in time and in size. */
module DedupCache {
  import opened Common
  import opened Text

  const DEDUP_WINDOW_MS := 10_000
  const MAX_DEDUP_ENTRIES: nat := 2048

  /** `parsed` is what parsing `ts` as a date gives, in milliseconds since the epoch; `None` when it is not a date. */
  datatype Message = Message(sender: string, channel: string, threadTs: Option<string>, ts: string,
      parsed: Option<int>, text: string)

  // ---------------------------------------------------------------- the key

  function Place(m: Message): string {
    m.threadTs.GetOr(m.channel)
  }

  function Bucket(m: Message): string {
    match m.parsed
    case None => m.ts
    case Some(ms) => Decimal(ms / 1000)
  }

  function DedupKey(m: Message): string {
    m.sender + "|" + Place(m) + "|" + Bucket(m) + "|" + m.text
  }

  lemma FirstBar(a: string, b: string)
    requires '|' !in a
    ensures var s := a + "|" + b;
            s[|a|] == '|' && (forall i | 0 <= i < |a| :: s[i] != '|') && s[..|a|] == a && s[|a| + 1..] == b
  {
  }

  lemma BarsSplit(a: string, b: string, c: string, d: string)
    requires '|' !in a && '|' !in c && a + "|" + b == c + "|" + d
    ensures a == c && b == d
  {
    FirstBar(a, b);
    FirstBar(c, d);
    assert |a| == |c|;
  }

  lemma RegroupParts(a: string, b: string, c: string, d: string)
    ensures a + "|" + b + "|" + c + "|" + d == a + "|" + (b + "|" + (c + "|" + d))
  {
  }

  predicate BarFree(m: Message) {
    '|' !in m.sender && '|' !in Place(m) && '|' !in Bucket(m)
  }

  /** Without bars in the first three parts, two keys are equal exactly when all four parts are. */
  lemma KeyIsTuple(m: Message, n: Message)
    requires BarFree(m) && BarFree(n)
    ensures DedupKey(m) == DedupKey(n)
       <==> m.sender == n.sender && Place(m) == Place(n) && Bucket(m) == Bucket(n) && m.text == n.text
  {
    if DedupKey(m) == DedupKey(n) {
      RegroupParts(m.sender, Place(m), Bucket(m), m.text);
      RegroupParts(n.sender, Place(n), Bucket(n), n.text);
      BarsSplit(m.sender, Place(m) + "|" + (Bucket(m) + "|" + m.text), n.sender,
          Place(n) + "|" + (Bucket(n) + "|" + n.text));
      BarsSplit(Place(m), Bucket(m) + "|" + m.text, Place(n), Bucket(n) + "|" + n.text);
      BarsSplit(Bucket(m), m.text, Bucket(n), n.text);
    }
  }

  /** For messages with a readable timestamp: the same sender, place, second and text. */
  lemma KeyIsSameSecond(m: Message, n: Message)
    requires m.parsed.Some? && n.parsed.Some?
    requires '|' !in m.sender && '|' !in n.sender && '|' !in Place(m) && '|' !in Place(n)
    ensures DedupKey(m) == DedupKey(n)
       <==> m.sender == n.sender && Place(m) == Place(n)
            && m.parsed.value / 1000 == n.parsed.value / 1000 && m.text == n.text
  {
    KeyIsTuple(m, n);
    if Bucket(m) == Bucket(n) {
      DecimalIsInjective(m.parsed.value / 1000, n.parsed.value / 1000);
    }
  }

  /** A bar in a name can make messages of different senders in different places share a key. */
  lemma BarsConfuse(ts: string, parsed: Option<int>, text: string)
    ensures var m, n := Message("a|b", "c", None, ts, parsed, text), Message("a", "b|c", None, ts, parsed, text);
            m.sender != n.sender && Place(m) != Place(n) && DedupKey(m) == DedupKey(n)
  {
    assert "a|b" + "|" + "c" == "a" + "|" + "b|c";
  }

  predicate SameParts(m: Message, n: Message) {
    m.sender == n.sender && Place(m) == Place(n) && Bucket(m) == Bucket(n) && m.text == n.text
  }

  /** Some other message, different in sender, place, bucket or text, has the same key. */
  ghost predicate IsConfusable(m: Message) {
    exists n :: DedupKey(n) == DedupKey(m) && !SameParts(m, n)
  }

  function Bars(s: string): nat {
    if s == "" then 0 else Bars(s[..|s| - 1]) + if s[|s| - 1] == '|' then 1 else 0
  }

  lemma {:induction false} BarsAdd(a: string, b: string)
    ensures Bars(a + b) == Bars(a) + Bars(b)
  {
    if b == "" {
      assert a + b == a;
    } else {
      assert (a + b)[..|a + b| - 1] == a + b[..|b| - 1];
      BarsAdd(a, b[..|b| - 1]);
    }
  }

  lemma {:induction false} NoBars(s: string)
    ensures Bars(s) == 0 <==> '|' !in s
  {
    if s == "" {
    } else {
      NoBars(s[..|s| - 1]);
      assert s == s[..|s| - 1] + [s[|s| - 1]];
    }
  }

  lemma BarsOfKey(m: Message)
    ensures Bars(DedupKey(m)) == 3 + Bars(m.sender) + Bars(Place(m)) + Bars(Bucket(m)) + Bars(m.text)
  {
    assert Bars("|") == 1 by { assert "|"[..0] == ""; }
    BarsAdd(m.sender, "|");
    BarsAdd(m.sender + "|", Place(m));
    BarsAdd(m.sender + "|" + Place(m), "|");
    BarsAdd(m.sender + "|" + Place(m) + "|", Bucket(m));
    BarsAdd(m.sender + "|" + Place(m) + "|" + Bucket(m), "|");
    BarsAdd(m.sender + "|" + Place(m) + "|" + Bucket(m) + "|", m.text);
  }

  predicate AllBarFree(m: Message) {
    BarFree(m) && '|' !in m.text
  }

  lemma BarFreeIsSafe(m: Message, n: Message)
    requires AllBarFree(m) && DedupKey(n) == DedupKey(m)
    ensures SameParts(m, n)
  {
    BarsOfKey(m);
    BarsOfKey(n);
    NoBars(m.sender);
    NoBars(Place(m));
    NoBars(Bucket(m));
    NoBars(m.text);
    NoBars(n.sender);
    NoBars(Place(n));
    NoBars(Bucket(n));
    KeyIsTuple(m, n);
  }

  lemma CutAtBar(s: string) returns (x: string, y: string)
    requires '|' in s
    ensures s == x + "|" + y
  {
    var i :| 0 <= i < |s| && s[i] == '|';
    x, y := s[..i], s[i + 1..];
  }

  /** The key of four given parts. */
  function KeyOf(sender: string, place: string, bucket: string, text: string): string {
    sender + "|" + place + "|" + bucket + "|" + text
  }

  lemma BarInName(m: Message) returns (n: Message)
    requires '|' in m.sender || '|' in Place(m)
    ensures DedupKey(n) == DedupKey(m) && !SameParts(m, n) && n.ts == m.ts && n.parsed == m.parsed
  {
    if '|' in m.sender {
      var x, y := CutAtBar(m.sender);
      n := Message(x, y + "|" + Place(m), None, m.ts, m.parsed, m.text);
      assert KeyOf(x + "|" + y, Place(m), Bucket(m), m.text) == KeyOf(x, y + "|" + Place(m), Bucket(m), m.text);
    } else {
      var x, y := CutAtBar(Place(m));
      n := Message(m.sender + "|" + x, y, None, m.ts, m.parsed, m.text);
      assert KeyOf(m.sender, x + "|" + y, Bucket(m), m.text) == KeyOf(m.sender + "|" + x, y, Bucket(m), m.text);
      assert |n.sender| > |m.sender|;
    }
  }

  lemma BarInRest(m: Message) returns (n: Message)
    requires '|' in Bucket(m) || '|' in m.text
    ensures DedupKey(n) == DedupKey(m) && !SameParts(m, n)
  {
    if '|' in Bucket(m) {
      var x, y := CutAtBar(Bucket(m));
      n := Message(m.sender, Place(m) + "|" + x, None, y, None, m.text);
      assert KeyOf(m.sender, Place(m), x + "|" + y, m.text) == KeyOf(m.sender, Place(m) + "|" + x, y, m.text);
      assert |Place(n)| > |Place(m)|;
    } else {
      var x, y := CutAtBar(m.text);
      n := Message(m.sender, Place(m), None, Bucket(m) + "|" + x, None, y);
      assert KeyOf(m.sender, Place(m), Bucket(m), x + "|" + y) == KeyOf(m.sender, Place(m), Bucket(m) + "|" + x, y);
      assert |n.text| < |m.text|;
    }
  }

  /** A message can be taken for a different one exactly when one of its four parts holds a bar. */
  lemma ConfusableExactly(m: Message)
    ensures IsConfusable(m) <==> !AllBarFree(m)
  {
    if AllBarFree(m) {
      forall n | DedupKey(n) == DedupKey(m) ensures SameParts(m, n) {
        BarFreeIsSafe(m, n);
      }
    } else if '|' in m.sender || '|' in Place(m) {
      var n := BarInName(m);
      assert DedupKey(n) == DedupKey(m) && !SameParts(m, n);
    } else {
      var n := BarInRest(m);
      assert DedupKey(n) == DedupKey(m) && !SameParts(m, n);
    }
  }

  // ---------------------------------------------------------------- among messages with readable timestamps

  predicate NumberAt(text: string, u: string, k: int, w: string) {
    text == u + Decimal(k) + "|" + w && (u == "" || u[|u| - 1] == '|')
  }

  /** Somewhere in the text, at its start or after a bar, a whole number stands before a bar. */
  ghost predicate HoldsNumber(text: string) {
    exists u, k: int, w :: NumberAt(text, u, k, w)
  }

  ghost predicate IsReadablyConfusable(m: Message) {
    exists n: Message :: n.parsed.Some? && DedupKey(n) == DedupKey(m) && !SameParts(m, n)
  }

  /** Peeling a bar-free head off a string that starts with `x` and a bar. */
  lemma Peel(a: string, rest: string, x: string, y: string) returns (z: string)
    requires '|' !in a && a + "|" + rest == x + "|" + y
    ensures if x == a then rest == y else x == a + "|" + z && rest == z + "|" + y
  {
    var s := a + "|" + rest;
    FirstBar(a, rest);
    assert s[|x|] == '|';
    assert |x| >= |a|;
    z := "";
    if |x| == |a| {
      assert x == s[..|a|] == a;
      assert rest == s[|a| + 1..] == y;
    } else {
      z := x[|a| + 1..];
      assert x == s[..|x|];
      assert x == a + "|" + z;
      assert rest == s[|a| + 1..] == z + "|" + y;
    }
  }

  lemma DecimalHasNoBar(k: int)
    ensures '|' !in Decimal(k)
  {
  }

  lemma HeadIsLonger(a: string, sender: string, place: string)
    requires '|' !in a
    ensures sender + "|" + place != a
  {
    assert (sender + "|" + place)[|sender|] == '|';
  }

  lemma NumberAfter(text: string, d: string, z2: string, z3: string, k: int, w: string)
    requires if z2 == d then text == Decimal(k) + "|" + w
             else z2 == d + "|" + z3 && text == z3 + "|" + (Decimal(k) + "|" + w)
    ensures HoldsNumber(text)
  {
    if z2 == d {
      assert text == "" + Decimal(k) + "|" + w;
      assert NumberAt(text, "", k, w);
    } else {
      var u := z3 + "|";
      assert text == u + Decimal(k) + "|" + w;
      assert NumberAt(text, u, k, w);
    }
  }

  lemma TwoBarFreeParts(a: string, b: string, c: string, d: string)
    requires '|' !in a && '|' !in b && a + "|" + b == c + "|" + d
    ensures a == c && b == d
  {
    BarsAdd(a, "|");
    BarsAdd(a + "|", b);
    BarsAdd(c, "|");
    BarsAdd(c + "|", d);
    NoBars(a);
    NoBars(b);
    NoBars(c);
    BarsSplit(a, b, c, d);
  }

  /** The case in which sender and place agree, which leaves no room for a difference. */
  lemma SameHeads(m: Message, n: Message, e: string)
    requires '|' !in m.sender && '|' !in Place(m) && '|' !in Bucket(m) && '|' !in e && e == Bucket(n)
    requires n.sender + "|" + Place(n) == m.sender + "|" + Place(m)
    requires Bucket(m) + "|" + m.text == e + "|" + n.text
    ensures SameParts(m, n)
  {
    BarsSplit(Bucket(m), m.text, e, n.text);
    TwoBarFreeParts(m.sender, Place(m), n.sender, Place(n));
  }

  /** What is left of another message's first three parts once those of `m` are peeled off. */
  lemma NumberRemains(m: Message, n: Message)
    requires m.parsed.Some? && n.parsed.Some? && '|' !in m.sender && '|' !in Place(m)
    requires DedupKey(n) == DedupKey(m) && !SameParts(m, n)
    ensures HoldsNumber(m.text)
  {
    var d, e, k := Bucket(m), Bucket(n), n.parsed.value / 1000;
    DecimalHasNoBar(m.parsed.value / 1000);
    DecimalHasNoBar(k);
    var x := n.sender + "|" + Place(n);
    assert DedupKey(m) == m.sender + "|" + (Place(m) + "|" + (d + "|" + m.text)) by {
      RegroupParts(m.sender, Place(m), d, m.text);
    }
    assert DedupKey(n) == x + "|" + (e + "|" + n.text);
    var z1 := Peel(m.sender, Place(m) + "|" + (d + "|" + m.text), x, e + "|" + n.text);
    HeadIsLonger(m.sender, n.sender, Place(n));
    assert Place(m) + "|" + (d + "|" + m.text) == z1 + "|" + (e + "|" + n.text);
    var z2 := Peel(Place(m), d + "|" + m.text, z1, e + "|" + n.text);
    if z1 == Place(m) {
      SameHeads(m, n, e);
    } else {
      var z3 := Peel(d, m.text, z2, e + "|" + n.text);
      NumberAfter(m.text, d, z2, z3, k, n.text);
    }
  }

  lemma ShiftOne(s: string, p: string, d: string, e: string, w: string)
    ensures KeyOf(s, p, d, e + "|" + w) == KeyOf(s, p + "|" + d, e, w)
  {
  }

  lemma ShiftTwo(s: string, p: string, d: string, v: string, e: string, w: string)
    ensures KeyOf(s, p, d, v + "|" + e + "|" + w) == KeyOf(s, p + "|" + d + "|" + v, e, w)
  {
  }

  lemma NumberConfuses(m: Message, u: string, k: int, w: string) returns (n: Message)
    requires NumberAt(m.text, u, k, w)
    ensures n.parsed.Some? && DedupKey(n) == DedupKey(m) && !SameParts(m, n)
  {
    var d, e := Bucket(m), Decimal(k);
    if u == "" {
      n := Message(m.sender, Place(m) + "|" + d, None, "", Some(1000 * k), w);
      assert m.text == e + "|" + w;
      ShiftOne(m.sender, Place(m), d, e, w);
    } else {
      var v := u[..|u| - 1];
      n := Message(m.sender, Place(m) + "|" + d + "|" + v, None, "", Some(1000 * k), w);
      assert m.text == v + "|" + e + "|" + w;
      ShiftTwo(m.sender, Place(m), d, v, e, w);
    }
    assert Bucket(n) == e;
    assert |n.text| < |m.text|;
  }

  /** A message with a readable timestamp, as all messages of the broker have, can be taken for a different one with a
      readable timestamp exactly when its sender or its place holds a bar, or its text a whole number before a bar, at
      the start or after another bar. */
  lemma ReadablyConfusableExactly(m: Message)
    requires m.parsed.Some?
    ensures IsReadablyConfusable(m) <==> '|' in m.sender || '|' in Place(m) || HoldsNumber(m.text)
  {
    if '|' in m.sender || '|' in Place(m) {
      var n := BarInName(m);
      assert n.parsed.Some? && DedupKey(n) == DedupKey(m) && !SameParts(m, n);
    } else if HoldsNumber(m.text) {
      var u, k: int, w :| NumberAt(m.text, u, k, w);
      var n := NumberConfuses(m, u, k, w);
      assert n.parsed.Some? && DedupKey(n) == DedupKey(m) && !SameParts(m, n);
    } else {
      forall n: Message | n.parsed.Some? && DedupKey(n) == DedupKey(m) ensures SameParts(m, n) {
        if !SameParts(m, n) {
          NumberRemains(m, n);
        }
      }
    }
  }

  // ---------------------------------------------------------------- the cache

  /** The cache's entries in insertion order. */
  datatype Entry = Entry(key: string, at: int)

  predicate IsLive(e: Entry, now: int) {
    now - e.at < DEDUP_WINDOW_MS
  }

  function Live(entries: seq<Entry>, now: int): seq<Entry> {
    if entries == [] then []
    else
      var before, e := Live(entries[..|entries| - 1], now), entries[|entries| - 1];
      if IsLive(e, now) then before + [e] else before
  }

  function Find(entries: seq<Entry>, key: string): (at: Option<nat>)
    ensures at.Some? ==> at.value < |entries| && entries[at.value].key == key
    ensures at.None? ==> forall i | 0 <= i < |entries| :: entries[i].key != key
  {
    if entries == [] then None
    else if entries[|entries| - 1].key == key then Some(|entries| - 1)
    else Find(entries[..|entries| - 1], key)
  }

  function Put(entries: seq<Entry>, key: string, now: int): seq<Entry> {
    var at := Find(entries, key);
    if at.Some? then entries[at.value := Entry(key, now)] else entries + [Entry(key, now)]
  }

  /** Where the first entry with the smallest time is. */
  function OldestAt(entries: seq<Entry>): (o: nat)
    requires entries != []
    ensures o < |entries|
    ensures forall i | 0 <= i < |entries| :: entries[o].at <= entries[i].at
    ensures forall i | 0 <= i < o :: entries[o].at < entries[i].at
  {
    if |entries| == 1 then 0
    else
      var o := OldestAt(entries[..|entries| - 1]);
      if entries[|entries| - 1].at < entries[o].at then |entries| - 1 else o
  }

  function RemoveAt(entries: seq<Entry>, i: nat): seq<Entry>
    requires i < |entries|
  {
    entries[..i] + entries[i + 1..]
  }

  function Trimmed(entries: seq<Entry>): seq<Entry> {
    if entries == [] then entries else RemoveAt(entries, OldestAt(entries))
  }

  predicate Drops(entries: seq<Entry>, key: string, now: int) {
    var at := Find(Live(entries, now), key);
    at.Some? && IsLive(Live(entries, now)[at.value], now)
  }

  function Bounded(entries: seq<Entry>): seq<Entry> {
    if |entries| > MAX_DEDUP_ENTRIES then Trimmed(entries) else entries
  }

  function Pushed(entries: seq<Entry>, key: string, now: int): seq<Entry> {
    if Drops(entries, key, now) then Live(entries, now) else Bounded(Put(Live(entries, now), key, now))
  }

  /** The first of the entries with the smallest time. */
  predicate IsFirstOldest(entries: seq<Entry>, i: int) {
    && 0 <= i < |entries|
    && (forall j | 0 <= j < |entries| :: entries[i].at <= entries[j].at)
    && (forall j | 0 <= j < i :: entries[i].at < entries[j].at)
  }

  /** Exactly the first of the oldest entries goes. */
  ghost predicate LosesOldest(before: seq<Entry>, after: seq<Entry>) {
    exists i :: IsFirstOldest(before, i) && after == before[..i] + before[i + 1..]
  }

  predicate HoldsLive(entries: seq<Entry>, key: string, now: int) {
    exists e | e in entries :: e.key == key && now < e.at + 10_000
  }

  /** What a push leaves: the entries less than ten seconds old, in their order, and unless one of them has the key, the
      key with the present time; beyond 2048 the first of the oldest goes. */
  ghost predicate IsPushed(before: seq<Entry>, key: string, now: int, after: seq<Entry>) {
    var live := Live(before, now);
    if HoldsLive(before, key, now) then after == live
    else if |live| < 2048 then after == live + [Entry(key, now)]
    else LosesOldest(live + [Entry(key, now)], after)
  }

  /** Sweeping keeps exactly the entries less than ten seconds old, in their order. */
  lemma {:induction false} LiveConcat(a: seq<Entry>, b: seq<Entry>, now: int)
    ensures Live(a + b, now) == Live(a, now) + Live(b, now)
    ensures forall e :: Live([e], now) == if now < e.at + 10_000 then [e] else []
  {
    forall e ensures Live([e], now) == if now < e.at + 10_000 then [e] else [] {
      assert [e][..0] == [];
    }
    if b == [] {
      assert a + b == a;
    } else {
      assert (a + b)[..|a + b| - 1] == a + b[..|b| - 1];
      LiveConcat(a, b[..|b| - 1], now);
    }
  }

  lemma {:induction false} LiveIsLive(entries: seq<Entry>, now: int)
    ensures |Live(entries, now)| <= |entries|
    ensures forall e :: e in Live(entries, now) <==> e in entries && IsLive(e, now)
  {
    if entries == [] {
    } else {
      LiveIsLive(entries[..|entries| - 1], now);
      assert entries == entries[..|entries| - 1] + [entries[|entries| - 1]];
    }
  }

  /** After the sweep a key found is live, so `Put` always appends. */
  lemma AcceptsAbsent(entries: seq<Entry>, key: string, now: int)
    ensures Drops(entries, key, now) <==> exists e | e in entries :: e.key == key && IsLive(e, now)
    ensures !Drops(entries, key, now) ==> Put(Live(entries, now), key, now) == Live(entries, now) + [Entry(key, now)]
  {
    LiveIsLive(entries, now);
    var live := Live(entries, now);
    var at := Find(live, key);
    if at.Some? {
      assert live[at.value] in live;
    }
    if e :| e in entries && e.key == key && IsLive(e, now) {
      assert e in live;
    }
  }

  lemma TrimmedIsWithoutOldest(entries: seq<Entry>)
    requires entries != []
    ensures LosesOldest(entries, Trimmed(entries))
  {
    assert IsFirstOldest(entries, OldestAt(entries));
  }

  lemma PushedIsPushed(entries: seq<Entry>, key: string, now: int)
    requires |entries| <= MAX_DEDUP_ENTRIES
    ensures IsPushed(entries, key, now, Pushed(entries, key, now))
    ensures Drops(entries, key, now) <==> HoldsLive(entries, key, now)
  {
    LiveIsLive(entries, now);
    AcceptsAbsent(entries, key, now);
    assert forall e | e in entries :: IsLive(e, now) <==> now < e.at + 10_000;
    TrimmedIsWithoutOldest(Live(entries, now) + [Entry(key, now)]);
  }

  lemma SweepOne(all: seq<Entry>, done: nat, now: int)
    requires done < |all|
    ensures var live := Live(all[..done], now); var cache := live + all[done..];
            && cache[|live|] == all[done]
            && cache[..|live|] + cache[|live| + 1..] == live + all[done + 1..]
            && cache == live + [all[done]] + all[done + 1..]
            && Live(all[..done + 1], now) == if IsLive(all[done], now) then live + [all[done]] else live
  {
    assert all[..done + 1][..done] == all[..done];
  }

  class MessageBus {
    var dedupSeen: seq<Entry>
    var notified: seq<Message>

    constructor ()
      ensures dedupSeen == [] && notified == []
    {
      dedupSeen, notified := [], [];
    }

    method Push(msg: Message, now: int)
      modifies this
      ensures dedupSeen == Pushed(old(dedupSeen), DedupKey(msg), now)
      ensures notified == if old(Drops(dedupSeen, DedupKey(msg), now)) then old(notified) else old(notified) + [msg]
      ensures |old(dedupSeen)| <= MAX_DEDUP_ENTRIES ==>
                && IsPushed(old(dedupSeen), DedupKey(msg), now, dedupSeen)
                && notified == old(notified) + if HoldsLive(old(dedupSeen), DedupKey(msg), now) then [] else [msg]
    {
      if |dedupSeen| <= MAX_DEDUP_ENTRIES {
        PushedIsPushed(dedupSeen, DedupKey(msg), now);
      }
      var key := DedupKey(msg);
      Vacuum(now);
      var last := Find(dedupSeen, key);
      if last.Some? && now - dedupSeen[last.value].at < DEDUP_WINDOW_MS {
        return;
      }
      dedupSeen := Put(dedupSeen, key, now);
      if |dedupSeen| > MAX_DEDUP_ENTRIES {
        TrimOldest();
      }
      notified := notified + [msg];
    }

    method Vacuum(now: int)
      modifies this`dedupSeen
      ensures dedupSeen == Live(old(dedupSeen), now)
    {
      ghost var all := dedupSeen;
      ghost var done := 0;
      var i := 0;
      while i < |dedupSeen|
        invariant 0 <= done <= |all| && i == |Live(all[..done], now)|
        invariant dedupSeen == Live(all[..done], now) + all[done..]
        decreases |all| - done
      {
        SweepOne(all, done, now);
        if now - dedupSeen[i].at >= DEDUP_WINDOW_MS {
          dedupSeen := dedupSeen[..i] + dedupSeen[i + 1..];
        } else {
          i := i + 1;
        }
        done := done + 1;
      }
      assert all[..|all|] == all;
    }

    method TrimOldest()
      modifies this`dedupSeen
      ensures dedupSeen == Trimmed(old(dedupSeen))
      ensures old(dedupSeen) != [] ==> LosesOldest(old(dedupSeen), dedupSeen)
    {
      var oldest: Option<nat> := None;
      for i := 0 to |dedupSeen|
        invariant oldest.Some? <==> i > 0
        invariant oldest.Some? ==> oldest.value == OldestAt(dedupSeen[..i])
      {
        assert dedupSeen[..i + 1][..i] == dedupSeen[..i];
        if oldest.None? || dedupSeen[i].at < dedupSeen[oldest.value].at {
          oldest := Some(i);
        }
      }
      assert dedupSeen[..|dedupSeen|] == dedupSeen;
      if dedupSeen != [] {
        TrimmedIsWithoutOldest(dedupSeen);
      }
      if oldest.Some? {
        dedupSeen := RemoveAt(dedupSeen, oldest.value);
      }
    }
  }

  // ---------------------------------------------------------------- any clock

  /** Whatever the clock does, the cache holds no more than its bound after a push. */
  lemma BoundHolds(entries: seq<Entry>, key: string, now: int)
    requires |entries| <= MAX_DEDUP_ENTRIES
    ensures |Pushed(entries, key, now)| <= MAX_DEDUP_ENTRIES
  {
    LiveIsLive(entries, now);
  }

  /** As in a map, no key has two entries. */
  predicate OneEach(entries: seq<Entry>) {
    forall i, j | 0 <= i < j < |entries| :: entries[i].key != entries[j].key
  }

  lemma {:induction false} LiveKeepsOneEach(entries: seq<Entry>, now: int)
    requires OneEach(entries)
    ensures OneEach(Live(entries, now))
  {
    if entries == [] {
    } else {
      var before, e := entries[..|entries| - 1], entries[|entries| - 1];
      LiveKeepsOneEach(before, now);
      LiveIsLive(before, now);
      forall i | 0 <= i < |Live(before, now)| ensures Live(before, now)[i].key != e.key {
        assert Live(before, now)[i] in before;
      }
    }
  }

  /** Putting a key changes its entry or adds one at the end. */
  lemma PutKeepsOneEach(entries: seq<Entry>, key: string, now: int)
    requires OneEach(entries)
    ensures OneEach(Put(entries, key, now)) && Entry(key, now) in Put(entries, key, now)
  {
    var all, at := Put(entries, key, now), Find(entries, key);
    assert all[if at.Some? then at.value else |entries|] == Entry(key, now);
  }

  lemma RemoveKeepsOneEach(entries: seq<Entry>, o: nat, rest: seq<Entry>)
    requires OneEach(entries) && o < |entries| && rest == entries[..o] + entries[o + 1..]
    ensures OneEach(rest)
  {
    forall i, j | 0 <= i < j < |rest| ensures rest[i].key != rest[j].key {
      var x, y := if i < o then i else i + 1, if j < o then j else j + 1;
      assert rest[i] == entries[x] && rest[j] == entries[y] && x < y;
    }
  }

  lemma TrimKeepsOneEach(entries: seq<Entry>)
    requires OneEach(entries)
    ensures OneEach(Trimmed(entries))
  {
    if entries != [] {
      RemoveKeepsOneEach(entries, OldestAt(entries), Trimmed(entries));
    }
  }

  lemma BoundedKeepsOneEach(entries: seq<Entry>)
    requires OneEach(entries)
    ensures OneEach(Bounded(entries))
  {
    TrimKeepsOneEach(entries);
  }

  /** No push leaves two entries for a key. */
  lemma PushKeepsOneEach(entries: seq<Entry>, key: string, now: int)
    requires OneEach(entries)
    ensures OneEach(Pushed(entries, key, now))
  {
    var live := Live(entries, now);
    LiveKeepsOneEach(entries, now);
    if !Drops(entries, key, now) {
      PutKeepsOneEach(live, key, now);
      BoundedKeepsOneEach(Put(live, key, now));
    }
  }

  /** The entry just accepted is the one evicted exactly when the cache is full and the clock reads earlier than every
      entry in it. */
  lemma JustAcceptedStays(entries: seq<Entry>, key: string, now: int)
    requires |entries| <= MAX_DEDUP_ENTRIES && !Drops(entries, key, now)
    ensures Entry(key, now) !in Pushed(entries, key, now)
       <==> |Live(entries, now)| == MAX_DEDUP_ENTRIES && forall e | e in Live(entries, now) :: now < e.at
  {
    LiveIsLive(entries, now);
    AcceptsAbsent(entries, key, now);
    var live, e := Live(entries, now), Entry(key, now);
    var all := live + [e];
    if |all| > MAX_DEDUP_ENTRIES {
      var o := OldestAt(all);
      assert forall i | 0 <= i < |live| :: all[i] == live[i] && live[i].key != key by {
        forall i | 0 <= i < |live| ensures live[i].key != key { assert live[i] in live; }
      }
      if o < |live| {
        assert Trimmed(all)[|live| - 1] == e;
        assert live[o].at <= e.at;
      } else {
        assert Trimmed(all) == live;
      }
    } else {
      assert all[|live|] == e;
    }
  }

  // ---------------------------------------------------------------- whole histories

  datatype Arrival = Arrival(key: string, now: int)

  /** The cache beside the list, never shortened, of everything accepted so far. */
  datatype Bus = Bus(seen: seq<Entry>, accepted: seq<Entry>)

  function Receive(b: Bus, a: Arrival): Bus {
    Bus(Pushed(b.seen, a.key, a.now),
        if Drops(b.seen, a.key, a.now) then b.accepted else b.accepted + [Entry(a.key, a.now)])
  }

  function After(history: seq<Arrival>): Bus {
    if history == [] then Bus([], []) else Receive(After(history[..|history| - 1]), history[|history| - 1])
  }

  predicate Ordered(history: seq<Arrival>) {
    forall i, j | 0 <= i < j < |history| :: history[i].now <= history[j].now
  }

  predicate InOrder(entries: seq<Entry>) {
    forall i, j | 0 <= i < j < |entries| :: entries[i].at <= entries[j].at
  }

  predicate NoLater(entries: seq<Entry>, now: int) {
    forall i | 0 <= i < |entries| :: entries[i].at <= now
  }

  /** Everything before `k` is stale and everything from `k` on is live. */
  ghost predicate IsCut(entries: seq<Entry>, now: int, k: nat) {
    && k <= |entries|
    && (forall i | 0 <= i < k :: !IsLive(entries[i], now))
    && (forall i | k <= i < |entries| :: IsLive(entries[i], now))
  }

  lemma CutOfPrefix(entries: seq<Entry>, now: int, k: nat)
    requires entries != [] && IsCut(entries, now, k)
    ensures IsCut(entries[..|entries| - 1], now, if k < |entries| then k else |entries| - 1)
  {
  }

  lemma LiveLast(entries: seq<Entry>, now: int, k: nat)
    requires k < |entries| && IsLive(entries[|entries| - 1], now)
    requires Live(entries[..|entries| - 1], now) == entries[..|entries| - 1][k..]
    ensures Live(entries, now) == entries[k..]
  {
  }

  lemma {:induction false} LiveFromCut(entries: seq<Entry>, now: int, k: nat)
    requires IsCut(entries, now, k)
    ensures Live(entries, now) == entries[k..]
  {
    if entries == [] {
    } else {
      var n := |entries| - 1;
      CutOfPrefix(entries, now, k);
      if k <= n {
        LiveFromCut(entries[..n], now, k);
        LiveLast(entries, now, k);
      } else {
        LiveFromCut(entries[..n], now, n);
      }
    }
  }

  lemma CutOfMore(entries: seq<Entry>, now: int, k: nat)
    requires entries != [] && IsLive(entries[|entries| - 1], now) && IsCut(entries[..|entries| - 1], now, k)
    ensures IsCut(entries, now, k)
  {
  }

  lemma {:induction false} CutOf(entries: seq<Entry>, now: int) returns (k: nat)
    requires InOrder(entries)
    ensures IsCut(entries, now, k) && Live(entries, now) == entries[k..]
  {
    if entries == [] || !IsLive(entries[|entries| - 1], now) {
      k := |entries|;
    } else {
      k := CutOf(entries[..|entries| - 1], now);
      CutOfMore(entries, now, k);
    }
    LiveFromCut(entries, now, k);
  }

  lemma CutOfTail(entries: seq<Entry>, now: int, k: nat, from: nat)
    requires IsCut(entries, now, k) && from <= |entries|
    ensures Live(entries[from..], now) == if from <= k then entries[k..] else entries[from..]
  {
    var j := if from <= k then k - from else 0;
    assert IsCut(entries[from..], now, j);
    LiveFromCut(entries[from..], now, j);
  }

  lemma CutsMoveOn(entries: seq<Entry>, earlier: int, k: nat, now: int, k': nat)
    requires IsCut(entries, earlier, k) && IsCut(entries, now, k') && earlier <= now
    ensures k <= k'
  {
    assert k' < |entries| ==> IsLive(entries[k'], earlier);
  }

  /** Sweeping later and bounding commute: what the cache keeps is still decided by the accepted list alone. */
  lemma SweepCommutes(accepted: seq<Entry>, earlier: int, now: int, n: nat)
    requires InOrder(accepted) && earlier <= now
    ensures Live(LastN(Live(accepted, earlier), n), now) == LastN(Live(accepted, now), n)
  {
    var k := CutOf(accepted, earlier);
    var k' := CutOf(accepted, now);
    CutsMoveOn(accepted, earlier, k, now, k');
    var from := if |accepted| - k <= n then k else |accepted| - n;
    assert LastN(accepted[k..], n) == accepted[from..];
    assert LastN(accepted[k'..], n) == if from <= k' then accepted[k'..] else accepted[from..];
    CutOfTail(accepted, now, k', from);
  }

  lemma OldestInOrder(entries: seq<Entry>)
    requires entries != [] && InOrder(entries)
    ensures OldestAt(entries) == 0 && Trimmed(entries) == entries[1..]
  {
  }

  lemma TailInOrder(entries: seq<Entry>, from: nat)
    requires InOrder(entries) && from < |entries|
    ensures InOrder(entries[from..])
    ensures Trimmed(entries[from..]) == entries[from + 1..]
  {
    OldestInOrder(entries[from..]);
  }

  lemma LastNThenOne(live: seq<Entry>, e: Entry, n: nat)
    requires |live| >= n
    ensures LastN(live, n) + [e] == (live + [e])[|live| - n..]
    ensures LastN(live + [e], n) == (live + [e])[|live| - n + 1..]
  {
  }

  lemma AppendAtBound(live: seq<Entry>, e: Entry, n: nat)
    requires InOrder(live + [e]) && |live| >= n
    ensures |LastN(live, n) + [e]| > n && LastN(live + [e], n) == Trimmed(LastN(live, n) + [e])
  {
    LastNThenOne(live, e, n);
    TailInOrder(live + [e], |live| - n);
  }

  lemma AppendToBound(live: seq<Entry>, e: Entry, n: nat)
    requires InOrder(live + [e])
    ensures var all := LastN(live, n) + [e];
            LastN(live + [e], n) == if |all| > n then Trimmed(all) else all
  {
    if |live| >= n {
      AppendAtBound(live, e, n);
    } else {
      assert LastN(live, n) == live;
    }
  }

  /** The cache is a function of the accepted list: its last 2048 live entries. */
  ghost predicate CacheIs(b: Bus, now: int) {
    && b.seen == LastN(Live(b.accepted, now), MAX_DEDUP_ENTRIES)
    && InOrder(b.accepted) && NoLater(b.accepted, now)
  }

  lemma AcceptKeepsOrder(accepted: seq<Entry>, e: Entry)
    requires InOrder(accepted) && NoLater(accepted, e.at) && IsLive(e, e.at)
    ensures InOrder(accepted + [e]) && NoLater(accepted + [e], e.at)
    ensures Live(accepted + [e], e.at) == Live(accepted, e.at) + [e]
    ensures InOrder(Live(accepted, e.at) + [e])
  {
    assert (accepted + [e])[..|accepted|] == accepted;
    var k := CutOf(accepted, e.at);
    assert Live(accepted, e.at) + [e] == (accepted + [e])[k..];
  }

  lemma AcceptedKeeps(accepted: seq<Entry>, e: Entry)
    requires InOrder(accepted) && NoLater(accepted, e.at)
    ensures CacheIs(Bus(Bounded(LastN(Live(accepted, e.at), MAX_DEDUP_ENTRIES) + [e]), accepted + [e]), e.at)
  {
    AcceptKeepsOrder(accepted, e);
    AppendToBound(Live(accepted, e.at), e, MAX_DEDUP_ENTRIES);
  }

  lemma Received(b: Bus, a: Arrival)
    ensures Receive(b, a)
         == if Drops(b.seen, a.key, a.now) then Bus(Live(b.seen, a.now), b.accepted)
            else Bus(Bounded(Live(b.seen, a.now) + [Entry(a.key, a.now)]), b.accepted + [Entry(a.key, a.now)])
  {
    AcceptsAbsent(b.seen, a.key, a.now);
  }

  /** Over every history with a clock that never runs backwards, the cache is the last 2048 of the keys accepted less
      than ten seconds before the last arrival. */
  lemma {:induction false} CacheIsExact(history: seq<Arrival>)
    requires history != [] && Ordered(history)
    ensures CacheIs(After(history), history[|history| - 1].now)
  {
    var before, a := history[..|history| - 1], history[|history| - 1];
    var b := After(before);
    var earlier := if before == [] then a.now else before[|before| - 1].now;
    if before == [] {
    } else {
      CacheIsExact(before);
    }
    assert CacheIs(b, earlier);
    SweepCommutes(b.accepted, earlier, a.now, MAX_DEDUP_ENTRIES);
    Received(b, a);
    AcceptedKeeps(b.accepted, Entry(a.key, a.now));
  }

  /** A decision is the scan of the whole accepted list for the same key less than ten seconds ago, as long as no more
      than 2048 accepted keys are live; with more, it is that scan over the last 2048. */
  lemma DecidesLikeScan(history: seq<Arrival>, a: Arrival)
    requires Ordered(history + [a])
    ensures var b := After(history); var live := Live(b.accepted, a.now);
            && (Drops(b.seen, a.key, a.now) <==> exists e | e in LastN(live, MAX_DEDUP_ENTRIES) :: e.key == a.key)
            && (|live| <= MAX_DEDUP_ENTRIES ==>
                  (Drops(b.seen, a.key, a.now) <==> exists e | e in b.accepted :: e.key == a.key && IsLive(e, a.now)))
  {
    var b := After(history);
    if history != [] {
      var last := history[|history| - 1];
      assert (history + [a])[|history| - 1] == last && (history + [a])[|history|] == a;
      assert forall i | 0 <= i < |history| :: history[i] == (history + [a])[i];
      CacheIsExact(history);
      SweepCommutes(b.accepted, last.now, a.now, MAX_DEDUP_ENTRIES);
    }
    AcceptsAbsent(b.seen, a.key, a.now);
    LiveIsLive(b.seen, a.now);
    LiveIsLive(b.accepted, a.now);
  }

  ghost predicate AcceptedLately(accepted: seq<Entry>, a: Arrival) {
    exists e | e in accepted :: e.key == a.key && IsLive(e, a.now)
  }

  /** What a filter that forgets nothing accepts. */
  ghost function Scanned(history: seq<Arrival>): seq<Entry> {
    if history == [] then []
    else
      var before, a := Scanned(history[..|history| - 1]), history[|history| - 1];
      if AcceptedLately(before, a) then before else before + [Entry(a.key, a.now)]
  }

  /** At no arrival are more than 2048 accepted keys live. */
  ghost predicate NeverOverfull(history: seq<Arrival>) {
    history != [] ==>
      var before, a := history[..|history| - 1], history[|history| - 1];
      NeverOverfull(before) && |Live(Scanned(before), a.now)| <= MAX_DEDUP_ENTRIES
  }

  lemma OrderedPrefix(history: seq<Arrival>)
    requires history != [] && Ordered(history)
    ensures var before := history[..|history| - 1]; Ordered(before) && before + [history[|history| - 1]] == history
  {
  }

  /** The bounded cache then takes the very decisions of the unbounded scan, over the whole history. */
  lemma {:induction false} RefinesScan(history: seq<Arrival>)
    requires Ordered(history) && NeverOverfull(history)
    ensures After(history).accepted == Scanned(history)
  {
    if history == [] {
    } else {
      var before, a := history[..|history| - 1], history[|history| - 1];
      OrderedPrefix(history);
      RefinesScan(before);
      DecidesLikeScan(before, a);
    }
  }

  lemma NewestIsLast(accepted: seq<Entry>, e: Entry, n: nat)
    requires n > 0 && IsLive(e, e.at)
    ensures var kept := LastN(Live(accepted + [e], e.at), n); |kept| <= n && e in kept
  {
    assert (accepted + [e])[..|accepted|] == accepted;
    var kept := LastN(Live(accepted + [e], e.at), n);
    assert kept[|kept| - 1] == e;
  }

  predicate Accepts(history: seq<Arrival>, a: Arrival) {
    !Drops(After(history).seen, a.key, a.now)
  }

  /** With such a clock the key just accepted is always in the cache. */
  lemma NeverEvictsNewest(history: seq<Arrival>, a: Arrival)
    requires Ordered(history + [a]) && Accepts(history, a)
    ensures var seen := After(history + [a]).seen; Entry(a.key, a.now) in seen && |seen| <= MAX_DEDUP_ENTRIES
  {
    var h := history + [a];
    assert h[..|h| - 1] == history;
    CacheIsExact(h);
    var b := After(history);
    assert Receive(b, a).accepted == b.accepted + [Entry(a.key, a.now)];
    NewestIsLast(b.accepted, Entry(a.key, a.now), MAX_DEDUP_ENTRIES);
  }

  // ---------------------------------------------------------------- what gets through

  /** Whatever the clock does, the cache holds accepted entries only. */
  lemma {:induction false} SeenWasAccepted(history: seq<Arrival>, e: Entry)
    requires e in After(history).seen
    ensures e in After(history).accepted
  {
    var before, a := history[..|history| - 1], history[|history| - 1];
    var b := After(before);
    LiveIsLive(b.seen, a.now);
    AcceptsAbsent(b.seen, a.key, a.now);
    if e in b.seen {
      SeenWasAccepted(before, e);
    }
  }

  /** What was accepted arrived with that key. */
  lemma {:induction false} AcceptedCameFrom(history: seq<Arrival>, e: Entry)
    requires e in After(history).accepted
    ensures exists i | 0 <= i < |history| :: history[i].key == e.key
  {
    if e in After(history[..|history| - 1]).accepted {
      AcceptedCameFrom(history[..|history| - 1], e);
    }
  }

  predicate IsNewKey(history: seq<Arrival>, key: string) {
    forall i | 0 <= i < |history| :: history[i].key != key
  }

  /** A key that no earlier arrival had gets through, whatever the clock does. */
  lemma NewKeyPasses(history: seq<Arrival>, a: Arrival)
    requires IsNewKey(history, a.key)
    ensures Accepts(history, a)
  {
    AcceptsAbsent(After(history).seen, a.key, a.now);
    if e :| e in After(history).seen && e.key == a.key {
      SeenWasAccepted(history, e);
      AcceptedCameFrom(history, e);
    }
  }

  function Entries(history: seq<Arrival>): seq<Entry> {
    if history == [] then []
    else Entries(history[..|history| - 1]) + [Entry(history[|history| - 1].key, history[|history| - 1].now)]
  }

  predicate KeysDiffer(history: seq<Arrival>) {
    forall i, j | 0 <= i < j < |history| :: history[i].key != history[j].key
  }

  /** Messages whose keys all differ all get through, however many there are and whatever the clock does. */
  lemma {:induction false} DifferentMessagesPass(history: seq<Arrival>)
    requires KeysDiffer(history)
    ensures After(history).accepted == Entries(history)
  {
    if history == [] {
    } else {
      DifferentMessagesPass(history[..|history| - 1]);
      NewKeyPasses(history[..|history| - 1], history[|history| - 1]);
    }
  }

  /** A key just accepted is refused for the next ten seconds. */
  lemma RepeatIsDropped(history: seq<Arrival>, a: Arrival, again: Arrival)
    requires Ordered(history + [a]) && Accepts(history, a)
    requires again.key == a.key && again.now - a.now < DEDUP_WINDOW_MS
    ensures !Accepts(history + [a], again)
  {
    NeverEvictsNewest(history, a);
    AcceptsAbsent(After(history + [a]).seen, again.key, again.now);
    assert IsLive(Entry(a.key, a.now), again.now);
  }

  // ---------------------------------------------------------------- a clock that runs backwards

  /** Messages that differ in their text. */
  function Numbered(i: int): Message {
    Message("s", "c", None, "", Some(0), Decimal(i))
  }

  lemma NumberedDiffer(i: int, j: int)
    requires DedupKey(Numbered(i)) == DedupKey(Numbered(j))
    ensures i == j
  {
    KeyIsSameSecond(Numbered(i), Numbered(j));
    DecimalIsInjective(i, j);
  }

  /** `n` of them, all at time 1. */
  function Burst(n: nat): seq<Arrival> {
    if n == 0 then [] else Burst(n - 1) + [Arrival(DedupKey(Numbered(n)), 1)]
  }

  function BurstEntries(n: nat): (entries: seq<Entry>)
    ensures |entries| == n && forall i | 0 <= i < n :: entries[i] == Entry(DedupKey(Numbered(i + 1)), 1)
  {
    if n == 0 then [] else BurstEntries(n - 1) + [Entry(DedupKey(Numbered(n)), 1)]
  }

  lemma BurstIsLive(n: nat, now: int)
    requires now <= 1
    ensures Live(BurstEntries(n), now) == BurstEntries(n)
  {
    LiveFromCut(BurstEntries(n), now, 0);
  }

  lemma NotInBurst(n: nat, i: int, now: int)
    requires i > n
    ensures !Drops(BurstEntries(n), DedupKey(Numbered(i)), now)
  {
    AcceptsAbsent(BurstEntries(n), DedupKey(Numbered(i)), now);
    forall k | 0 <= k < n ensures BurstEntries(n)[k].key != DedupKey(Numbered(i)) {
      if BurstEntries(n)[k].key == DedupKey(Numbered(i)) {
        NumberedDiffer(k + 1, i);
      }
    }
  }

  /** Up to the bound the cache holds all of them. */
  lemma {:induction false} BurstFills(n: nat)
    requires n <= MAX_DEDUP_ENTRIES
    ensures After(Burst(n)).seen == BurstEntries(n)
  {
    if n == 0 {
    } else {
      var a := Arrival(DedupKey(Numbered(n)), 1);
      BurstFills(n - 1);
      assert Burst(n)[..|Burst(n)| - 1] == Burst(n - 1);
      NotInBurst(n - 1, n, 1);
      BurstIsLive(n - 1, 1);
      Received(After(Burst(n - 1)), a);
    }
  }

  /** 2048 different messages at time 1 and then one more at time 0: it is accepted and no longer in the cache. */
  lemma JustAcceptedIsEvicted(n: nat, a: Arrival)
    requires n == MAX_DEDUP_ENTRIES && a == Arrival(DedupKey(Numbered(n + 1)), 0)
    ensures Accepts(Burst(n), a) && Entry(a.key, a.now) !in After(Burst(n) + [a]).seen
  {
    BurstFills(n);
    NotInBurst(n, n + 1, 0);
    BurstIsLive(n, 0);
    JustAcceptedStays(BurstEntries(n), a.key, a.now);
    assert (Burst(n) + [a])[..|Burst(n)|] == Burst(n);
  }
}
