/** The broker's event stream: the frames `broadcast` writes and the incremental decoder of the event listener, a
    subset of the event stream format of section 9.2 of the WHATWG HTML Living Standard. */
module EventStream {
  import opened Common
  import opened Utf8

  // ---------------------------------------------------------------- the encoder

  function Frame(data: string): string {
    "data: " + data + "\n\n"
  }

  function Frames(payloads: seq<string>): string {
    if payloads == [] then "" else Frames(payloads[..|payloads| - 1]) + Frame(payloads[|payloads| - 1])
  }

  /** JSON text never holds a raw newline. */
  predicate SingleLine(s: string) {
    '\n' !in s
  }

  ghost predicate AllSingleLine(payloads: seq<string>) {
    forall p | p in payloads :: SingleLine(p)
  }

  // ---------------------------------------------------------------- the decoder

  /** `text.split('\n')`, with the last piece kept apart. */
  datatype SplitText = SplitText(complete: seq<string>, pending: string)

  function Split(s: string): SplitText {
    if s == "" then SplitText([], "")
    else
      var front := Split(s[..|s| - 1]);
      if s[|s| - 1] == '\n' then SplitText(front.complete + [front.pending], "")
      else SplitText(front.complete, front.pending + [s[|s| - 1]])
  }

  predicate IsDataLine(line: string) {
    "data: " <= line
  }

  /** The payloads of the data lines, in order. */
  function Payloads(lines: seq<string>): seq<string> {
    if lines == [] then []
    else
      var front, line := Payloads(lines[..|lines| - 1]), lines[|lines| - 1];
      if IsDataLine(line) then front + [line[6..]] else front
  }

  /** The payloads whose line is complete in a text. */
  function Delivered(text: string): seq<string> {
    Payloads(Split(text).complete)
  }

  lemma {:induction false} OneLine(s: string)
    requires SingleLine(s)
    ensures Split(s) == SplitText([], s)
  {
    if s == "" {
    } else {
      OneLine(s[..|s| - 1]);
      assert s == s[..|s| - 1] + [s[|s| - 1]];
    }
  }

  /** `p` is the text of `s` after its last newline. */
  predicate IsLastLine(s: string, p: string) {
    && SingleLine(p)
    && |p| <= |s| && s[|s| - |p|..] == p
    && (|p| < |s| ==> s[|s| - |p| - 1] == '\n')
  }

  lemma LastLineGrows(s: string, p: string, c: char)
    requires IsLastLine(s, p) && c != '\n'
    ensures IsLastLine(s + [c], p + [c])
  {
    var t, q := s + [c], p + [c];
    assert t[|t| - |q|..] == s[|s| - |p|..] + [c];
    assert |q| < |t| ==> t[|t| - |q| - 1] == s[|s| - |p| - 1];
  }

  lemma LastLineStarts(s: string)
    ensures IsLastLine(s + ['\n'], "")
  {
  }

  lemma SplitSnoc(s: string, c: char)
    ensures var front := Split(s);
            Split(s + [c]) == if c == '\n' then SplitText(front.complete + [front.pending], "")
                              else SplitText(front.complete, front.pending + [c])
  {
  }

  lemma LastLineStep(s: string, c: char)
    requires IsLastLine(s, Split(s).pending)
    ensures IsLastLine(s + [c], Split(s + [c]).pending)
  {
    SplitSnoc(s, c);
    if c == '\n' {
      LastLineStarts(s);
    } else {
      LastLineGrows(s, Split(s).pending, c);
    }
  }

  /** `buffer` is exactly the text after the last newline. */
  lemma {:induction false} PendingIsLastLine(s: string)
    ensures IsLastLine(s, Split(s).pending)
  {
    if s == "" {
      assert Split(s) == SplitText([], "");
    } else {
      var front, c := s[..|s| - 1], s[|s| - 1];
      assert front + [c] == s;
      PendingIsLastLine(front);
      LastLineStep(front, c);
    }
  }

  lemma {:induction false} SplitConcat(a: string, b: string)
    ensures var whole, front := Split(a + b), Split(a);
            var back := Split(front.pending + b);
            whole == SplitText(front.complete + back.complete, back.pending)
  {
    var pending := Split(a).pending;
    if b == "" {
      assert a + b == a && pending + b == pending;
      PendingIsLastLine(a);
      OneLine(pending);
    } else {
      var b', c := b[..|b| - 1], b[|b| - 1];
      assert (a + b)[..|a + b| - 1] == a + b';
      assert (pending + b)[..|pending + b| - 1] == pending + b';
      SplitConcat(a, b');
    }
  }

  lemma {:induction false} PayloadsConcat(a: seq<string>, b: seq<string>)
    ensures Payloads(a + b) == Payloads(a) + Payloads(b)
  {
    if b == [] {
      assert a + b == a;
    } else {
      assert (a + b)[..|a + b| - 1] == a + b[..|b| - 1];
      PayloadsConcat(a, b[..|b| - 1]);
    }
  }

  class EventStreamDecoder {
    var buffer: string
    ghost var received: string

    ghost predicate Valid()
      reads this
    {
      buffer == Split(received).pending
    }

    constructor ()
      ensures Valid() && received == ""
    {
      buffer, received := "", "";
    }

    /** One `data` event: the payloads handed on are those of the lines this chunk completes. */
    method OnData(chunk: seq<byte>) returns (payloads: seq<string>)
      requires Valid()
      modifies this
      ensures Valid()
      ensures received == old(received) + Decode(chunk)
      ensures Delivered(received) == Delivered(old(received)) + payloads
    {
      buffer := buffer + Decode(chunk);
      var parts := Split(buffer);
      SplitConcat(received, Decode(chunk));
      PayloadsConcat(Split(received).complete, parts.complete);
      received := received + Decode(chunk);
      buffer := parts.pending;
      payloads := [];
      for i := 0 to |parts.complete|
        invariant buffer == parts.pending && received == old(received) + Decode(chunk)
        invariant payloads == Payloads(parts.complete[..i])
      {
        assert parts.complete[..i + 1][..i] == parts.complete[..i];
        if IsDataLine(parts.complete[i]) {
          payloads := payloads + [parts.complete[i][6..]];
        }
      }
      assert parts.complete[..|parts.complete|] == parts.complete;
    }
  }

  /** What the decoder's text is after a sequence of chunks. */
  function Received(chunks: seq<seq<byte>>): string {
    if chunks == [] then "" else Decode(chunks[0]) + Received(chunks[1..])
  }

  // ---------------------------------------------------------------- incremental reading

  lemma DeliveredConcat(a: string, b: string)
    ensures Delivered(a + b) == Delivered(a) + Delivered(Split(a).pending + b)
    ensures Split(a + b).pending == Split(Split(a).pending + b).pending
  {
    SplitConcat(a, b);
    PayloadsConcat(Split(a).complete, Split(Split(a).pending + b).complete);
  }

  // ---------------------------------------------------------------- decoding undoes encoding

  lemma PayloadsSnoc(lines: seq<string>, line: string)
    ensures Payloads(lines + [line]) == Payloads(lines) + if IsDataLine(line) then [line[6..]] else []
  {
  }

  lemma DataLineIsSingle(data: string)
    requires SingleLine(data)
    ensures SingleLine("data: " + data)
  {
  }

  lemma EndedLine(line: string)
    requires SingleLine(line)
    ensures Split(line) == SplitText([], line)
    ensures Split(line + ['\n']) == SplitText([line], "")
    ensures Split(line + ['\n'] + ['\n']) == SplitText([line] + [""], "")
  {
    OneLine(line);
    SplitSnoc(line, '\n');
    assert [] + [line] == [line];
    SplitSnoc(line + ['\n'], '\n');
  }

  lemma DataLinePayload(data: string)
    ensures Payloads(["data: " + data]) == Payloads(["data: " + data] + [""]) == [data]
  {
    var line := "data: " + data;
    assert line[6..] == data;
    PayloadsSnoc([], line);
    assert [] + [line] == [line];
    PayloadsSnoc([line], "");
  }

  lemma FrameParts(data: string, n: nat)
    requires n <= |Frame(data)|
    ensures var line := "data: " + data;
            && |Frame(data)| == |line| + 2
            && Frame(data)[..n]
            == if n <= |line| then line[..n] else if n == |line| + 1 then line + ['\n'] else line + ['\n'] + ['\n']
  {
  }

  /** How much of a frame a reader that has seen `n` of its characters delivers. */
  lemma FramePrefix(data: string, n: nat)
    requires SingleLine(data) && n <= |Frame(data)|
    ensures Delivered(Frame(data)[..n]) == if n < |Frame(data)| - 1 then [] else [data]
    ensures n == |Frame(data)| ==> Split(Frame(data)[..n]).pending == ""
  {
    var line := "data: " + data;
    DataLineIsSingle(data);
    FrameParts(data, n);
    if n <= |line| {
      OneLine(line[..n]);
    } else {
      EndedLine(line);
      DataLinePayload(data);
    }
  }

  /** The number of payloads whose data line is complete within the first `n` characters. */
  function Arrived(payloads: seq<string>, n: nat): (k: nat)
    ensures k <= |payloads|
  {
    if payloads == [] then 0
    else
      var front := payloads[..|payloads| - 1];
      if n < |Frames(payloads)| - 1 then Arrived(front, n) else |payloads|
  }

  /** Where a prefix that reaches into the last frame is cut. */
  lemma FramesSnoc(payloads: seq<string>, n: nat)
    requires payloads != []
    requires |Frames(payloads[..|payloads| - 1])| <= n <= |Frames(payloads)|
    ensures var front := Frames(payloads[..|payloads| - 1]);
            Frames(payloads)[..n] == front + Frame(payloads[|payloads| - 1])[..n - |front|]
  {
  }

  lemma LastFrame(front: seq<string>, text: string, data: string, m: nat)
    requires SingleLine(data) && m <= |Frame(data)|
    requires Delivered(text) == front && Split(text).pending == ""
    ensures Delivered(text + Frame(data)[..m]) == if m < |Frame(data)| - 1 then front else front + [data]
    ensures m == |Frame(data)| ==> Split(text + Frame(data)[..m]).pending == ""
  {
    DeliveredConcat(text, Frame(data)[..m]);
    FramePrefix(data, m);
    assert "" + Frame(data)[..m] == Frame(data)[..m];
  }

  lemma WholeLastFrame(front: seq<string>, text: string, data: string)
    requires SingleLine(data) && Delivered(text) == front && Split(text).pending == ""
    ensures Delivered(text + Frame(data)) == front + [data] && Split(text + Frame(data)).pending == ""
  {
    LastFrame(front, text, data, |Frame(data)|);
    assert Frame(data)[..|Frame(data)|] == Frame(data);
  }

  /** The whole stream reads back as the payloads. */
  lemma {:induction false} FramesRead(payloads: seq<string>)
    requires AllSingleLine(payloads)
    ensures Delivered(Frames(payloads)) == payloads
    ensures Split(Frames(payloads)).pending == ""
  {
    if payloads == [] {
    } else {
      var front, last := payloads[..|payloads| - 1], payloads[|payloads| - 1];
      FramesRead(front);
      WholeLastFrame(front, Frames(front), last);
      assert front + [last] == payloads;
    }
  }

  lemma EarlierFrames(payloads: seq<string>, n: nat)
    requires payloads != [] && n < |Frames(payloads[..|payloads| - 1])|
    ensures Frames(payloads)[..n] == Frames(payloads[..|payloads| - 1])[..n]
    ensures Arrived(payloads, n) == Arrived(payloads[..|payloads| - 1], n)
    ensures payloads[..Arrived(payloads, n)] == payloads[..|payloads| - 1][..Arrived(payloads[..|payloads| - 1], n)]
  {
  }

  lemma AllArrived(payloads: seq<string>)
    ensures Arrived(payloads, |Frames(payloads)|) == |payloads|
    ensures forall n: nat | n >= |Frames(payloads)| :: Arrived(payloads, n) == |payloads|
  {
  }

  lemma LastArrived(payloads: seq<string>, n: nat)
    requires payloads != [] && |Frames(payloads[..|payloads| - 1])| <= n <= |Frames(payloads)|
    ensures var front, last := payloads[..|payloads| - 1], payloads[|payloads| - 1];
            payloads[..Arrived(payloads, n)] == if n < |Frames(payloads)| - 1 then front else front + [last]
  {
    AllArrived(payloads[..|payloads| - 1]);
  }

  lemma PrefixOfLast(payloads: seq<string>, n: nat)
    requires payloads != [] && AllSingleLine(payloads)
    requires |Frames(payloads[..|payloads| - 1])| <= n <= |Frames(payloads)|
    ensures Delivered(Frames(payloads)[..n]) == payloads[..Arrived(payloads, n)]
    ensures n == |Frames(payloads)| ==> Split(Frames(payloads)[..n]).pending == ""
  {
    var front, last := payloads[..|payloads| - 1], payloads[|payloads| - 1];
    FramesRead(front);
    FramesSnoc(payloads, n);
    LastFrame(front, Frames(front), last, n - |Frames(front)|);
    LastArrived(payloads, n);
  }

  /** After any prefix of the stream, exactly the payloads whose line is complete have been delivered, in order. */
  lemma {:induction false} PrefixDelivers(payloads: seq<string>, n: nat)
    requires AllSingleLine(payloads) && n <= |Frames(payloads)|
    ensures Delivered(Frames(payloads)[..n]) == payloads[..Arrived(payloads, n)]
    ensures n == |Frames(payloads)| ==> Split(Frames(payloads)[..n]).pending == ""
  {
    if payloads == [] {
    } else if n < |Frames(payloads[..|payloads| - 1])| {
      PrefixDelivers(payloads[..|payloads| - 1], n);
      EarlierFrames(payloads, n);
    } else {
      PrefixOfLast(payloads, n);
    }
  }
}
