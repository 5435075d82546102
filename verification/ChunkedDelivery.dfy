/** Chunk boundaries and characters. The listener decodes each chunk of bytes by itself
    (`chunk.toString()`), so what arrives depends on where the stream is cut. */
module ChunkedDelivery {
  import opened Common
  import opened Utf8
  import opened EventStream

  /** A chunk that begins and ends between characters: decoding and encoding it again changes nothing. */
  predicate WholeCharacters(chunk: seq<byte>) {
    Encode(Decode(chunk)) == chunk
  }

  ghost predicate AllWhole(chunks: seq<seq<byte>>) {
    forall k | 0 <= k < |chunks| :: WholeCharacters(chunks[k])
  }

  function Replacements(n: nat): string {
    seq(n, i => REPLACEMENT)
  }

  /** What one sent character may arrive as: itself or, when a chunk boundary falls inside its bytes, two or more
      replacement characters. */
  predicate ArrivesAs(c: char, piece: string) {
    piece == [c] || (c as int >= 0x80 && |piece| >= 2 && piece == Replacements(|piece|))
  }

  ghost predicate Pieces(text: string, pieces: seq<string>) {
    |pieces| == |text| && forall i | 0 <= i < |text| :: ArrivesAs(text[i], pieces[i])
  }

  lemma EncodeWhole(s: string)
    ensures Decode(Encode(s)) == s && WholeCharacters(Encode(s))
  {
    DecodeEncode(s, []);
    assert Encode(s) + [] == Encode(s);
    assert s + Decode([]) == s;
  }

  /** Cutting a leading whole character off a chunk. */
  lemma ChunkAfterChar(c: char, chunk: seq<byte>, rest: seq<byte>)
    requires chunk == EncodeChar(c) + rest
    ensures Decode(chunk) == [c] + Decode(rest)
    ensures WholeCharacters(rest) ==> WholeCharacters(chunk)
  {
    DecodeWholeChar(c, rest);
    assert ([c] + Decode(rest))[1..] == Decode(rest);
  }

  // ---------------------------------------------------------------- what arrives

  /** The state of the transfer: the chunks still to come carry the last bytes of a cut character and then `text`. */
  ghost predicate Carries(chunks: seq<seq<byte>>, stray: seq<byte>, text: string) {
    && Flatten(chunks) == stray + Encode(text)
    && (forall k | 0 <= k < |stray| :: IsContinuation(stray[k]))
  }

  ghost predicate AllSingle(pieces: seq<string>) {
    forall k | 0 <= k < |pieces| :: |pieces[k]| == 1
  }

  ghost predicate Reassembled(chunks: seq<seq<byte>>, stray: seq<byte>, text: string, pieces: seq<string>) {
    && Pieces(text, pieces)
    && Received(chunks) == Replacements(|stray|) + Flatten(pieces)
    && (stray == [] && AllSingle(pieces) ==> AllWhole(chunks))
  }

  function Bytes(chunks: seq<seq<byte>>): nat {
    if chunks == [] then 0 else |chunks[0]| + 1 + Bytes(chunks[1..])
  }

  lemma NothingLeft(stray: seq<byte>, text: string)
    requires Carries([], stray, text)
    ensures stray == [] && text == ""
  {
  }

  lemma TextRemains(chunks: seq<seq<byte>>, text: string)
    requires Carries(chunks, [], text) && chunks != [] && chunks[0] != []
    ensures text != ""
  {
  }

  lemma EmptyChunk(chunks: seq<seq<byte>>, stray: seq<byte>, text: string, pieces: seq<string>)
    requires chunks != [] && chunks[0] == []
    requires Reassembled(chunks[1..], stray, text, pieces)
    ensures Reassembled(chunks, stray, text, pieces)
  {
  }

  lemma TakeStray(chunks: seq<seq<byte>>, rest: seq<seq<byte>>, stray: seq<byte>, text: string)
    requires Carries(chunks, stray, text) && stray != [] && chunks != [] && chunks[0] != []
    requires rest == [chunks[0][1..]] + chunks[1..]
    ensures chunks[0][0] == stray[0] && IsContinuation(stray[0])
    ensures Carries(rest, stray[1..], text)
    ensures Bytes(rest) < Bytes(chunks)
  {
    assert rest[1..] == chunks[1..];
    assert Flatten(chunks)[0] == stray[0];
    assert Flatten(chunks)[1..] == stray[1..] + Encode(text);
    assert Flatten(chunks)[1..] == chunks[0][1..] + Flatten(chunks[1..]);
  }

  lemma FrontChunk(chunk: seq<byte>, others: seq<seq<byte>>)
    ensures Received([chunk] + others) == Decode(chunk) + Received(others)
    ensures AllWhole([chunk] + others) <==> WholeCharacters(chunk) && AllWhole(others)
  {
  }

  lemma AfterStray(chunk: seq<byte>, others: seq<seq<byte>>, stray: seq<byte>, text: string, pieces: seq<string>)
    requires stray != [] && chunk != [] && chunk[0] == stray[0] && IsContinuation(stray[0])
    requires Reassembled([chunk[1..]] + others, stray[1..], text, pieces)
    ensures Reassembled([chunk] + others, stray, text, pieces)
  {
    assert chunk == [chunk[0]] + chunk[1..];
    DecodeStrayByte(chunk[0], chunk[1..]);
    FrontChunk(chunk, others);
    FrontChunk(chunk[1..], others);
    assert Replacements(|stray|) == [REPLACEMENT] + Replacements(|stray[1..]|);
    Regroup([REPLACEMENT], Decode(chunk[1..]), Received(others));
    Regroup([REPLACEMENT], Replacements(|stray[1..]|), Flatten(pieces));
  }

  /** Two ways of cutting one sequence in two agree on the shorter front. */
  lemma SameStart<T>(a: seq<T>, rest: seq<T>, b: seq<T>, after: seq<T>)
    requires a + rest == b + after && |a| <= |b|
    ensures b == a + b[|a|..]
    ensures rest == b[|a|..] + after
  {
    assert b == (b + after)[..|b|] == (a + rest)[..|b|];
    assert b[..|a|] == a;
    assert rest == (a + rest)[|a|..];
    assert (b + after)[|a|..] == b[|a|..] + after;
  }

  lemma TakeChar(chunks: seq<seq<byte>>, rest: seq<seq<byte>>, text: string)
    requires Carries(chunks, [], text) && text != "" && chunks != [] && |EncodeChar(text[0])| <= |chunks[0]|
    requires rest == [chunks[0][|EncodeChar(text[0])|..]] + chunks[1..]
    ensures chunks[0] == EncodeChar(text[0]) + rest[0]
    ensures Carries(rest, [], text[1..])
    ensures Bytes(rest) < Bytes(chunks)
  {
    var e := EncodeChar(text[0]);
    assert rest[1..] == chunks[1..];
    SameStart(e, Encode(text[1..]), chunks[0], Flatten(chunks[1..]));
    assert Flatten(chunks) == e + Encode(text[1..]);
    assert [] + Encode(text[1..]) == Encode(text[1..]);
  }

  lemma FrontPiece(text: string, piece: string, tail: seq<string>)
    requires text != ""
    ensures Pieces(text, [piece] + tail) <==> ArrivesAs(text[0], piece) && Pieces(text[1..], tail)
    ensures Flatten([piece] + tail) == piece + Flatten(tail)
    ensures AllSingle([piece] + tail) <==> |piece| == 1 && AllSingle(tail)
  {
  }

  lemma AfterChar(chunk: seq<byte>, remains: seq<byte>, others: seq<seq<byte>>, text: string, tail: seq<string>)
    requires text != "" && chunk == EncodeChar(text[0]) + remains
    requires Reassembled([remains] + others, [], text[1..], tail)
    ensures Reassembled([chunk] + others, [], text, [[text[0]]] + tail)
  {
    ChunkAfterChar(text[0], chunk, remains);
    FrontPiece(text, [text[0]], tail);
    FrontChunk(chunk, others);
    FrontChunk(remains, others);
    Regroup([text[0]], Decode(remains), Received(others));
    assert Replacements(0) + Flatten(tail) == Flatten(tail);
    assert Replacements(0) + Flatten([[text[0]]] + tail) == Flatten([[text[0]]] + tail);
  }

  lemma TakeCutChar(chunks: seq<seq<byte>>, text: string)
    requires Carries(chunks, [], text) && text != "" && chunks != []
    requires 0 < |chunks[0]| < |EncodeChar(text[0])|
    ensures var e := EncodeChar(text[0]);
            && chunks[0] == e[..|chunks[0]|]
            && text[0] as int >= 0x80
            && Carries(chunks[1..], e[|chunks[0]|..], text[1..])
  {
    var e := EncodeChar(text[0]);
    EncodedCharShape(text[0]);
    assert Flatten(chunks) == e + Encode(text[1..]);
    SameStart(chunks[0], Flatten(chunks[1..]), e, Encode(text[1..]));
  }

  lemma CutCharPieces(text: string, n: nat, tail: seq<string>)
    requires text != "" && text[0] as int >= 0x80 && n > 0 && Pieces(text[1..], tail)
    ensures Pieces(text, [Replacements(1 + n)] + tail) && !AllSingle([Replacements(1 + n)] + tail)
    ensures Flatten([Replacements(1 + n)] + tail) == [REPLACEMENT] + (Replacements(n) + Flatten(tail))
  {
    FrontPiece(text, Replacements(1 + n), tail);
    assert Replacements(1 + n) == [REPLACEMENT] + Replacements(n);
    Regroup([REPLACEMENT], Replacements(n), Flatten(tail));
  }

  lemma AfterCutChar(chunks: seq<seq<byte>>, text: string, tail: seq<string>)
    requires text != "" && chunks != [] && 0 < |chunks[0]| < |EncodeChar(text[0])|
    requires text[0] as int >= 0x80 && chunks[0] == EncodeChar(text[0])[..|chunks[0]|]
    requires Reassembled(chunks[1..], EncodeChar(text[0])[|chunks[0]|..], text[1..], tail)
    ensures Reassembled(chunks, [], text, [Replacements(1 + |EncodeChar(text[0])| - |chunks[0]|)] + tail)
  {
    var n := |EncodeChar(text[0])| - |chunks[0]|;
    DecodeCutChar(text[0], |chunks[0]|);
    CutCharPieces(text, n, tail);
    assert Received(chunks) == [REPLACEMENT] + Received(chunks[1..]);
    assert Replacements(0) + Flatten([Replacements(1 + n)] + tail) == Flatten([Replacements(1 + n)] + tail);
  }

  /** However the bytes are cut, each character arrives as itself or as replacements, and as itself throughout only
      if no cut falls inside a character. */
  lemma {:induction false} Reassemble(chunks: seq<seq<byte>>, stray: seq<byte>, text: string)
    returns (pieces: seq<string>)
    requires Carries(chunks, stray, text)
    ensures Reassembled(chunks, stray, text, pieces)
    decreases Bytes(chunks)
  {
    if chunks == [] {
      NothingLeft(stray, text);
      pieces := [];
    } else if chunks[0] == [] {
      pieces := Reassemble(chunks[1..], stray, text);
      EmptyChunk(chunks, stray, text, pieces);
    } else if stray != [] {
      assert chunks == [chunks[0]] + chunks[1..];
      var rest := [chunks[0][1..]] + chunks[1..];
      TakeStray(chunks, rest, stray, text);
      pieces := Reassemble(rest, stray[1..], text);
      AfterStray(chunks[0], chunks[1..], stray, text, pieces);
    } else {
      assert chunks == [chunks[0]] + chunks[1..];
      TextRemains(chunks, text);
      var e := EncodeChar(text[0]);
      if |e| <= |chunks[0]| {
        var rest := [chunks[0][|e|..]] + chunks[1..];
        TakeChar(chunks, rest, text);
        var tail := Reassemble(rest, [], text[1..]);
        pieces := [[text[0]]] + tail;
        AfterChar(chunks[0], rest[0], chunks[1..], text, tail);
      } else {
        TakeCutChar(chunks, text);
        var tail := Reassemble(chunks[1..], e[|chunks[0]|..], text[1..]);
        pieces := [Replacements(1 + |e| - |chunks[0]|)] + tail;
        AfterCutChar(chunks, text, tail);
      }
    }
  }

  // ---------------------------------------------------------------- frames stay frames

  lemma TakePiece(text: string, pieces: seq<string>)
    requires text != "" && Pieces(text, pieces)
    ensures ArrivesAs(text[0], pieces[0]) && Pieces(text[1..], pieces[1..])
    ensures AllSingle(pieces) <==> |pieces[0]| == 1 && AllSingle(pieces[1..])
  {
  }

  lemma {:induction false} AsciiArrives(text: string, pieces: seq<string>)
    requires Pieces(text, pieces) && forall i | 0 <= i < |text| :: text[i] as int < 0x80
    ensures Flatten(pieces) == text
  {
    if text == "" {
    } else {
      TakePiece(text, pieces);
      AsciiArrives(text[1..], pieces[1..]);
    }
  }

  lemma {:induction false} SingleLineArrives(text: string, pieces: seq<string>)
    requires Pieces(text, pieces) && SingleLine(text)
    ensures SingleLine(Flatten(pieces))
  {
    if text == "" {
    } else {
      TakePiece(text, pieces);
      SingleLineArrives(text[1..], pieces[1..]);
      assert SingleLine(pieces[0]);
    }
  }

  lemma PiecesConcat(a: string, b: string, pieces: seq<string>)
    requires Pieces(a + b, pieces)
    ensures Pieces(a, pieces[..|a|]) && Pieces(b, pieces[|a|..])
    ensures Flatten(pieces) == Flatten(pieces[..|a|]) + Flatten(pieces[|a|..])
  {
    assert pieces == pieces[..|a|] + pieces[|a|..];
    FlattenConcat(pieces[..|a|], pieces[|a|..]);
    assert forall i | 0 <= i < |a| :: (a + b)[i] == a[i];
    assert forall i | 0 <= i < |b| :: (a + b)[|a| + i] == b[i];
  }

  lemma FrameArrives(data: string, pieces: seq<string>) returns (seen: string)
    requires SingleLine(data) && Pieces(Frame(data), pieces)
    ensures SingleLine(seen) && Flatten(pieces) == Frame(seen)
  {
    PiecesConcat("data: " + data, "\n\n", pieces);
    var front := pieces[..|"data: " + data|];
    AsciiArrives("\n\n", pieces[|"data: " + data|..]);
    PiecesConcat("data: ", data, front);
    AsciiArrives("data: ", front[..6]);
    SingleLineArrives(data, front[6..]);
    seen := Flatten(front[6..]);
  }

  lemma {:induction false} FramesArrive(payloads: seq<string>, pieces: seq<string>) returns (seen: seq<string>)
    requires AllSingleLine(payloads) && Pieces(Frames(payloads), pieces)
    ensures AllSingleLine(seen) && |seen| == |payloads| && Flatten(pieces) == Frames(seen)
  {
    if payloads == [] {
      seen := [];
    } else {
      var front, data := payloads[..|payloads| - 1], payloads[|payloads| - 1];
      var cut := |Frames(front)|;
      PiecesConcat(Frames(front), Frame(data), pieces);
      var before := FramesArrive(front, pieces[..cut]);
      var last := FrameArrives(data, pieces[cut..]);
      seen := before + [last];
      assert seen[..|seen| - 1] == before;
    }
  }

  // ---------------------------------------------------------------- main results

  /** Cuts between characters do not matter: the text received is the text sent. */
  lemma {:induction false} WholeChunksAddUp(chunks: seq<seq<byte>>)
    requires AllWhole(chunks)
    ensures Encode(Received(chunks)) == Flatten(chunks)
  {
    if chunks == [] {
    } else {
      assert chunks == [chunks[0]] + chunks[1..];
      FrontChunk(chunks[0], chunks[1..]);
      WholeChunksAddUp(chunks[1..]);
      EncodeConcat(Decode(chunks[0]), Received(chunks[1..]));
    }
  }

  lemma WholeChunksReceive(chunks: seq<seq<byte>>, text: string)
    requires AllWhole(chunks) && Flatten(chunks) == Encode(text)
    ensures Received(chunks) == text
  {
    WholeChunksAddUp(chunks);
    EncodeWhole(Received(chunks));
    EncodeWhole(text);
  }

  lemma {:induction false} SameLengthPieces(text: string, pieces: seq<string>)
    requires Pieces(text, pieces)
    ensures |Flatten(pieces)| >= |text|
    ensures |Flatten(pieces)| == |text| ==> AllSingle(pieces)
  {
    if text == "" {
    } else {
      TakePiece(text, pieces);
      SameLengthPieces(text[1..], pieces[1..]);
    }
  }

  /** The payloads handed on are the payloads broadcast exactly when no chunk boundary falls inside a character. */
  lemma DeliveryIsExact(chunks: seq<seq<byte>>, payloads: seq<string>)
    requires AllSingleLine(payloads) && Flatten(chunks) == Encode(Frames(payloads))
    ensures Delivered(Received(chunks)) == payloads <==> AllWhole(chunks)
  {
    var text := Frames(payloads);
    FramesRead(payloads);
    if AllWhole(chunks) {
      WholeChunksReceive(chunks, text);
    }
    assert [] + Encode(text) == Encode(text);
    var pieces := Reassemble(chunks, [], text);
    assert Received(chunks) == Flatten(pieces);
    var seen := FramesArrive(payloads, pieces);
    FramesRead(seen);
    if Delivered(Received(chunks)) == payloads {
      SameLengthPieces(text, pieces);
    }
  }

  /** Whatever the cuts between characters, after any chunks the payloads handed on are those whose line is complete. */
  lemma PartialDelivery(chunks: seq<seq<byte>>, payloads: seq<string>, n: nat)
    requires AllSingleLine(payloads) && n <= |Frames(payloads)|
    requires AllWhole(chunks) && Flatten(chunks) == Encode(Frames(payloads)[..n])
    ensures Delivered(Received(chunks)) == payloads[..Arrived(payloads, n)]
  {
    WholeChunksReceive(chunks, Frames(payloads)[..n]);
    PrefixDelivers(payloads, n);
  }

  lemma {:induction false} AsciiLength(s: string)
    requires forall i | 0 <= i < |s| :: s[i] as int < 0x80
    ensures |Encode(s)| == |s|
  {
    if s == "" {
    } else {
      AsciiLength(s[1..]);
      EncodedCharShape(s[0]);
    }
  }

  lemma LoneLeadIsReplaced(front: string)
    ensures !WholeCharacters(Encode(front) + [0xC3])
  {
    DecodeEncode(front, [0xC3]);
    assert Decode([0xC3]) == [REPLACEMENT] by { assert [0xC3 as byte][1..] == []; }
    EncodeConcat(front, [REPLACEMENT]);
    assert Encode([REPLACEMENT])[0] == 0xEF;
  }

  lemma AccentBytes()
    ensures |Encode("\U{e9}\n\n")| == 4 && Encode("\U{e9}\n\n")[0] == 0xC3
  {
    assert "\U{e9}\n\n"[1..] == "\n\n" && "\U{e9}\n\n"[0] == '\U{e9}';
    AsciiLength("\n\n");
    assert EncodeChar('\U{e9}') == [0xC3, 0xA9];
  }

  lemma CutBytes()
    ensures |Encode("data: \U{e9}\n\n")| == 10
    ensures !WholeCharacters(Encode("data: \U{e9}\n\n")[..7])
  {
    var front, e := Encode("data: "), Encode("\U{e9}\n\n");
    assert "data: \U{e9}\n\n" == "data: " + "\U{e9}\n\n";
    EncodeConcat("data: ", "\U{e9}\n\n");
    AsciiLength("data: ");
    AccentBytes();
    assert (front + e)[..7] == front + [0xC3];
    LoneLeadIsReplaced("data: ");
  }

  /** A two-byte character cut in the middle: one event is sent and a different one is handed on. */
  lemma CutCharacterIsLost(chunks: seq<seq<byte>>)
    requires |chunks| == 2 && Flatten(chunks) == Encode(Frames(["\U{e9}"])) && |chunks[0]| == 7
    ensures Delivered(Received(chunks)) != ["\U{e9}"]
  {
    var text := "data: \U{e9}\n\n";
    assert Frames(["\U{e9}"]) == text;
    CutBytes();
    SameStart(chunks[0], Flatten(chunks[1..]), Encode(text), []);
    DeliveryIsExact(chunks, ["\U{e9}"]);
  }

  // ---------------------------------------------------------------- each payload, at any moment

  /** The chunks up to byte `n`, and from byte `n` on. */
  function Take(chunks: seq<seq<byte>>, n: nat): seq<seq<byte>> {
    if n == 0 || chunks == [] then []
    else if |chunks[0]| <= n then [chunks[0]] + Take(chunks[1..], n - |chunks[0]|)
    else [chunks[0][..n]]
  }

  function Skip(chunks: seq<seq<byte>>, n: nat): seq<seq<byte>> {
    if n == 0 || chunks == [] then chunks
    else if |chunks[0]| <= n then Skip(chunks[1..], n - |chunks[0]|)
    else [chunks[0][n..]] + chunks[1..]
  }

  /** Cutting after `n` bytes loses nothing and changes nothing that is read. */
  ghost predicate CutsClean(chunks: seq<seq<byte>>, n: nat) {
    && Received(chunks) == Received(Take(chunks, n)) + Received(Skip(chunks, n))
    && Flatten(chunks) == Flatten(Take(chunks, n)) + Flatten(Skip(chunks, n))
    && (n <= |Flatten(chunks)| ==> |Flatten(Take(chunks, n))| == n)
    && (n > |Flatten(chunks)| ==> Take(chunks, n) == chunks && Skip(chunks, n) == [])
  }

  lemma FrontPieces(c: seq<byte>, rest: seq<seq<byte>>)
    ensures Flatten([c] + rest) == c + Flatten(rest)
  {
    assert ([c] + rest)[1..] == rest;
  }

  lemma FrontOfTake(chunks: seq<seq<byte>>, n: nat)
    requires chunks != [] && 0 < n && |chunks[0]| <= n && CutsClean(chunks[1..], n - |chunks[0]|)
    ensures CutsClean(chunks, n)
  {
    var c, rest := chunks[0], Take(chunks[1..], n - |chunks[0]|);
    assert Take(chunks, n) == [c] + rest && Skip(chunks, n) == Skip(chunks[1..], n - |c|);
    FrontChunk(c, rest);
    FrontPieces(c, rest);
    Regroup(Decode(c), Received(rest), Received(Skip(chunks, n)));
    Regroup(c, Flatten(rest), Flatten(Skip(chunks, n)));
    assert chunks == [c] + chunks[1..];
  }

  lemma CutFirst(chunks: seq<seq<byte>>, n: nat)
    requires chunks != [] && 0 < n < |chunks[0]|
    ensures var c := chunks[0];
            && Received(Take(chunks, n)) == Decode(c[..n]) && Flatten(Take(chunks, n)) == c[..n]
            && Received(Skip(chunks, n)) == Decode(c[n..]) + Received(chunks[1..])
            && Flatten(Skip(chunks, n)) == c[n..] + Flatten(chunks[1..])
  {
    var c := chunks[0];
    assert [c[..n]][1..] == [];
    assert ([c[n..]] + chunks[1..])[1..] == chunks[1..];
  }

  lemma CutInFirst(chunks: seq<seq<byte>>, n: nat)
    requires chunks != [] && 0 < n < |chunks[0]| && Flatten(chunks)[n] < 0x80
    ensures CutsClean(chunks, n)
  {
    var c := chunks[0];
    CutFirst(chunks, n);
    assert c == c[..n] + c[n..];
    DecodeAtAscii(c[..n], c[n..]);
    Regroup(Decode(c[..n]), Decode(c[n..]), Received(chunks[1..]));
    Regroup(c[..n], c[n..], Flatten(chunks[1..]));
  }

  /** Before an ASCII byte, which every frame starts with, cutting is clean. */
  lemma {:induction false} CutBeforeAscii(chunks: seq<seq<byte>>, n: nat)
    requires n < |Flatten(chunks)| ==> Flatten(chunks)[n] < 0x80
    ensures CutsClean(chunks, n)
  {
    if n == 0 || chunks == [] {
    } else if |chunks[0]| <= n {
      CutBeforeAscii(chunks[1..], n - |chunks[0]|);
      FrontOfTake(chunks, n);
    } else {
      CutInFirst(chunks, n);
    }
  }

  /** How many bytes carry the frames before the last. */
  function LastStart(payloads: seq<string>): nat
    requires payloads != []
  {
    |Encode(Frames(payloads[..|payloads| - 1]))|
  }

  /** The parts of the chunks that carry each frame. */
  function Shares(chunks: seq<seq<byte>>, payloads: seq<string>): (shares: seq<seq<seq<byte>>>)
    ensures |shares| == |payloads|
    decreases |payloads|
  {
    if payloads == [] then []
    else
      Shares(Take(chunks, LastStart(payloads)), payloads[..|payloads| - 1]) + [Skip(chunks, LastStart(payloads))]
  }

  /** How many payloads have their line complete after `n` bytes. */
  function Completed(payloads: seq<string>, n: nat): (k: nat)
    ensures k <= |payloads|
  {
    if payloads == [] then 0
    else if n < |Encode(Frames(payloads))| - 1 then Completed(payloads[..|payloads| - 1], n)
    else |payloads|
  }

  // ------------------------------------------------ one frame

  lemma {:induction false} ChunkAdds(chunks: seq<seq<byte>>, last: seq<byte>)
    ensures Received(chunks + [last]) == Received(chunks) + Decode(last)
    ensures Flatten(chunks + [last]) == Flatten(chunks) + last
  {
    if chunks == [] {
      assert chunks + [last] == [last] && [last][1..] == [];
    } else {
      var c, rest := chunks[0], chunks[1..];
      ChunkAdds(rest, last);
      assert (chunks + [last])[1..] == rest + [last];
      Regroup(Decode(c), Received(rest), Decode(last));
      Regroup(c, Flatten(rest), last);
    }
  }

  lemma WholeAdds(chunks: seq<seq<byte>>, last: seq<byte>)
    ensures AllWhole(chunks + [last]) <==> AllWhole(chunks) && WholeCharacters(last)
  {
    var all := chunks + [last];
    assert all[|chunks|] == last;
    assert forall k | 0 <= k < |chunks| :: all[k] == chunks[k];
  }

  /** All of a frame has arrived. */
  lemma WholeFrame(chunks: seq<seq<byte>>, data: string) returns (seen: string)
    requires SingleLine(data) && Flatten(chunks) == Encode(Frame(data))
    ensures SingleLine(seen) && Received(chunks) == Frame(seen) && (seen == data <==> AllWhole(chunks))
  {
    assert Frames([data][..0]) == "" && Frames([data]) == "" + Frame(data) == Frame(data);
    DeliveryIsExact(chunks, [data]);
    assert [] + Encode(Frame(data)) == Encode(Frame(data));
    var pieces := Reassemble(chunks, [], Frame(data));
    seen := FrameArrives(data, pieces);
    FramePrefix(seen, |Frame(seen)|);
    assert Frame(seen)[..|Frame(seen)|] == Frame(seen);
  }

  /** All but the last newline of a frame has arrived. */
  lemma LineArrived(chunks: seq<seq<byte>>, data: string) returns (seen: string)
    requires SingleLine(data) && Flatten(chunks) == Encode("data: " + data + "\n")
    ensures SingleLine(seen) && Received(chunks) == "data: " + seen + "\n" && (seen == data <==> AllWhole(chunks))
  {
    ChunkAdds(chunks, Encode("\n"));
    WholeAdds(chunks, Encode("\n"));
    EncodeConcat("data: " + data + "\n", "\n");
    assert "data: " + data + "\n" + "\n" == Frame(data);
    EncodeWhole("\n");
    seen := WholeFrame(chunks + [Encode("\n")], data);
    assert Frame(seen) == "data: " + seen + "\n" + "\n";
    assert Received(chunks) == Frame(seen)[..|Frame(seen)| - 1];
  }

  /** A line that has not been ended yet. */
  lemma LineOpen(chunks: seq<seq<byte>>, line: string)
    requires SingleLine(line) && Flatten(chunks) <= Encode(line)
    ensures SingleLine(Received(chunks))
  {
    var rest := Encode(line)[|Flatten(chunks)|..];
    ChunkAdds(chunks, rest);
    assert [] + Encode(line) == Encode(line);
    var pieces := Reassemble(chunks + [rest], [], line);
    SingleLineArrives(line, pieces);
    assert Received(chunks + [rest]) == Flatten(pieces);
    assert Received(chunks) <= Flatten(pieces);
  }

  lemma FrameBytes(data: string)
    ensures Encode(Frame(data)) == Encode("data: " + data) + Encode("\n") + Encode("\n")
    ensures Encode("data: " + data + "\n") == Encode("data: " + data) + Encode("\n")
    ensures |Encode("\n")| == 1
  {
    assert Frame(data) == "data: " + data + "\n" + "\n";
    EncodeConcat("data: " + data, "\n");
    EncodeConcat("data: " + data + "\n", "\n");
  }

  /** What a reader has from the parts of one frame. */
  ghost predicate FrameRead(chunks: seq<seq<byte>>, data: string, text: string) {
    var n, m := |Flatten(chunks)|, |Encode(Frame(data))|;
    && (n < m - 1 ==> Delivered(text) == [])
    && (n >= m - 1 ==> |Delivered(text)| == 1 && (Delivered(text)[0] == data <==> AllWhole(chunks)))
    && (n == m ==> Split(text).pending == "")
  }

  lemma OneFrame(chunks: seq<seq<byte>>, data: string)
    requires SingleLine(data) && Flatten(chunks) <= Encode(Frame(data))
    ensures FrameRead(chunks, data, Received(chunks))
  {
    var n, m := |Flatten(chunks)|, |Encode(Frame(data))|;
    FrameBytes(data);
    if n == m {
      var seen := WholeFrame(chunks, data);
      FramePrefix(seen, |Frame(seen)|);
      assert Frame(seen)[..|Frame(seen)|] == Frame(seen);
    } else if n == m - 1 {
      assert Flatten(chunks) == Encode("data: " + data + "\n");
      var seen := LineArrived(chunks, data);
      FramePrefix(seen, |Frame(seen)| - 1);
      assert Frame(seen)[..|Frame(seen)| - 1] == "data: " + seen + "\n";
    } else {
      assert Flatten(chunks) <= Encode("data: " + data);
      DataLineIsSingle(data);
      LineOpen(chunks, "data: " + data);
      OneLine(Received(chunks));
    }
  }

  // ------------------------------------------------ the whole stream

  ghost predicate IsExact(chunks: seq<seq<byte>>, payloads: seq<string>, got: seq<string>, i: nat)
    requires i < |got| <= |payloads|
  {
    got[i] == payloads[i] <==> AllWhole(Shares(chunks, payloads)[i])
  }

  /** The payloads handed on so far are those whose line is complete, and each is the one sent exactly when the parts of
      the chunks that carry its frame are whole characters. */
  ghost predicate ExactSoFar(chunks: seq<seq<byte>>, payloads: seq<string>, got: seq<string>) {
    && |got| == Completed(payloads, |Flatten(chunks)|)
    && forall i | 0 <= i < |got| :: IsExact(chunks, payloads, got, i)
  }

  lemma FramesBytes(payloads: seq<string>)
    requires payloads != []
    ensures Encode(Frames(payloads))
         == Encode(Frames(payloads[..|payloads| - 1])) + Encode(Frame(payloads[|payloads| - 1]))
    ensures |Encode(Frames(payloads))| >= LastStart(payloads) + 2
    ensures Encode(Frames(payloads))[LastStart(payloads)] < 0x80
  {
    var last := payloads[|payloads| - 1];
    EncodeConcat(Frames(payloads[..|payloads| - 1]), Frame(last));
    assert Frame(last)[0] == 'd';
    FrameBytes(last);
  }

  /** What each frame's parts are, in terms of the last one's and the others'. */
  lemma ShareAt(chunks: seq<seq<byte>>, payloads: seq<string>, i: nat)
    requires i < |payloads|
    ensures Shares(chunks, payloads)[i]
         == if i < |payloads| - 1 then Shares(Take(chunks, LastStart(payloads)), payloads[..|payloads| - 1])[i]
            else Skip(chunks, LastStart(payloads))
  {
  }

  /** The last frame has not begun to arrive. */
  lemma BeforeLast(chunks: seq<seq<byte>>, payloads: seq<string>, got: seq<string>)
    requires payloads != [] && |Flatten(chunks)| <= LastStart(payloads)
    requires Take(chunks, LastStart(payloads)) == chunks
    requires ExactSoFar(chunks, payloads[..|payloads| - 1], got)
    ensures ExactSoFar(chunks, payloads, got)
  {
    FramesBytes(payloads);
    forall i | 0 <= i < |got| ensures IsExact(chunks, payloads, got, i) {
      assert IsExact(chunks, payloads[..|payloads| - 1], got, i);
      ShareAt(chunks, payloads, i);
    }
  }

  lemma AllCompleted(payloads: seq<string>, n: nat)
    requires n >= |Encode(Frames(payloads))|
    ensures Completed(payloads, n) == |payloads|
  {
  }

  lemma CompletedWithLast(payloads: seq<string>, n: nat)
    requires payloads != [] && n >= LastStart(payloads)
    ensures Completed(payloads, n)
         == |payloads| - 1 + if n - LastStart(payloads) < |Encode(Frame(payloads[|payloads| - 1]))| - 1 then 0 else 1
  {
    FramesBytes(payloads);
    AllCompleted(payloads[..|payloads| - 1], n);
  }

  /** What is read of one frame: nothing yet, or one payload, exact iff the parts are whole characters. */
  ghost predicate LastRead(share: seq<seq<byte>>, data: string, last: seq<string>) {
    var n, m := |Flatten(share)|, |Encode(Frame(data))|;
    && (n < m - 1 ==> last == [])
    && (n >= m - 1 ==> |last| == 1 && (last[0] == data <==> AllWhole(share)))
  }

  lemma LastIsExact(chunks: seq<seq<byte>>, payloads: seq<string>, before: seq<string>, last: seq<string>)
    requires payloads != [] && |before| == |payloads| - 1 && |last| == 1
    requires last[0] == payloads[|payloads| - 1] <==> AllWhole(Skip(chunks, LastStart(payloads)))
    ensures IsExact(chunks, payloads, before + last, |before|)
  {
    ShareAt(chunks, payloads, |before|);
  }

  lemma EarlierIsExact(chunks: seq<seq<byte>>, payloads: seq<string>, before: seq<string>, last: seq<string>, i: nat)
    requires payloads != [] && i < |before| == |payloads| - 1 && |last| <= 1
    requires IsExact(Take(chunks, LastStart(payloads)), payloads[..|payloads| - 1], before, i)
    ensures IsExact(chunks, payloads, before + last, i)
  {
    ShareAt(chunks, payloads, i);
  }

  /** The earlier frames are complete, and the last one is read as one frame is. */
  lemma WithLast(chunks: seq<seq<byte>>, payloads: seq<string>, before: seq<string>, last: seq<string>)
    requires payloads != [] && |Flatten(chunks)| >= LastStart(payloads)
    requires |Flatten(Take(chunks, LastStart(payloads)))| == LastStart(payloads)
    requires |Flatten(Skip(chunks, LastStart(payloads)))| == |Flatten(chunks)| - LastStart(payloads)
    requires ExactSoFar(Take(chunks, LastStart(payloads)), payloads[..|payloads| - 1], before)
    requires LastRead(Skip(chunks, LastStart(payloads)), payloads[|payloads| - 1], last)
    ensures ExactSoFar(chunks, payloads, before + last)
  {
    AllCompleted(payloads[..|payloads| - 1], LastStart(payloads));
    CompletedWithLast(payloads, |Flatten(chunks)|);
    assert |before| == |payloads| - 1;
    forall i | 0 <= i < |before + last| ensures IsExact(chunks, payloads, before + last, i) {
      if i < |before| {
        EarlierIsExact(chunks, payloads, before, last, i);
      } else {
        LastIsExact(chunks, payloads, before, last);
      }
    }
  }

  lemma {:induction false} NothingRead(chunks: seq<seq<byte>>)
    requires Flatten(chunks) == []
    ensures Received(chunks) == ""
  {
    if chunks == [] {
    } else {
      NothingRead(chunks[1..]);
    }
  }

  lemma {:induction false} StreamRead(chunks: seq<seq<byte>>, payloads: seq<string>)
    requires AllSingleLine(payloads) && Flatten(chunks) <= Encode(Frames(payloads))
    ensures ExactSoFar(chunks, payloads, Delivered(Received(chunks)))
    ensures |Flatten(chunks)| == |Encode(Frames(payloads))| ==> Split(Received(chunks)).pending == ""
    decreases |payloads|
  {
    if payloads == [] {
      NothingRead(chunks);
    } else {
      var start, front, data := LastStart(payloads), payloads[..|payloads| - 1], payloads[|payloads| - 1];
      FramesBytes(payloads);
      var whole := Encode(Frames(payloads));
      assert start < |Flatten(chunks)| ==> Flatten(chunks)[start] == whole[start];
      CutBeforeAscii(chunks, start);
      if |Flatten(chunks)| < start {
        assert Flatten(chunks) <= Encode(Frames(front));
        StreamRead(chunks, front);
        BeforeLast(chunks, payloads, Delivered(Received(chunks)));
      } else {
        var p, q := Take(chunks, start), Skip(chunks, start);
        assert Flatten(p) == whole[..start] == Encode(Frames(front));
        assert Flatten(q) <= Encode(Frame(data));
        StreamRead(p, front);
        OneFrame(q, data);
        DeliveredConcat(Received(p), Received(q));
        assert "" + Received(q) == Received(q);
        WithLast(chunks, payloads, Delivered(Received(p)), Delivered(Received(q)));
      }
    }
  }

  lemma CutAtLast(chunks: seq<seq<byte>>, payloads: seq<string>)
    requires payloads != [] && Flatten(chunks) <= Encode(Frames(payloads))
    ensures Flatten(Take(chunks, LastStart(payloads))) <= Encode(Frames(payloads[..|payloads| - 1]))
    ensures Flatten(Skip(chunks, LastStart(payloads))) <= Encode(Frame(payloads[|payloads| - 1]))
  {
    var start, whole := LastStart(payloads), Encode(Frames(payloads));
    FramesBytes(payloads);
    assert start < |Flatten(chunks)| ==> Flatten(chunks)[start] == whole[start];
    CutBeforeAscii(chunks, start);
    if |Flatten(chunks)| >= start {
      assert whole[start..] == Encode(Frame(payloads[|payloads| - 1]));
      assert Flatten(Skip(chunks, start)) == Flatten(chunks)[start..];
    }
  }

  /** The shares carry the frames: each holds its frame's bytes, as far as they have arrived. */
  lemma {:induction false} SharesCarryFrames(chunks: seq<seq<byte>>, payloads: seq<string>, i: nat)
    requires Flatten(chunks) <= Encode(Frames(payloads)) && i < |payloads|
    ensures Flatten(Shares(chunks, payloads)[i]) <= Encode(Frame(payloads[i]))
    decreases |payloads|
  {
    var start, front := LastStart(payloads), payloads[..|payloads| - 1];
    CutAtLast(chunks, payloads);
    ShareAt(chunks, payloads, i);
    if i < |front| {
      SharesCarryFrames(Take(chunks, start), front, i);
    }
  }

  /** At any moment, wherever the bytes received so far end: the payloads handed on are as many as have their line
      complete, and each is the one sent exactly when no chunk boundary falls inside a character of its frame. */
  lemma EachPayloadExactly(chunks: seq<seq<byte>>, payloads: seq<string>, i: nat)
    requires AllSingleLine(payloads) && Flatten(chunks) <= Encode(Frames(payloads))
    ensures |Delivered(Received(chunks))| == Completed(payloads, |Flatten(chunks)|)
    ensures i < |Delivered(Received(chunks))| ==>
              (Delivered(Received(chunks))[i] == payloads[i] <==> AllWhole(Shares(chunks, payloads)[i]))
  {
    StreamRead(chunks, payloads);
    assert i < |Delivered(Received(chunks))| ==> IsExact(chunks, payloads, Delivered(Received(chunks)), i);
  }
}
