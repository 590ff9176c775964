/** The server-sent event stream of a discovery run: the writer frames each event as
    `data: <json>` followed by a blank line; the reader appends each chunk it receives to a
    buffer, splits the buffer on blank lines, keeps the unfinished tail for the next read,
    and pulls the JSON text out of each complete frame with a regular expression. */
module Stream {
  import opened Types
  import opened Text

  function Init<T>(s: seq<T>): seq<T>
    requires |s| >= 1
  {
    s[..|s| - 1]
  }

  function Last<T>(s: seq<T>): T
    requires |s| >= 1
  {
    s[|s| - 1]
  }

  // ---------------------------------------------------------------------------
  // Splitting on blank lines

  /** A frame separator `"\n\n"` starts at `i`. */
  predicate SepAt(s: string, i: int) {
    0 <= i && i + 1 < |s| && s[i] == '\n' && s[i + 1] == '\n'
  }

  predicate NoSep(s: string) {
    forall j :: 0 <= j < |s| ==> !SepAt(s, j)
  }

  /** The first separator at or after `from`, or `|s|` when there is none. */
  function FirstSep(s: string, from: nat): (k: nat)
    requires from <= |s|
    ensures from <= k <= |s|
    ensures k < |s| ==> SepAt(s, k)
    decreases |s| - from
  {
    if from + 1 >= |s| then |s|
    else if SepAt(s, from) then from
    else FirstSep(s, from + 1)
  }

  /** No separator starts between `from` and the one found. */
  lemma {:induction false} FirstSepIsFirst(s: string, from: nat)
    requires from <= |s|
    ensures forall j :: from <= j < FirstSep(s, from) ==> !SepAt(s, j)
    decreases |s| - from
  {
    if from + 1 < |s| && !SepAt(s, from) {
      FirstSepIsFirst(s, from + 1);
    }
  }

  /** `s.split("\n\n")`: the pieces between the separators, found left to right. */
  function Split(s: string): (parts: seq<string>)
    ensures |parts| >= 1
    decreases |s|
  {
    var k := FirstSep(s, 0);
    if k == |s| then [s] else [s[..k]] + Split(s[k + 2..])
  }

  lemma FirstSepIs(s: string, k: nat)
    requires SepAt(s, k) && forall j :: 0 <= j < k ==> !SepAt(s, j)
    ensures FirstSep(s, 0) == k
  {
    FirstSepIsFirst(s, 0);
  }

  /** No piece contains a separator, and joining the pieces with separators gives the
      string back. */
  lemma {:induction false} SplitFacts(s: string)
    ensures forall i :: 0 <= i < |Split(s)| ==> NoSep(Split(s)[i])
    ensures Join(Split(s), "\n\n") == s
    decreases |s|
  {
    var k := FirstSep(s, 0);
    FirstSepIsFirst(s, 0);
    if k == |s| {
      forall j ensures !SepAt(s, j) {
        if 0 <= j < |s| {
          assert !SepAt(s, j);
        }
      }
    } else {
      var rest := s[k + 2..];
      SplitFacts(rest);
      var head := s[..k];
      forall j ensures !SepAt(head, j) {
        if 0 <= j && j + 1 < |head| {
          assert !SepAt(s, j);
        }
      }
      assert Split(s) == [head] + Split(rest);
      assert Split(s)[1..] == Split(rest);
      assert s == head + "\n\n" + rest;
    }
  }

  lemma SplitCons(s: string)
    requires FirstSep(s, 0) < |s|
    ensures Split(s) == [s[..FirstSep(s, 0)]] + Split(s[FirstSep(s, 0) + 2..])
  {
  }

  /** Text appended after a separator does not move it. */
  lemma FirstSepAppend(a: string, c: string)
    requires FirstSep(a, 0) < |a|
    ensures FirstSep(a + c, 0) == FirstSep(a, 0)
  {
    var k, ac := FirstSep(a, 0), a + c;
    FirstSepIsFirst(a, 0);
    forall j | 0 <= j < k
      ensures !SepAt(ac, j)
    {
      assert !SepAt(a, j);
      assert ac[j] == a[j] && ac[j + 1] == a[j + 1];
    }
    assert ac[k] == a[k] && ac[k + 1] == a[k + 1];
    FirstSepIs(ac, k);
  }

  lemma ConsInitLast<T>(x: T, t: seq<T>)
    requires |t| >= 1
    ensures Init([x] + t) == [x] + Init(t) && Last([x] + t) == Last(t)
  {
  }

  /** Text appended after the first separator ends up in the rest. */
  lemma SplitConsAppend(a: string, c: string)
    requires FirstSep(a, 0) < |a|
    ensures var k := FirstSep(a, 0);
      Split(a + c) == [a[..k]] + Split(a[k + 2..] + c)
  {
    var k := FirstSep(a, 0);
    FirstSepAppend(a, c);
    assert (a + c)[..k] == a[..k] && (a + c)[k + 2..] == a[k + 2..] + c;
    SplitCons(a + c);
  }

  /** Appending text to a string changes only its last piece: the complete pieces stay
      as they are, and the last piece is split again together with the appended text. */
  lemma {:induction false} SplitAppend(a: string, c: string)
    ensures Split(a + c) == Init(Split(a)) + Split(Last(Split(a)) + c)
    decreases |a|
  {
    var k := FirstSep(a, 0);
    if k < |a| {
      var head, rest := a[..k], a[k + 2..];
      var tail := Split(rest);
      SplitCons(a);
      ConsInitLast(head, tail);
      calc {
        Split(a + c);
        == { SplitConsAppend(a, c); }
        [head] + Split(rest + c);
        == { SplitAppend(rest, c); }
        [head] + (Init(tail) + Split(Last(tail) + c));
        ==
        ([head] + Init(tail)) + Split(Last(tail) + c);
      }
    }
  }

  // ---------------------------------------------------------------------------
  // Reading the stream chunk by chunk

  /** The text received so far: the chunks, concatenated. */
  function Joined(chunks: seq<string>): string {
    if chunks == [] then "" else Joined(Init(chunks)) + Last(chunks)
  }

  lemma {:induction false} JoinedAppend(a: seq<string>, b: seq<string>)
    ensures Joined(a + b) == Joined(a) + Joined(b)
    decreases |b|
  {
    if b == [] {
      assert a + b == a;
    } else {
      assert Init(a + b) == a + Init(b);
      JoinedAppend(a, Init(b));
    }
  }

  /** The frames complete after reading `chunks`, and the text still buffered. */
  function Frames(chunks: seq<string>): seq<string> {
    Init(Split(Joined(chunks)))
  }

  function Buffered(chunks: seq<string>): string {
    Last(Split(Joined(chunks)))
  }

  /** Reading one more chunk: the frames so far, then the frames completed by the buffer
      plus the chunk. */
  lemma ReadStep(chunks: seq<string>, chunk: string)
    ensures Frames(chunks) + Split(Buffered(chunks) + chunk) == Split(Joined(chunks + [chunk]))
  {
    assert Init(chunks + [chunk]) == chunks;
    SplitAppend(Joined(chunks), chunk);
  }

  /** Later chunks only add frames: the frames of a prefix of the stream are a prefix
      of the frames of the whole stream. */
  lemma FramesGrow(chunks: seq<string>, k: nat)
    requires k <= |chunks|
    ensures exists more :: Frames(chunks) == Frames(chunks[..k]) + more
  {
    assert chunks == chunks[..k] + chunks[k..];
    JoinedAppend(chunks[..k], chunks[k..]);
    var a := Joined(chunks[..k]);
    SplitAppend(a, Joined(chunks[k..]));
    var tail := Split(Last(Split(a)) + Joined(chunks[k..]));
    assert Frames(chunks) == Frames(chunks[..k]) + Init(tail);
  }

  /** One pass of the reading loop keeps "frames handed on, then the buffer" equal to the
      pieces of the text read so far. */
  lemma JoinedSnoc(chunks: seq<string>, i: nat)
    requires i < |chunks|
    ensures Joined(chunks[..i + 1]) == Joined(chunks[..i]) + chunks[i]
  {
    assert Init(chunks[..i + 1]) == chunks[..i];
  }

  lemma InitLast<T>(s: seq<T>)
    requires |s| >= 1
    ensures Init(s) + [Last(s)] == s
  {
  }

  /** Splitting after appending `c`, in terms of the pieces before. */
  lemma PiecesStep(joined: string, c: string, frames: seq<string>, buffer: string)
    requires frames + [buffer] == Split(joined)
    ensures var lines := Split(buffer + c);
      frames + Init(lines) + [Last(lines)] == Split(joined + c)
  {
    var parts := Split(joined);
    assert frames == Init(parts) && buffer == Last(parts) by {
      assert |frames + [buffer]| == |parts|;
    }
    SplitAppend(joined, c);
    InitLast(Split(buffer + c));
  }

  /** One pass of the reading loop keeps "frames handed on, then the buffer" equal to the
      pieces of the text read so far. */
  lemma ReadInvariant(chunks: seq<string>, i: nat, frames: seq<string>, buffer: string)
    requires i < |chunks| && frames + [buffer] == Split(Joined(chunks[..i]))
    ensures var lines := Split(buffer + chunks[i]);
      frames + Init(lines) + [Last(lines)] == Split(Joined(chunks[..i + 1]))
  {
    JoinedSnoc(chunks, i);
    PiecesStep(Joined(chunks[..i]), chunks[i], frames, buffer);
  }

  /** The buffering loop of the reader: append the chunk, split, hand on the complete
      frames and keep the last piece. Whatever the chunking, it hands on the frames of
      the whole text in order and keeps its unfinished tail. */
  method ReadFrames(chunks: seq<string>) returns (frames: seq<string>, buffer: string)
    ensures frames == Frames(chunks) && buffer == Buffered(chunks)
  {
    frames, buffer := [], "";
    for i := 0 to |chunks|
      invariant frames + [buffer] == Split(Joined(chunks[..i]))
    {
      ReadInvariant(chunks, i, frames, buffer);
      var lines := Split(buffer + chunks[i]);
      frames := frames + Init(lines);
      buffer := Last(lines);
    }
    assert chunks[..|chunks|] == chunks;
  }

  /** Two chunkings of the same text yield the same frames and the same tail. */
  lemma ChunkingIrrelevant(chunks: seq<string>, other: seq<string>)
    requires Joined(chunks) == Joined(other)
    ensures Frames(chunks) == Frames(other) && Buffered(chunks) == Buffered(other)
  {
  }

  // ---------------------------------------------------------------------------
  // The writer's framing

  /** The writer's frame for one event's JSON text. */
  function Frame(payload: string): string {
    "data: " + payload + "\n\n"
  }

  function Written(payloads: seq<string>): string {
    if payloads == [] then "" else Written(Init(payloads)) + Frame(Last(payloads))
  }

  /** The frames as the reader sees them, separators stripped. */
  function Lines(payloads: seq<string>): (r: seq<string>)
    ensures |r| == |payloads|
  {
    seq(|payloads|, i requires 0 <= i < |payloads| => "data: " + payloads[i])
  }

  lemma SplitFrame(payload: string)
    requires '\n' !in payload
    ensures Split(Frame(payload)) == ["data: " + payload, ""]
  {
    var f := Frame(payload);
    var k := |"data: " + payload|;
    forall j | 0 <= j < k
      ensures !SepAt(f, j)
    {
      assert f[j] == ("data: " + payload)[j];
      if j >= 6 {
        assert f[j] == payload[j - 6];
      }
    }
    assert SepAt(f, k);
    FirstSepIs(f, k);
    assert f[..k] == "data: " + payload;
    assert f[k + 2..] == "";
  }

  /** Events whose JSON text has no line feed come out of the splitter as exactly one
      frame each, in order, with nothing left buffered. */
  lemma {:induction false} WrittenSplit(payloads: seq<string>)
    requires forall i :: 0 <= i < |payloads| ==> '\n' !in payloads[i]
    ensures Split(Written(payloads)) == Lines(payloads) + [""]
    decreases |payloads|
  {
    if payloads != [] {
      var front, p := Init(payloads), Last(payloads);
      var w := Written(front);
      assert Written(payloads) == w + Frame(p);
      assert Split(w) == Lines(front) + [""] by {
        assert forall i :: 0 <= i < |front| ==> front[i] == payloads[i];
        WrittenSplit(front);
      }
      assert Split(w + Frame(p)) == Lines(front) + ["data: " + p, ""] by {
        SplitAppend(w, Frame(p));
        assert Init(Split(w)) == Lines(front);
        assert Last(Split(w)) + Frame(p) == Frame(p);
        SplitFrame(p);
      }
      assert Lines(payloads) == Lines(front) + ["data: " + p];
    }
  }

  // ---------------------------------------------------------------------------
  // Pulling the JSON text out of a frame: `/^data:\s*(.+)$/m`

  /** JavaScript's line terminators: `.` does not match them; `^` and `$` under the `m`
      flag match next to them. */
  predicate IsLineTerminator(c: char) {
    c == '\n' || c == '\r' || c == '\U{2028}' || c == '\U{2029}'
  }

  /** JavaScript's `\s`. */
  predicate IsSpace(c: char) {
    || c == '\t' || c == '\n' || c == '\U{000B}' || c == '\U{000C}' || c == '\r' || c == ' '
    || c == '\U{00A0}' || c == '\U{1680}' || ('\U{2000}' <= c <= '\U{200A}')
    || c == '\U{2028}' || c == '\U{2029}' || c == '\U{202F}' || c == '\U{205F}'
    || c == '\U{3000}' || c == '\U{FEFF}'
  }

  /** The first index at or after `i` that is not white space, or `|f|`. */
  function SkipSpace(f: string, i: nat): (q: nat)
    requires i <= |f|
    ensures i <= q <= |f| && (q < |f| ==> !IsSpace(f[q]))
    ensures forall j :: i <= j < q ==> IsSpace(f[j])
    decreases |f| - i
  {
    if i == |f| || !IsSpace(f[i]) then i else SkipSpace(f, i + 1)
  }

  /** The first line terminator at or after `i`, or `|f|`. */
  function LineEnd(f: string, i: nat): (e: nat)
    requires i <= |f|
    ensures i <= e <= |f| && (e < |f| ==> IsLineTerminator(f[e]))
    ensures forall j :: i <= j < e ==> !IsLineTerminator(f[j])
    decreases |f| - i
  {
    if i == |f| || IsLineTerminator(f[i]) then i else LineEnd(f, i + 1)
  }

  /** The last index in `[from, end)` that holds no line terminator. */
  function LastInLine(f: string, from: nat, end: nat): (q: Option<nat>)
    requires from <= end <= |f|
    ensures q.Some? ==> from <= q.value < end && !IsLineTerminator(f[q.value])
                        && forall j :: q.value < j < end ==> IsLineTerminator(f[j])
    ensures q.None? ==> forall j :: from <= j < end ==> IsLineTerminator(f[j])
    decreases end
  {
    if end == from then None
    else if !IsLineTerminator(f[end - 1]) then Some(end - 1)
    else LastInLine(f, from, end - 1)
  }

  /** `\s*(.+)$` matched from index `t`: the greedy `\s*` takes all the white space; when
      that leaves nothing, it gives back characters until `.+` can take one that is not
      a line terminator. */
  function MatchAfter(f: string, t: nat): Option<string>
    requires t <= |f|
  {
    var q := SkipSpace(f, t);
    if q < |f| then Some(f[q..LineEnd(f, q)])
    else match LastInLine(f, t, |f|)
      case None => None
      case Some(k) => Some(f[k..k + 1])
  }

  /** `^` under the `m` flag: the start of the text or just after a line terminator. */
  predicate LineStart(f: string, p: nat)
    requires p <= |f|
  {
    p == 0 || IsLineTerminator(f[p - 1])
  }

  function PayloadFrom(f: string, p: nat): Option<string>
    requires p <= |f|
    decreases |f| - p
  {
    if p == |f| then None
    else if LineStart(f, p) && StartsWith(f[p..], "data:") && MatchAfter(f, p + 5).Some? then MatchAfter(f, p + 5)
    else PayloadFrom(f, p + 1)
  }

  /** `chunk.match(/^data:\s*(.+)$/m)?.[1]`, as written: the first line that starts with
      `data:`, its text after the white space, up to the next line terminator. */
  function DataPayload(f: string): Option<string> {
    PayloadFrom(f, 0)
  }

  /** A frame none of whose lines starts with `data:` yields no JSON text. */
  lemma {:induction false} NoDataLine(f: string, p: nat)
    requires p <= |f|
    requires forall i :: p <= i < |f| && LineStart(f, i) ==> !StartsWith(f[i..], "data:")
    ensures PayloadFrom(f, p).None?
    decreases |f| - p
  {
    if p < |f| {
      NoDataLine(f, p + 1);
    }
  }

  /** The JSON text of a writer's frame comes back whole when it holds no line terminator
      and does not start with white space (JSON text of an object starts with `{`). */
  lemma DataPayloadRoundTrip(payload: string)
    requires payload != [] && !IsSpace(payload[0])
    requires forall i :: 0 <= i < |payload| ==> !IsLineTerminator(payload[i])
    ensures DataPayload("data: " + payload) == Some(payload)
  {
    var f := "data: " + payload;
    assert StartsWith(f[0..], "data:");
    assert SkipSpace(f, 5) == 6 by {
      assert IsSpace(f[5]);
      assert f[6] == payload[0];
    }
    assert LineEnd(f, 6) == |f| by {
      forall j | 6 <= j < |f|
        ensures !IsLineTerminator(f[j])
      {
        assert f[j] == payload[j - 6];
      }
    }
    assert f[6..|f|] == payload;
    assert MatchAfter(f, 5) == Some(payload);
    assert LineStart(f, 0) && f[0..] == f;
  }

  /** A `data:` line's text ends at its first line terminator, whatever follows. */
  lemma DataPayloadStopsAtTerminator(text: string, rest: string)
    requires text != [] && !IsSpace(text[0])
    requires forall i :: 0 <= i < |text| ==> !IsLineTerminator(text[i])
    requires rest != [] && IsLineTerminator(rest[0])
    ensures DataPayload("data: " + text + rest) == Some(text)
  {
    var f := "data: " + text + rest;
    var e := 6 + |text|;
    assert StartsWith(f[0..], "data:");
    assert SkipSpace(f, 5) == 6 by {
      assert IsSpace(f[5]);
      assert f[6] == text[0];
    }
    assert LineEnd(f, 6) == e by {
      assert f[e] == rest[0];
      forall j | 6 <= j < e
        ensures !IsLineTerminator(f[j])
      {
        assert f[j] == text[j - 6];
      }
    }
    assert f[6..e] == text;
    assert LineStart(f, 0) && f[0..] == f;
  }

  /** The JSON text of an `error` event whose message is "a", U+2028, "b", as
      `JSON.stringify` writes it: the separator is left unescaped inside the string. */
  const ErrorWithSeparator := "{\"type\":\"error\",\"message\":\"a\U{2028}b\"}"

  /** That text up to the separator. */
  const ErrorCut := "{\"type\":\"error\",\"message\":\"a"

  /** The regular expression cuts a frame's JSON text at U+2028: for the `error` event
      above, the text handed to `JSON.parse` stops inside the message. */
  lemma DataPayloadCutsAtLineSeparator()
    ensures DataPayload("data: " + ErrorWithSeparator) == Some(ErrorCut)
  {
    var rest := "\U{2028}b\"}";
    assert ErrorWithSeparator == ErrorCut + rest;
    assert "data: " + ErrorWithSeparator == "data: " + ErrorCut + rest;
    assert forall i :: 0 <= i < |ErrorCut| ==> !IsLineTerminator(ErrorCut[i]);
    DataPayloadStopsAtTerminator(ErrorCut, rest);
  }

  /** The extraction the framing calls for: the frame starts with `data:`, and the JSON
      text is everything after the white space that follows, so no character of the
      JSON text ends it early. */
  function FramePayload(f: string): Option<string> {
    if !StartsWith(f, "data:") then None
    else
      var q := SkipSpace(f, 5);
      if q < |f| then Some(f[q..])
      else if 5 < |f| then Some(f[|f| - 1..])
      else None
  }

  /** Every writer's frame gives its JSON text back, U+2028 or not; a frame that does not
      start with `data:` gives nothing. */
  lemma FramePayloadFacts(f: string, payload: string)
    ensures payload != [] && !IsSpace(payload[0]) ==> FramePayload("data: " + payload) == Some(payload)
    ensures !StartsWith(f, "data:") ==> FramePayload(f).None?
  {
    if payload != [] && !IsSpace(payload[0]) {
      var g := "data: " + payload;
      assert SkipSpace(g, 5) == 6 by {
        assert IsSpace(g[5]);
        assert g[6] == payload[0];
      }
      assert g[6..] == payload;
    }
  }

  /** Reading any chunking of what the writer wrote, with the corrected extraction, gives
      back every event's JSON text, in order, with nothing left buffered. */
  lemma StreamRoundTrip(payloads: seq<string>, chunks: seq<string>)
    requires Joined(chunks) == Written(payloads)
    requires forall i :: 0 <= i < |payloads| ==> '\n' !in payloads[i] && payloads[i] != [] && !IsSpace(payloads[i][0])
    ensures |Frames(chunks)| == |payloads| && Buffered(chunks) == ""
    ensures forall i :: 0 <= i < |payloads| ==> FramePayload(Frames(chunks)[i]) == Some(payloads[i])
  {
    WrittenSplit(payloads);
    forall i | 0 <= i < |payloads|
      ensures FramePayload(Frames(chunks)[i]) == Some(payloads[i])
    {
      FramePayloadFacts("", payloads[i]);
    }
  }
}
