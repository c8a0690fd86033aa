/** Server-sent event frames: how the kernel prints them (`frames` in
    src/sovereign_ai/api/server.py) and how the desktop client takes them apart as chunks of
    text arrive (`streamEvents` in desktop/src/api/kernelClient.ts).  A blank line ends a frame,
    as in section 9.2 of the WHATWG HTML Living Standard. */
module Framing {
  import opened Json

  /** A journal row; `content` stands for the columns that streaming does not look at. */
  datatype Event = Event(seqNo: int, eventType: string, content: string)

  /** The JSON library on both ends. */
  datatype Codec = Codec(dumps: Event -> string, parse: string -> Option<Event>)

  /** Printed JSON stays on one line and parses back to the row. */
  ghost predicate Faithful(c: Codec) {
    forall e :: '\n' !in c.dumps(e) && c.parse(c.dumps(e)) == Some(e)
  }

  /* ---------- splitting text into frames ---------- */

  /** `indexOf` of a blank line. */
  function FindBlank(s: string): (r: Option<nat>)
    ensures r.Some? ==> r.value + 2 <= |s|
  {
    if |s| < 2 then None
    else if s[0] == '\n' && s[1] == '\n' then Some(0)
    else
      match FindBlank(s[1..])
      case None => None
      case Some(i) => Some(i + 1)
  }

  datatype Split = Split(frames: seq<string>, rest: string)

  /** All complete frames of a text, and the incomplete remainder. */
  function SplitAll(s: string): (r: Split)
    ensures FindBlank(r.rest) == None
    decreases |s|
  {
    match FindBlank(s)
    case None => Split([], s)
    case Some(i) =>
      var tail := SplitAll(s[i + 2..]);
      Split([s[..i]] + tail.frames, tail.rest)
  }

  lemma {:induction false} FindBlankAppend(a: string, b: string)
    requires FindBlank(a).Some?
    ensures FindBlank(a + b) == FindBlank(a)
  {
    if !(a[0] == '\n' && a[1] == '\n') {
      assert (a + b)[1..] == a[1..] + b;
      FindBlankAppend(a[1..], b);
    }
  }

  /** What has been split off stays split off, whatever arrives later. */
  lemma {:induction false} SplitAppend(a: string, b: string)
    ensures var first := SplitAll(a);
            var second := SplitAll(first.rest + b);
            SplitAll(a + b) == Split(first.frames + second.frames, second.rest)
    decreases |a|
  {
    hide FindBlank;
    match FindBlank(a)
    case None =>
      assert SplitAll(a) == Split([], a);
      assert [] + SplitAll(a + b).frames == SplitAll(a + b).frames;
    case Some(i) =>
      FindBlankAppend(a, b);
      assert (a + b)[..i] == a[..i] && (a + b)[i + 2..] == a[i + 2..] + b;
      SplitAppend(a[i + 2..], b);
      var tail := SplitAll(a[i + 2..]);
      var second := SplitAll(tail.rest + b);
      assert [a[..i]] + (tail.frames + second.frames) == ([a[..i]] + tail.frames) + second.frames;
  }

  function Concat(chunks: seq<string>): string {
    if chunks == [] then "" else Concat(chunks[..|chunks| - 1]) + chunks[|chunks| - 1]
  }

  /** Splitting as the client does: chunk by chunk, keeping the remainder in a buffer. */
  function SplitChunks(chunks: seq<string>): Split {
    if chunks == [] then Split([], "")
    else
      var before := SplitChunks(chunks[..|chunks| - 1]);
      var now := SplitAll(before.rest + chunks[|chunks| - 1]);
      Split(before.frames + now.frames, now.rest)
  }

  /** Incremental framing: however the text is cut into chunks, even inside a blank line, the
      frames and the remainder are those of the whole text. */
  lemma {:induction false} ChunkingIsIrrelevant(chunks: seq<string>)
    ensures SplitChunks(chunks) == SplitAll(Concat(chunks))
  {
    if chunks != [] {
      var before := chunks[..|chunks| - 1];
      ChunkingIsIrrelevant(before);
      SplitAppend(Concat(before), chunks[|chunks| - 1]);
    }
  }

  /* ---------- reading one frame ---------- */

  function LineEnd(s: string): (n: nat)
    ensures n <= |s| && '\n' !in s[..n] && (n < |s| ==> s[n] == '\n')
  {
    if s == "" || s[0] == '\n' then 0
    else
      var n := 1 + LineEnd(s[1..]);
      assert s[..n] == [s[0]] + s[1..][..n - 1];
      n
  }

  function Lines(s: string): seq<string>
    decreases |s|
  {
    var n := LineEnd(s);
    if n == |s| then [s] else [s[..n]] + Lines(s[n + 1..])
  }

  predicate IsData(line: string) {
    |line| >= 6 && line[..6] == "data: "
  }

  /** The payload after one more line: a data line replaces it, any other line keeps it. */
  function Payload(c: Codec, lines: seq<string>): Option<Event> {
    if lines == [] then None
    else
      var last := lines[|lines| - 1];
      if IsData(last) then c.parse(last[6..]) else Payload(c, lines[..|lines| - 1])
  }

  /** The events a list of frames carries, in order; frames without one are skipped. */
  function Payloads(c: Codec, frames: seq<string>): seq<Event> {
    if frames == [] then []
    else
      match Payload(c, Lines(frames[0]))
      case None => Payloads(c, frames[1..])
      case Some(e) => [e] + Payloads(c, frames[1..])
  }

  lemma {:induction false} PayloadsConcat(c: Codec, xs: seq<string>, ys: seq<string>)
    ensures Payloads(c, xs + ys) == Payloads(c, xs) + Payloads(c, ys)
  {
    if xs == [] {
      assert xs + ys == ys;
    } else {
      assert (xs + ys)[1..] == xs[1..] + ys;
      PayloadsConcat(c, xs[1..], ys);
    }
  }

  /* ---------- printing ---------- */

  const COMMENT := ": heartbeat"
  const HEARTBEAT := COMMENT + "\n\n"

  function EventLines(c: Codec, e: Event): seq<string> {
    ["id: " + WriteInt(e.seqNo), "event: " + e.eventType, "data: " + c.dumps(e)]
  }

  function JoinLines(lines: seq<string>): string
    requires lines != []
  {
    if |lines| == 1 then lines[0] else lines[0] + "\n" + JoinLines(lines[1..])
  }

  function Print(c: Codec, e: Event): string {
    JoinLines(EventLines(c, e)) + "\n\n"
  }

  function PrintAll(c: Codec, es: seq<Event>): string {
    if es == [] then "" else PrintAll(c, es[..|es| - 1]) + Print(c, es[|es| - 1])
  }

  predicate Plain(line: string) {
    line != "" && '\n' !in line
  }

  lemma {:induction false} PlainLineThenBreak(line: string, rest: string)
    requires '\n' !in line
    ensures LineEnd(line + "\n" + rest) == |line|
    ensures LineEnd(line) == |line|
  {
    if line != "" {
      assert line[0] in line;
      assert (line + "\n" + rest)[1..] == line[1..] + "\n" + rest;
      PlainLineThenBreak(line[1..], rest);
    }
  }

  lemma {:induction false} LinesOfJoined(lines: seq<string>)
    requires lines != [] && forall i :: 0 <= i < |lines| ==> Plain(lines[i])
    ensures Lines(JoinLines(lines)) == lines
  {
    if |lines| == 1 {
      PlainLineThenBreak(lines[0], "");
    } else {
      var rest := JoinLines(lines[1..]);
      PlainLineThenBreak(lines[0], rest);
      var s := lines[0] + "\n" + rest;
      assert s[..|lines[0]|] == lines[0] && s[|lines[0]| + 1..] == rest;
      LinesOfJoined(lines[1..]);
    }
  }

  /** Skipping a line without breaks never skips a blank line. */
  lemma {:induction false} BlankAfterPlain(line: string, rest: string)
    requires '\n' !in line
    ensures FindBlank(line + rest) == match FindBlank(rest) case None => None case Some(i) => Some(i + |line|)
  {
    if line == "" {
      assert line + rest == rest;
    } else {
      assert line[0] in line;
      assert (line + rest)[1..] == line[1..] + rest;
      BlankAfterPlain(line[1..], rest);
    }
  }

  lemma {:induction false} BlankAfterJoined(lines: seq<string>, rest: string)
    requires lines != [] && forall i :: 0 <= i < |lines| ==> Plain(lines[i])
    ensures FindBlank(JoinLines(lines) + "\n\n" + rest) == Some(|JoinLines(lines)|)
  {
    var end := "\n\n" + rest;
    if |lines| == 1 {
      BlankAfterPlain(lines[0], end);
      assert lines[0] + "\n\n" + rest == lines[0] + end;
    } else {
      var more := JoinLines(lines[1..]);
      BlankAfterJoined(lines[1..], rest);
      var tail := "\n" + (more + "\n\n" + rest);
      assert tail[1..] == more + "\n\n" + rest;
      JoinedStartsPlain(lines[1..]);
      assert tail[1] == more[0];
      assert FindBlank(tail) == Some(1 + |more|);
      BlankAfterPlain(lines[0], tail);
      assert JoinLines(lines) + "\n\n" + rest == lines[0] + tail;
    }
  }

  lemma JoinedStartsPlain(lines: seq<string>)
    requires lines != [] && forall i :: 0 <= i < |lines| ==> Plain(lines[i])
    ensures |JoinLines(lines)| > 0 && JoinLines(lines)[0] != '\n'
  {
    assert lines[0][0] in lines[0];
  }

  lemma {:induction false} IntsArePlain(n: int)
    ensures '\n' !in WriteInt(n)
  {
    NatRoundTrip(if n < 0 then -n else n);
  }

  lemma EventLinesArePlain(c: Codec, e: Event)
    requires Faithful(c) && '\n' !in e.eventType
    ensures forall i :: 0 <= i < |EventLines(c, e)| ==> Plain(EventLines(c, e)[i])
  {
    IntsArePlain(e.seqNo);
  }

  /** A printed event is one frame, and that frame carries the event. */
  lemma PrintedEventIsOneFrame(c: Codec, e: Event, rest: string)
    requires Faithful(c) && '\n' !in e.eventType
    ensures SplitAll(Print(c, e) + rest)
            == Split([JoinLines(EventLines(c, e))] + SplitAll(rest).frames, SplitAll(rest).rest)
    ensures Payload(c, Lines(JoinLines(EventLines(c, e)))) == Some(e)
  {
    var lines := EventLines(c, e);
    var frame := JoinLines(lines);
    EventLinesArePlain(c, e);
    BlankAfterJoined(lines, rest);
    LinesOfJoined(lines);
    var s := frame + "\n\n" + rest;
    assert Print(c, e) + rest == s;
    assert s[..|frame|] == frame && s[|frame| + 2..] == rest;
    assert lines[2][..6] == "data: " && lines[2][6..] == c.dumps(e);
  }

  lemma EmptyRemainder()
    ensures SplitAll("") == Split([], "")
  {
  }

  lemma OneEventBatch(c: Codec, e: Event)
    requires Faithful(c) && '\n' !in e.eventType
    ensures var frame := JoinLines(EventLines(c, e));
            SplitAll(Print(c, e)) == Split([frame], "") && Payloads(c, [frame]) == [e]
  {
    hide SplitAll, Print, JoinLines, EventLines, Lines, Payload, Faithful;
    PrintedEventIsOneFrame(c, e, "");
    EmptyRemainder();
    assert Print(c, e) + "" == Print(c, e);
  }

  /** A frame made of one line that is not a data line is skipped. */
  lemma OtherFramesAreSkipped(c: Codec, line: string)
    requires Plain(line) && !IsData(line)
    ensures SplitAll(line + "\n\n") == Split([line], "") && Payloads(c, [line]) == []
  {
    BlankAfterJoined([line], "");
    LinesOfJoined([line]);
    assert JoinLines([line]) == line;
    assert [line][..0] == [];
    assert Payload(c, [line]) == None;
    assert [line][1..] == [];
    var s := line + "\n\n";
    assert s + "" == s;
    assert s[..|line|] == line && s[|line| + 2..] == "";
  }

  lemma HeartbeatCarriesNothing(c: Codec)
    ensures SplitAll(HEARTBEAT) == Split([COMMENT], "") && Payloads(c, [COMMENT]) == []
  {
    hide SplitAll, Payloads;
    assert COMMENT[0] == ':';
    OtherFramesAreSkipped(c, COMMENT);
  }

  /** Printing then parsing: a printed batch leaves no remainder and gives the batch back. */
  lemma {:induction false} PrintedBatchRoundTrip(c: Codec, es: seq<Event>)
    requires Faithful(c) && forall i :: 0 <= i < |es| ==> '\n' !in es[i].eventType
    ensures SplitAll(PrintAll(c, es)).rest == ""
    ensures Payloads(c, SplitAll(PrintAll(c, es)).frames) == es
  {
    hide SplitAll, Print, JoinLines, Faithful, Payloads;
    if es == [] {
      EmptyRemainder();
      assert Payloads(c, []) == [] by { NoFrames(c); }
    } else {
      var n := |es| - 1;
      var front, e := es[..n], es[n];
      PrintedBatchRoundTrip(c, front);
      SplitAppend(PrintAll(c, front), Print(c, e));
      OneEventBatch(c, e);
      assert "" + Print(c, e) == Print(c, e);
      PayloadsConcat(c, SplitAll(PrintAll(c, front)).frames, [JoinLines(EventLines(c, e))]);
      assert es == front + [e];
    }
  }

  lemma NoFrames(c: Codec)
    ensures Payloads(c, []) == []
  {
  }

  /** The text of an event: its number, its type and its JSON, a line each, and a blank line. */
  lemma PrintText(c: Codec, e: Event)
    ensures Print(c, e)
         == "id: " + WriteInt(e.seqNo) + "\n" + ("event: " + e.eventType + "\n" + ("data: " + c.dumps(e))) + "\n\n"
  {
    hide WriteInt;
    var lines := EventLines(c, e);
    assert lines[1..] == [lines[1], lines[2]] && lines[1..][1..] == [lines[2]];
    assert JoinLines([lines[2]]) == lines[2];
    assert JoinLines([lines[1], lines[2]]) == lines[1] + "\n" + lines[2];
    assert JoinLines(lines) == lines[0] + "\n" + (lines[1] + "\n" + lines[2]);
  }

  /** Batches are printed one event after the other. */
  lemma {:induction false} PrintAllAppends(c: Codec, es: seq<Event>, e: Event)
    ensures PrintAll(c, []) == "" && PrintAll(c, es + [e]) == PrintAll(c, es) + Print(c, e)
  {
    assert (es + [e])[..|es|] == es;
  }

  /** Of a frame's data lines the last decides, and it alone; a line is a data line exactly if it
      begins with "data: ". */
  lemma {:induction false} LastDataLineDecides(c: Codec, lines: seq<string>, line: string)
    ensures Payload(c, []) == None
    ensures Payload(c, lines + [line]) == if "data: " <= line then c.parse(line[6..]) else Payload(c, lines)
  {
    assert (lines + [line])[..|lines|] == lines;
  }

  /* ---------- a codec that meets the assumption ---------- */

  /** An event as a JSON object, the columns that streaming does not look at as one string. */
  function Dump(e: Event): string {
    Member("{", "seq") + WriteInt(e.seqNo) + Member(", ", "event_type") + WriteString(e.eventType)
    + Member(", ", "content") + WriteString(e.content) + "}"
  }

  function Member(before: string, key: string): string {
    before + WriteString(key) + ": "
  }

  lemma MemberIsOneLine(before: string, key: string)
    requires '\n' !in before
    ensures '\n' !in Member(before, key)
    ensures before != "" && !IsDigit(before[0]) ==> |Member(before, key)| > 0 && !IsDigit(Member(before, key)[0])
  {
    CharsPrintable(key);
  }

  lemma {:induction false} PartsDiffer(m: int, a: string, x: string, n: int, b: string, y: string, p: string,
                                       q: string, end: string)
    requires WriteInt(m) + p + WriteString(a) + q + WriteString(x) + end
             == WriteInt(n) + p + WriteString(b) + q + WriteString(y) + end
    requires |p| > 0 && !IsDigit(p[0])
    ensures m == n && a == b && x == y
  {
    hide WriteInt, WriteString;
    var x', y' := q + (WriteString(x) + end), q + (WriteString(y) + end);
    var a', b' := p + (WriteString(a) + x'), p + (WriteString(b) + y');
    assert WriteInt(m) + a' == WriteInt(m) + p + WriteString(a) + q + WriteString(x) + end;
    assert WriteInt(n) + b' == WriteInt(n) + p + WriteString(b) + q + WriteString(y) + end;
    IntCancel(m, a', n, b');
    PrefixCancel(p, WriteString(a) + x', WriteString(b) + y');
    StringCancel(a, x', b, y');
    PrefixCancel(q, WriteString(x) + end, WriteString(y) + end);
    StringCancel(x, end, y, end);
  }

  lemma {:induction false} DumpsDiffer(e: Event, f: Event)
    requires Dump(e) == Dump(f)
    ensures e == f
  {
    hide WriteInt, WriteString, Member;
    var start, p, q := Member("{", "seq"), Member(", ", "event_type"), Member(", ", "content");
    var u := WriteInt(e.seqNo) + p + WriteString(e.eventType) + q + WriteString(e.content) + "}";
    var v := WriteInt(f.seqNo) + p + WriteString(f.eventType) + q + WriteString(f.content) + "}";
    assert Dump(e) == start + u && Dump(f) == start + v;
    PrefixCancel(start, u, v);
    MemberIsOneLine(", ", "event_type");
    PartsDiffer(e.seqNo, e.eventType, e.content, f.seqNo, f.eventType, f.content, p, q, "}");
  }

  lemma StringIsOneLine(s: string)
    ensures '\n' !in WriteString(s)
  {
    CharsPrintable(s);
  }

  lemma PartsAreOneLine(a: string, b: string, c: string, d: string, e: string, f: string, g: string)
    requires '\n' !in a && '\n' !in b && '\n' !in c && '\n' !in d && '\n' !in e && '\n' !in f && '\n' !in g
    ensures '\n' !in a + b + c + d + e + f + g
  {
  }

  lemma {:induction false} DumpIsOneLine(e: Event)
    ensures '\n' !in Dump(e)
  {
    hide WriteInt, WriteString, Member;
    IntsArePlain(e.seqNo);
    StringIsOneLine(e.eventType);
    StringIsOneLine(e.content);
    MemberIsOneLine("{", "seq");
    MemberIsOneLine(", ", "event_type");
    MemberIsOneLine(", ", "content");
    PartsAreOneLine(Member("{", "seq"), WriteInt(e.seqNo), Member(", ", "event_type"), WriteString(e.eventType),
                    Member(", ", "content"), WriteString(e.content), "}");
  }

  ghost function Parsed(s: string): Option<Event> {
    if exists e :: Dump(e) == s then
      var e :| Dump(e) == s;
      Some(e)
    else None
  }

  lemma {:induction false} DumpParses(e: Event)
    ensures Parsed(Dump(e)) == Some(e)
  {
    hide Dump;
    var f := Parsed(Dump(e)).value;
    DumpsDiffer(e, f);
  }

  /** The assumption on the codec can be met: written as a JSON object, an event stays on one
      line and is determined by its text. */
  lemma {:induction false} FaithfulCodec()
    ensures Faithful(Codec(Dump, s => Parsed(s)))
  {
    hide Dump, Parsed;
    forall e ensures '\n' !in Dump(e) && Parsed(Dump(e)) == Some(e) {
      DumpIsOneLine(e);
      DumpParses(e);
    }
  }
}
