/** Following the kernel journal across reconnects: the append-only journal
    (src/sovereign_ai/kernel/events.py), the paging generator of the streaming endpoint
    (src/sovereign_ai/api/server.py) and the client's cursor (desktop/src/api/kernelClient.ts). */
module EventStream {
  import opened Json
  import opened Framing

  const PAGE := 200

  /* ---------- the journal ---------- */

  predicate Increasing(es: seq<Event>) {
    forall i, j :: 0 <= i < j < |es| ==> es[i].seqNo < es[j].seqNo
  }

  predicate OneLineTypes(es: seq<Event>) {
    forall i :: 0 <= i < |es| ==> '\n' !in es[i].eventType
  }

  /** Rows with `after < seq <= upTo`, in journal order. */
  function Between(journal: seq<Event>, after: int, upTo: int): seq<Event> {
    if journal == [] then []
    else
      var n := |journal| - 1;
      Between(journal[..n], after, upTo) + (if after < journal[n].seqNo <= upTo then [journal[n]] else [])
  }

  /** Rows with `seq > after`, in journal order. */
  function After(journal: seq<Event>, after: int): seq<Event> {
    if journal == [] then []
    else
      var n := |journal| - 1;
      After(journal[..n], after) + (if journal[n].seqNo > after then [journal[n]] else [])
  }

  function RowsAfter(journal: seq<Event>, after: int, limit: nat): seq<Event> {
    var rows := After(journal, after);
    if |rows| <= limit then rows else rows[..limit]
  }

  /** The cursor after a batch. */
  function CursorAfter(es: seq<Event>, cursor: int): int {
    if es == [] then cursor else es[|es| - 1].seqNo
  }

  lemma {:induction false} AfterMembers(journal: seq<Event>, after: int)
    requires Increasing(journal)
    ensures Increasing(After(journal, after))
    ensures forall i :: 0 <= i < |After(journal, after)| ==>
              After(journal, after)[i] in journal && After(journal, after)[i].seqNo > after
  {
    if journal != [] {
      var n := |journal| - 1;
      AfterMembers(journal[..n], after);
      var front := After(journal[..n], after);
      assert forall i :: 0 <= i < |front| ==> front[i].seqNo < journal[n].seqNo;
    }
  }

  lemma {:induction false} BetweenMembers(journal: seq<Event>, after: int, upTo: int)
    requires Increasing(journal)
    ensures Increasing(Between(journal, after, upTo))
    ensures forall i :: 0 <= i < |Between(journal, after, upTo)| ==>
              var e := Between(journal, after, upTo)[i]; e in journal && after < e.seqNo <= upTo
  {
    if journal != [] {
      var n := |journal| - 1;
      BetweenMembers(journal[..n], after, upTo);
      var front := Between(journal[..n], after, upTo);
      assert forall i :: 0 <= i < |front| ==> front[i].seqNo < journal[n].seqNo;
    }
  }

  /** Adjacent ranges of an ordered journal are adjacent pieces. */
  lemma {:induction false} RangesConcat(journal: seq<Event>, a: int, b: int, c: int)
    requires Increasing(journal) && a <= b <= c
    ensures Between(journal, a, c) == Between(journal, a, b) + Between(journal, b, c)
  {
    if journal != [] {
      var n := |journal| - 1;
      RangesConcat(journal[..n], a, b, c);
      var e := journal[n];
      if a < e.seqNo <= b {
        NothingAbove(journal[..n], b, c, e.seqNo);
      }
    }
  }

  lemma {:induction false} NothingAbove(journal: seq<Event>, after: int, upTo: int, bound: int)
    requires forall i :: 0 <= i < |journal| ==> journal[i].seqNo < bound
    requires bound <= after
    ensures Between(journal, after, upTo) == []
  {
    if journal != [] {
      NothingAbove(journal[..|journal| - 1], after, upTo, bound);
    }
  }

  lemma {:induction false} AfterSplits(journal: seq<Event>, a: int, b: int)
    requires Increasing(journal) && a <= b
    ensures After(journal, a) == Between(journal, a, b) + After(journal, b)
  {
    if journal != [] {
      var n := |journal| - 1;
      var front, e := journal[..n], journal[n];
      AfterSplits(front, a, b);
      if a < e.seqNo <= b {
        NothingAfter(front, b, e.seqNo);
        assert After(journal, b) == [] && After(front, a) + [e] == Between(front, a, b) + [e];
      } else if b < e.seqNo {
        assert After(journal, a) == (Between(front, a, b) + After(front, b)) + [e];
        assert Between(journal, a, b) == Between(front, a, b) && After(journal, b) == After(front, b) + [e];
      } else {
        assert After(journal, a) == After(front, a);
        assert Between(journal, a, b) == Between(front, a, b) && After(journal, b) == After(front, b);
      }
    }
  }

  lemma {:induction false} NothingAfter(journal: seq<Event>, after: int, bound: int)
    requires forall i :: 0 <= i < |journal| ==> journal[i].seqNo < bound
    requires bound <= after
    ensures After(journal, after) == []
  {
    if journal != [] {
      NothingAfter(journal[..|journal| - 1], after, bound);
    }
  }

  lemma {:induction false} EmptyRange(journal: seq<Event>, a: int)
    ensures Between(journal, a, a) == []
  {
    if journal != [] {
      EmptyRange(journal[..|journal| - 1], a);
    }
  }

  /** A piece cut from the front of an ordered range is the range up to its last element. */
  lemma {:induction false} PieceIsRange(journal: seq<Event>, a: int, c: int, x: seq<Event>, y: seq<Event>)
    requires Increasing(journal) && a <= c
    requires Between(journal, a, c) == x + y
    ensures var b := CursorAfter(x, a);
            a <= b <= c && x == Between(journal, a, b) && y == Between(journal, b, c)
  {
    var b := CursorAfter(x, a);
    BetweenMembers(journal, a, c);
    if x == [] {
      EmptyRange(journal, a);
      assert x + y == y;
    } else {
      assert x[|x| - 1] == (x + y)[|x| - 1];
      RangesConcat(journal, a, b, c);
      BetweenMembers(journal, a, b);
      BetweenMembers(journal, b, c);
      CutByValue(x, y, Between(journal, a, b), Between(journal, b, c), b);
    }
  }

  /** Two cuts of one ordered sequence at the same value coincide. */
  lemma {:induction false} CutByValue(x: seq<Event>, y: seq<Event>, u: seq<Event>, v: seq<Event>, b: int)
    requires x + y == u + v && Increasing(x + y)
    requires x != [] && x[|x| - 1].seqNo == b
    requires forall i :: 0 <= i < |u| ==> u[i].seqNo <= b
    requires forall i :: 0 <= i < |v| ==> v[i].seqNo > b
    ensures x == u && y == v
  {
    var all := x + y;
    var k := if |u| < |x| then |u| else |x|;
    assert forall i :: 0 <= i < |all| ==> (all[i].seqNo <= b <==> i < |u|) by {
      assert all == u + v;
    }
    assert forall i :: 0 <= i < |all| ==> (all[i].seqNo <= b <==> i < |x|) by {
      assert all[|x| - 1] == x[|x| - 1];
    }
    assert k < |all| ==> (all[k].seqNo <= b <==> k < |u|) && (all[k].seqNo <= b <==> k < |x|);
    assert x == all[..|x|] && u == all[..|u|];
    assert y == all[|x|..] && v == all[|u|..];
  }

  /** A page is exactly the range from the cursor to the new cursor, and what is left shrinks
      by its size. */
  lemma {:induction false} PageIsRange(journal: seq<Event>, cursor: int, limit: nat)
    requires Increasing(journal)
    ensures var page := RowsAfter(journal, cursor, limit);
            var cursor' := CursorAfter(page, cursor);
            && cursor <= cursor'
            && page == Between(journal, cursor, cursor')
            && After(journal, cursor) == page + After(journal, cursor')
  {
    var rows := After(journal, cursor);
    var page := RowsAfter(journal, cursor, limit);
    var cursor' := CursorAfter(page, cursor);
    AfterMembers(journal, cursor);
    if page == [] {
      EmptyRange(journal, cursor);
    } else {
      AfterSplits(journal, cursor, cursor');
      BetweenMembers(journal, cursor, cursor');
      AfterMembers(journal, cursor');
      var rest := rows[|page|..];
      assert rows == page + rest;
      CutByValue(page, rest, Between(journal, cursor, cursor'), After(journal, cursor'), cursor');
    }
  }

  /* ---------- the protocol ---------- */

  /** One connection: the server's cursor, text under way, and the client's partial frame. */
  datatype Conn = Conn(cursor: int, wire: string, buffer: string)

  datatype World = World(journal: seq<Event>, conn: Option<Conn>, at: int, delivered: seq<Event>)

  datatype Step =
    | Append(e: Event)
    | Connect
    | ServePage
    | Heartbeat
    | Receive(n: nat)
    | Disconnect

  /** What the client makes of its buffer and a new chunk: delivered events, cursor, buffer. */
  function Consume(c: Codec, at: int, buffer: string, chunk: string): (r: (seq<Event>, int, string)) {
    var split := SplitAll(buffer + chunk);
    var events := Payloads(c, split.frames);
    (events, CursorAfter(events, at), split.rest)
  }

  /** A step that is not possible changes nothing. */
  function Next(c: Codec, w: World, step: Step): World {
    match step
    case Append(e) =>
      if (w.journal == [] || w.journal[|w.journal| - 1].seqNo < e.seqNo) && '\n' !in e.eventType
      then World(w.journal + [e], w.conn, w.at, w.delivered)
      else w
    case Connect =>
      if w.conn.None? then World(w.journal, Some(Conn(w.at, "", "")), w.at, w.delivered) else w
    case ServePage =>
      if w.conn.None? then w
      else
        var conn := w.conn.value;
        var page := RowsAfter(w.journal, conn.cursor, PAGE);
        World(w.journal,
              Some(Conn(CursorAfter(page, conn.cursor), conn.wire + PrintAll(c, page), conn.buffer)),
              w.at, w.delivered)
    case Heartbeat =>
      if w.conn.None? then w
      else
        var conn := w.conn.value;
        World(w.journal, Some(Conn(conn.cursor, conn.wire + HEARTBEAT, conn.buffer)), w.at, w.delivered)
    case Receive(n) =>
      if w.conn.None? || n > |w.conn.value.wire| then w
      else
        var conn := w.conn.value;
        var (events, at, buffer) := Consume(c, w.at, conn.buffer, conn.wire[..n]);
        World(w.journal, Some(Conn(conn.cursor, conn.wire[n..], buffer)), at, w.delivered + events)
    case Disconnect => World(w.journal, None, w.at, w.delivered)
  }

  function Run(c: Codec, w: World, steps: seq<Step>): World {
    if steps == [] then w else Next(c, Run(c, w, steps[..|steps| - 1]), steps[|steps| - 1])
  }

  predicate IsRow(journal: seq<Event>, seqNo: int) {
    exists i :: 0 <= i < |journal| && journal[i].seqNo == seqNo
  }

  /** A cursor is still where it started, or at a row. */
  predicate Known(journal: seq<Event>, cursor: int, origin: int) {
    cursor == origin || IsRow(journal, cursor)
  }

  predicate ConnOk(c: Codec, w: World, conn: Conn) {
    && w.at <= conn.cursor
    && Known(w.journal, conn.cursor, w.at)
    && SplitAll(conn.buffer + conn.wire).rest == ""
    && Payloads(c, SplitAll(conn.buffer + conn.wire).frames) == Between(w.journal, w.at, conn.cursor)
  }

  /** What has been delivered is the journal from the start to the cursor; what is under way is
      the journal from there to the server's cursor. */
  predicate Inv(c: Codec, start: int, w: World) {
    && Increasing(w.journal) && OneLineTypes(w.journal)
    && start <= w.at
    && Known(w.journal, w.at, start)
    && w.delivered == Between(w.journal, start, w.at)
    && (w.conn.Some? ==> ConnOk(c, w, w.conn.value))
  }

  lemma {:induction false} AppendLeavesRange(journal: seq<Event>, e: Event, after: int, upTo: int)
    requires Increasing(journal + [e])
    requires Known(journal, upTo, after)
    ensures Between(journal + [e], after, upTo) == Between(journal, after, upTo)
  {
    assert (journal + [e])[..|journal|] == journal;
    assert forall i :: 0 <= i < |journal| ==> (journal + [e])[i] == journal[i];
    if after == upTo {
      EmptyRange(journal, after);
      EmptyRange(journal + [e], after);
    }
  }

  lemma {:induction false} AppendKeeps(c: Codec, start: int, w: World, e: Event)
    requires Inv(c, start, w)
    ensures Inv(c, start, Next(c, w, Append(e)))
  {
    hide SplitAll, Payloads, Between;
    var w' := Next(c, w, Append(e));
    if w' != w {
      var j := w.journal + [e];
      assert forall i :: 0 <= i < |w.journal| ==> j[i] == w.journal[i];
      AppendLeavesRange(w.journal, e, start, w.at);
      if w.conn.Some? {
        AppendLeavesRange(w.journal, e, w.at, w.conn.value.cursor);
      }
    }
  }

  lemma {:induction false} ConnectKeeps(c: Codec, start: int, w: World)
    requires Inv(c, start, w)
    ensures Inv(c, start, Next(c, w, Connect))
  {
    EmptyRemainder();
    EmptyRange(w.journal, w.at);
    assert "" + "" == "";
  }

  lemma {:induction false} RowsHaveOneLineTypes(journal: seq<Event>, after: int, limit: nat)
    requires Increasing(journal) && OneLineTypes(journal)
    ensures OneLineTypes(RowsAfter(journal, after, limit))
    ensures forall i :: 0 <= i < |RowsAfter(journal, after, limit)| ==> RowsAfter(journal, after, limit)[i] in journal
  {
    AfterMembers(journal, after);
  }

  /** Text that splits without remainder, appended to the wire, adds exactly its events. */
  lemma {:induction false} WireGrows(c: Codec, buffer: string, wire: string, more: string)
    requires SplitAll(buffer + wire).rest == "" && SplitAll(more).rest == ""
    ensures var split := SplitAll(buffer + (wire + more));
            && split.rest == ""
            && Payloads(c, split.frames)
               == Payloads(c, SplitAll(buffer + wire).frames) + Payloads(c, SplitAll(more).frames)
  {
    hide SplitAll;
    assert buffer + (wire + more) == (buffer + wire) + more;
    SplitAppend(buffer + wire, more);
    assert "" + more == more;
    PayloadsConcat(c, SplitAll(buffer + wire).frames, SplitAll(more).frames);
  }

  lemma {:induction false} ServePageKeeps(c: Codec, start: int, w: World)
    requires Faithful(c) && Inv(c, start, w)
    ensures Inv(c, start, Next(c, w, ServePage))
  {
    hide SplitAll, Payloads, Between, PrintAll, Faithful, RowsAfter;
    if w.conn.Some? {
      var conn := w.conn.value;
      var page := RowsAfter(w.journal, conn.cursor, PAGE);
      RowsHaveOneLineTypes(w.journal, conn.cursor, PAGE);
      PrintedBatchRoundTrip(c, page);
      WireGrows(c, conn.buffer, conn.wire, PrintAll(c, page));
      PageIsRange(w.journal, conn.cursor, PAGE);
      RangesConcat(w.journal, w.at, conn.cursor, CursorAfter(page, conn.cursor));
      assert page != [] ==> page[|page| - 1] in w.journal;
    }
  }

  lemma {:induction false} HeartbeatKeeps(c: Codec, start: int, w: World)
    requires Inv(c, start, w)
    ensures Inv(c, start, Next(c, w, Heartbeat))
  {
    hide SplitAll, Payloads, Between;
    if w.conn.Some? {
      HeartbeatCarriesNothing(c);
      WireGrows(c, w.conn.value.buffer, w.conn.value.wire, HEARTBEAT);
    }
  }

  lemma {:induction false} ReceiveKeeps(c: Codec, start: int, w: World, n: nat)
    requires Inv(c, start, w)
    ensures Inv(c, start, Next(c, w, Receive(n)))
  {
    hide SplitAll, Payloads, Between;
    if w.conn.Some? && n <= |w.conn.value.wire| {
      var conn := w.conn.value;
      var chunk, later := conn.wire[..n], conn.wire[n..];
      assert conn.buffer + conn.wire == (conn.buffer + chunk) + later by {
        assert conn.wire == chunk + later;
      }
      SplitAppend(conn.buffer + chunk, later);
      var first := SplitAll(conn.buffer + chunk);
      var second := SplitAll(first.rest + later);
      PayloadsConcat(c, first.frames, second.frames);
      var now, rest := Payloads(c, first.frames), Payloads(c, second.frames);
      PieceIsRange(w.journal, w.at, conn.cursor, now, rest);
      var at := CursorAfter(now, w.at);
      RangesConcat(w.journal, start, w.at, at);
      BetweenMembers(w.journal, w.at, at);
      assert now != [] ==> now[|now| - 1] in w.journal;
      assert Known(w.journal, at, start);
      assert Known(w.journal, conn.cursor, at);
    }
  }

  lemma {:induction false} StepKeeps(c: Codec, start: int, w: World, step: Step)
    requires Faithful(c) && Inv(c, start, w)
    ensures Inv(c, start, Next(c, w, step))
  {
    hide Faithful, SplitAll, Payloads, Between, PrintAll, Consume;
    match step
    case Append(e) => AppendKeeps(c, start, w, e);
    case Connect => ConnectKeeps(c, start, w);
    case ServePage => ServePageKeeps(c, start, w);
    case Heartbeat => HeartbeatKeeps(c, start, w);
    case Receive(n) => ReceiveKeeps(c, start, w, n);
    case Disconnect =>
  }

  lemma {:induction false} RunKeeps(c: Codec, start: int, w: World, steps: seq<Step>)
    requires Faithful(c) && Inv(c, start, w)
    ensures Inv(c, start, Run(c, w, steps))
  {
    hide Inv, Next, Faithful;
    if steps != [] {
      RunKeeps(c, start, w, steps[..|steps| - 1]);
      StepKeeps(c, start, Run(c, w, steps[..|steps| - 1]), steps[|steps| - 1]);
    }
  }

  /** What each step does to the journal and to the text under way: an event is added if its
      number is new and its type is one line, a page and a heartbeat are sent as they are printed,
      a reconnection starts over at the client's cursor; and nothing else changes either. */
  lemma {:induction false} StepAnswers(c: Codec, w: World, step: Step)
    ensures var w' := Next(c, w, step);
            match step
            case Append(e) =>
              w' == if (w.journal == [] || w.journal[|w.journal| - 1].seqNo < e.seqNo) && '\n' !in e.eventType
                    then w.(journal := w.journal + [e]) else w
            case Connect => w' == if w.conn == None then w.(conn := Some(Conn(w.at, "", ""))) else w
            case Disconnect => w' == w.(conn := None)
            case ServePage =>
              w' == if w.conn == None then w else
                var conn, page := w.conn.value, RowsAfter(w.journal, w.conn.value.cursor, 200);
                w.(conn := Some(Conn(if page == [] then conn.cursor else page[|page| - 1].seqNo,
                                     conn.wire + PrintAll(c, page), conn.buffer)))
            case Heartbeat =>
              w' == if w.conn == None then w else
                w.(conn := Some(w.conn.value.(wire := w.conn.value.wire + ": heartbeat\n\n")))
            case Receive(n) => w'.journal == w.journal
  {
    hide RowsAfter, PrintAll, Consume;
    assert HEARTBEAT == ": heartbeat\n\n";
  }

  /** A client that has just been asked to follow the journal from `start`. */
  function Beginning(journal: seq<Event>, start: int): World {
    World(journal, None, start, [])
  }

  /** Exactly once: however appends, pages, heartbeats, partial reads, disconnects and
      reconnects interleave, the client has delivered precisely the rows with
      `start < seq <= at`, in journal order, with no gap and no duplicate. */
  lemma {:induction false} ExactlyOnce(c: Codec, journal: seq<Event>, start: int, steps: seq<Step>)
    requires Faithful(c) && Increasing(journal) && OneLineTypes(journal)
    ensures var w := Run(c, Beginning(journal, start), steps);
            && start <= w.at
            && Increasing(w.journal) && Increasing(w.delivered)
            && w.delivered == Between(w.journal, start, w.at)
  {
    EmptyRange(journal, start);
    RunKeeps(c, start, Beginning(journal, start), steps);
    var w := Run(c, Beginning(journal, start), steps);
    BetweenMembers(w.journal, start, w.at);
  }

  /** Progress: from any reachable connected state, one page that arrives in full leaves at
      most the rows beyond the next 200 undelivered. */
  lemma {:induction false} FullPageAdvances(c: Codec, start: int, w: World)
    requires Faithful(c) && Inv(c, start, w) && w.conn.Some?
    ensures var served := Next(c, w, ServePage);
            var w' := Next(c, served, Receive(|served.conn.value.wire|));
            && w'.at == served.conn.value.cursor
            && w'.conn == Some(Conn(w'.at, "", ""))
            && w'.delivered == Between(w.journal, start, w'.at)
            && |After(w.journal, w'.at)| == (if |After(w.journal, w.conn.value.cursor)| <= 200 then 0
                                             else |After(w.journal, w.conn.value.cursor)| - 200)
  {
    hide SplitAll, Payloads, Between, PrintAll, Faithful, After;
    var served := Next(c, w, ServePage);
    ServePageKeeps(c, start, w);
    PageIsRange(w.journal, w.conn.value.cursor, PAGE);
    EverythingArrives(c, start, served);
  }

  lemma {:induction false} RowIsInRange(journal: seq<Event>, i: nat, after: int, upTo: int)
    requires i < |journal| && after < journal[i].seqNo <= upTo
    ensures journal[i] in Between(journal, after, upTo)
  {
    var n := |journal| - 1;
    if i < n {
      RowIsInRange(journal[..n], i, after, upTo);
    }
  }

  lemma {:induction false} RangeEndsAtRow(journal: seq<Event>, after: int, upTo: int)
    requires Increasing(journal) && after <= upTo && Known(journal, upTo, after)
    ensures CursorAfter(Between(journal, after, upTo), after) == upTo
  {
    var range := Between(journal, after, upTo);
    BetweenMembers(journal, after, upTo);
    if after == upTo {
      EmptyRange(journal, after);
    } else {
      var i :| 0 <= i < |journal| && journal[i].seqNo == upTo;
      RowIsInRange(journal, i, after, upTo);
      var k :| 0 <= k < |range| && range[k] == journal[i];
    }
  }

  /** When all text under way has arrived, the client is level with the server. */
  lemma {:induction false} EverythingArrives(c: Codec, start: int, w: World)
    requires Inv(c, start, w) && w.conn.Some?
    ensures var w' := Next(c, w, Receive(|w.conn.value.wire|));
            && w'.conn == Some(Conn(w.conn.value.cursor, "", ""))
            && w'.at == w.conn.value.cursor
            && w'.delivered == Between(w.journal, start, w'.at)
  {
    hide SplitAll, Payloads, Between;
    var conn := w.conn.value;
    assert conn.wire[..|conn.wire|] == conn.wire && conn.wire[|conn.wire|..] == "";
    ReceiveKeeps(c, start, w, |conn.wire|);
    RangeEndsAtRow(w.journal, w.at, conn.cursor);
  }

  /* ---------- the three parties ---------- */

  /** `k` pages on one connection, each received in full. */
  function Rounds(c: Codec, w: World, k: nat): World {
    if k == 0 then w
    else
      var served := Next(c, Rounds(c, w, k - 1), ServePage);
      if served.conn.None? then served else Next(c, served, Receive(|served.conn.value.wire|))
  }

  /** Catching up: however a client was cut off, once it has reconnected and received k pages, it
      has delivered the next 200 k rows of the journal, or all there are. */
  lemma {:induction false} CatchesUp(c: Codec, start: int, w: World, k: nat)
    requires Faithful(c) && Inv(c, start, w)
    ensures var v := Rounds(c, Next(c, Next(c, w, Disconnect), Connect), k);
            && v.journal == w.journal && v.conn == Some(Conn(v.at, "", "")) && w.at <= v.at
            && v.delivered == Between(w.journal, start, v.at)
            && |After(w.journal, v.at)| == (if |After(w.journal, w.at)| <= 200 * k then 0
                                            else |After(w.journal, w.at)| - 200 * k)
            && Inv(c, start, v)
  {
    hide *;
    var off := Next(c, w, Disconnect);
    var again := Next(c, off, Connect);
    StepKeeps(c, start, w, Disconnect);
    StepKeeps(c, start, off, Connect);
    OffAndOn(c, w);
    RoundsStep(c, again, k);
    if k == 0 {
      InvFacts(c, start, again);
    } else {
      CatchesUp(c, start, w, k - 1);
      OneRound(c, start, Rounds(c, again, k - 1));
    }
  }

  lemma {:induction false} OffAndOn(c: Codec, w: World)
    ensures Next(c, Next(c, w, Disconnect), Connect) == World(w.journal, Some(Conn(w.at, "", "")), w.at, w.delivered)
  {
  }

  lemma {:induction false} RoundsStep(c: Codec, w: World, k: nat)
    ensures Rounds(c, w, 0) == w
    ensures k > 0 ==>
              var served := Next(c, Rounds(c, w, k - 1), ServePage);
              Rounds(c, w, k)
              == if served.conn.None? then served else Next(c, served, Receive(|served.conn.value.wire|))
  {
    hide Next;
  }

  lemma {:induction false} InvFacts(c: Codec, start: int, w: World)
    requires Inv(c, start, w)
    ensures w.delivered == Between(w.journal, start, w.at)
  {
  }

  lemma {:induction false} OneRound(c: Codec, start: int, v: World)
    requires Faithful(c) && Inv(c, start, v) && v.conn == Some(Conn(v.at, "", ""))
    ensures var served := Next(c, v, ServePage);
            && served.conn.Some?
            && var w' := Next(c, served, Receive(|served.conn.value.wire|));
               && w'.journal == v.journal && w'.conn == Some(Conn(w'.at, "", "")) && v.at <= w'.at && Inv(c, start, w')
               && w'.delivered == Between(v.journal, start, w'.at)
               && |After(v.journal, w'.at)|
                  == (if |After(v.journal, v.at)| <= 200 then 0 else |After(v.journal, v.at)| - 200)
  {
    FullPageAdvances(c, start, v);
    StepKeeps(c, start, v, ServePage);
    var served := Next(c, v, ServePage);
    StepKeeps(c, start, served, Receive(|served.conn.value.wire|));
    assert Increasing(v.journal);
    PageIsRange(v.journal, v.at, PAGE);
    hide Inv, Faithful, After, Between, SplitAll, Payloads, PrintAll, RowsAfter;
  }

  lemma {:induction false} PageIsFull(journal: seq<Event>, after: int, limit: nat)
    requires Increasing(journal)
    ensures var page := RowsAfter(journal, after, limit);
            |page| <= limit && (|page| < limit ==> After(journal, CursorAfter(page, after)) == [])
  {
    hide Increasing, After;
    PageIsRange(journal, after, limit);
    var page := RowsAfter(journal, after, limit);
    if |page| < limit {
      assert |After(journal, after)| == |page| + |After(journal, CursorAfter(page, after))|;
    }
  }

  lemma {:induction false} NoRowsAfter(journal: seq<Event>, after: int, limit: nat)
    ensures RowsAfter(journal[..0], after, limit) == []
  {
  }

  lemma {:induction false} OneMoreRow(journal: seq<Event>, i: nat, after: int, limit: nat)
    requires i < |journal|
    ensures var rows := RowsAfter(journal[..i], after, limit);
            RowsAfter(journal[..i + 1], after, limit)
            == if journal[i].seqNo > after && |rows| < limit then rows + [journal[i]] else rows
  {
    assert journal[..i + 1][..i] == journal[..i];
    var before, now := After(journal[..i], after), After(journal[..i + 1], after);
    assert now == before + if journal[i].seqNo > after then [journal[i]] else [];
  }

  class EventStore {
    var journal: seq<Event>

    constructor ()
      ensures journal == [] && Valid()
    {
      journal := [];
    }

    predicate Valid()
      reads this
    {
      Increasing(journal)
    }

    /** The key is one more than the largest ever used. */
    method Append(eventType: string, content: string) returns (e: Event)
      requires Valid()
      modifies this
      ensures Valid() && journal == old(journal) + [e]
      ensures e.eventType == eventType && e.content == content
      ensures e.seqNo == if old(journal) == [] then 1 else old(journal)[|old(journal)| - 1].seqNo + 1
    {
      e := Event(if journal == [] then 1 else journal[|journal| - 1].seqNo + 1, eventType, content);
      journal := journal + [e];
    }

    /** The first `limit` rows beyond the cursor. */
    method ReadAfter(after: int, limit: nat) returns (rows: seq<Event>)
      requires Valid()
      ensures rows == RowsAfter(journal, after, limit)
      ensures rows == Between(journal, after, CursorAfter(rows, after))
      ensures |rows| <= limit && (|rows| < limit ==> After(journal, CursorAfter(rows, after)) == [])
    {
      PageIsRange(journal, after, limit);
      PageIsFull(journal, after, limit);
      rows := [];
      hide *;
      NoRowsAfter(journal, after, limit);
      for i := 0 to |journal|
        invariant rows == RowsAfter(journal[..i], after, limit)
      {
        OneMoreRow(journal, i, after, limit);
        if journal[i].seqNo > after && |rows| < limit {
          rows := rows + [journal[i]];
        }
      }
      assert journal[..|journal|] == journal;
    }
  }

  lemma {:induction false} NothingPrinted(c: Codec, page: seq<Event>, cursor: int)
    ensures PrintAll(c, page[..0]) == "" && CursorAfter(page[..0], cursor) == cursor
  {
  }

  lemma {:induction false} OneMorePrinted(c: Codec, page: seq<Event>, i: nat, cursor: int)
    requires i < |page|
    ensures PrintAll(c, page[..i + 1]) == PrintAll(c, page[..i]) + Print(c, page[i])
    ensures CursorAfter(page[..i + 1], cursor) == page[i].seqNo
  {
    PrintAllAppends(c, page[..i], page[i]);
    assert page[..i + 1] == page[..i] + [page[i]];
  }

  /** The generator behind one streaming response. */
  class FrameSource {
    const codec: Codec
    const store: EventStore
    var cursor: int

    constructor (codec: Codec, store: EventStore, after: int)
      ensures this.codec == codec && this.store == store && cursor == after
    {
      this.codec, this.store, this.cursor := codec, store, after;
    }

    /** One turn of the loop: prints a page and moves the cursor past it. */
    method NextPage() returns (text: string)
      requires store.Valid()
      modifies this`cursor
      ensures var page := RowsAfter(store.journal, old(cursor), PAGE);
              text == PrintAll(codec, page) && cursor == CursorAfter(page, old(cursor))
    {
      hide Increasing, Between, After, RowsAfter, CursorAfter, PrintAll, Print;
      var page := store.ReadAfter(cursor, PAGE);
      text := "";
      NothingPrinted(codec, page, cursor);
      for i := 0 to |page|
        invariant text == PrintAll(codec, page[..i])
        invariant cursor == CursorAfter(page[..i], old(cursor))
      {
        OneMorePrinted(codec, page, i, old(cursor));
        cursor := page[i].seqNo;
        text := text + Print(codec, page[i]);
      }
      assert page[..|page|] == page;
    }
  }

  /** The client's side of one connection. */
  class StreamClient {
    const codec: Codec
    var at: int
    var buffer: string
    var delivered: seq<Event>

    constructor (codec: Codec, cursor: int)
      ensures this.codec == codec && at == cursor && buffer == "" && delivered == []
    {
      this.codec, at, buffer, delivered := codec, cursor, "", [];
    }

    /** A new connection resumes at `at` and forgets any partial frame. */
    method Reconnect() returns (after: int)
      modifies this`buffer
      ensures after == at && buffer == ""
    {
      buffer := "";
      after := at;
    }

    method ReadFrame(frame: string) returns (payload: Option<Event>)
      ensures payload == Payload(codec, Lines(frame))
    {
      payload := None;
      var lines := Lines(frame);
      for i := 0 to |lines|
        invariant payload == Payload(codec, lines[..i])
      {
        assert lines[..i + 1][..i] == lines[..i];
        if IsData(lines[i]) {
          payload := codec.parse(lines[i][6..]);
        }
      }
      assert lines[..|lines|] == lines;
    }

    /** Adds a chunk to the buffer and delivers every frame that is now complete. */
    method OnChunk(chunk: string)
      modifies this
      ensures var (events, cursor, rest) := Consume(codec, old(at), old(buffer), chunk);
              delivered == old(delivered) + events && at == cursor && buffer == rest
    {
      hide Lines, Payload, SplitAll;
      buffer := buffer + chunk;
      ghost var all := SplitAll(buffer);
      ghost var done: seq<string> := [];
      assert done + all.frames == all.frames;
      var split := FindBlank(buffer);
      while split.Some?
        invariant split == FindBlank(buffer)
        invariant all == Split(done + SplitAll(buffer).frames, SplitAll(buffer).rest)
        invariant delivered == old(delivered) + Payloads(codec, done)
        invariant at == CursorAfter(Payloads(codec, done), old(at))
        decreases |buffer|
      {
        label Turn:
        var frame := buffer[..split.value];
        ghost var tail := SplitAll(buffer[split.value + 2..]);
        assert done + ([frame] + tail.frames) == (done + [frame]) + tail.frames;
        buffer := buffer[split.value + 2..];
        var payload := ReadFrame(frame);
        SplitStep(old@Turn(buffer));
        PayloadsConcat(codec, done, [frame]);
        OneFrame(codec, frame);
        if payload.Some? {
          at := payload.value.seqNo;
          delivered := delivered + [payload.value];
        }
        done := done + [frame];
        split := FindBlank(buffer);
      }
      SplitStep(buffer);
      assert done + [] == done;
    }
  }

  lemma {:induction false} SplitStep(s: string)
    ensures SplitAll(s) == match FindBlank(s)
                           case None => Split([], s)
                           case Some(i) => Split([s[..i]] + SplitAll(s[i + 2..]).frames, SplitAll(s[i + 2..]).rest)
  {
  }

  lemma {:induction false} OneFrame(c: Codec, frame: string)
    ensures Payloads(c, [frame]) == match Payload(c, Lines(frame)) case None => [] case Some(e) => [e]
  {
    assert [frame][1..] == [];
  }
}
