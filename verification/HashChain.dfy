/** Rooms with an append-only, per-room hash-chained event log
    (src/sovereign_ai/collaboration/store.py).

    One table holds the events of all rooms, in insertion order; each room's chain is the
    subsequence of its rows, and each room has one anchor row (head hash and event count).
    The hash function is a parameter: nothing is assumed about it. */
module HashChain {
  import opened Json

  /** The hash a chain starts from: 64 zeros. */
  function Genesis(): string {
    seq(64, _ => '0')
  }

  datatype Event = Event(
    eventId: string,
    roomId: string,
    eventType: string,
    actorId: string,
    payloadJson: string,
    trust: string,
    parentEventId: Option<string>,
    createdAtNs: int,
    previousHash: string,
    eventHash: string)

  /* ---------- the canonical text that is hashed ---------- */

  datatype Value = Text(s: string) | Number(n: int) | Nullable(o: Option<string>)

  function WriteValue(v: Value): string {
    match v
    case Text(s) => WriteString(s)
    case Number(n) => WriteInt(n)
    case Nullable(o) => WriteOptional(o)
  }

  /** The members of an object after its opening `separator`, with compact separators. */
  function WriteMembers(separator: string, keys: seq<string>, values: seq<Value>): string
    requires |keys| == |values|
    decreases values
  {
    if keys == [] then "}"
    else separator + WriteString(keys[0]) + ":" + WriteValue(values[0]) + WriteMembers(",", keys[1..], values[1..])
  }

  predicate SameKind(v: Value, w: Value) {
    v.Text? == w.Text? && v.Number? == w.Number?
  }

  lemma ValueCancel(v: Value, x: string, w: Value, y: string)
    requires SameKind(v, w)
    requires |x| > 0 && !IsDigit(x[0]) && |y| > 0 && !IsDigit(y[0])
    requires WriteValue(v) + x == WriteValue(w) + y
    ensures v == w && x == y
  {
    match v
    case Text(_) => StringCancel(v.s, x, w.s, y);
    case Number(_) => IntCancel(v.n, x, w.n, y);
    case Nullable(_) => OptionalCancel(v.o, x, w.o, y);
  }

  lemma MembersStart(keys: seq<string>, values: seq<Value>)
    requires |keys| == |values|
    ensures |WriteMembers(",", keys, values)| > 0 && !IsDigit(WriteMembers(",", keys, values)[0])
  {
  }

  lemma MembersSplit(separator: string, keys: seq<string>, values: seq<Value>)
    requires |keys| == |values| > 0
    ensures WriteMembers(separator, keys, values)
         == (separator + WriteString(keys[0]) + ":")
            + (WriteValue(values[0]) + WriteMembers(",", keys[1..], values[1..]))
  {
  }

  /** Two objects with the same keys and the same kinds of values have the same text only if
      they have the same values. */
  lemma {:induction false} MembersInjective(separator: string, keys: seq<string>, vs: seq<Value>, ws: seq<Value>)
    requires |keys| == |vs| == |ws|
    requires forall i :: 0 <= i < |keys| ==> SameKind(vs[i], ws[i])
    requires WriteMembers(separator, keys, vs) == WriteMembers(separator, keys, ws)
    ensures vs == ws
    decreases vs
  {
    hide WriteMembers, WriteString, WriteValue, IsDigit;
    if keys != [] {
      MembersSplit(separator, keys, vs);
      MembersSplit(separator, keys, ws);
      var vTail, wTail := WriteMembers(",", keys[1..], vs[1..]), WriteMembers(",", keys[1..], ws[1..]);
      PrefixCancel(separator + WriteString(keys[0]) + ":", WriteValue(vs[0]) + vTail, WriteValue(ws[0]) + wTail);
      MembersStart(keys[1..], vs[1..]);
      MembersStart(keys[1..], ws[1..]);
      ValueCancel(vs[0], vTail, ws[0], wTail);
      MembersInjective(",", keys[1..], vs[1..], ws[1..]);
      assert vs == [vs[0]] + vs[1..] == [ws[0]] + ws[1..] == ws;
    }
  }

  const DIGEST_KEYS: seq<string> := [
    "actor_id", "created_at_ns", "event_id", "event_type", "parent_event_id",
    "payload_json", "previous_hash", "room_id", "trust"]

  function DigestValues(e: Event, previousHash: string): seq<Value> {
    [Text(e.actorId), Number(e.createdAtNs), Text(e.eventId), Text(e.eventType), Nullable(e.parentEventId),
     Text(e.payloadJson), Text(previousHash), Text(e.roomId), Text(e.trust)]
  }

  /** The sorted-key compact JSON of the nine digest fields. */
  function Canonical(e: Event, previousHash: string): string {
    WriteMembers("{", DIGEST_KEYS, DigestValues(e, previousHash))
  }

  /** The canonical text determines all nine digest fields. */
  lemma CanonicalInjective(e: Event, p: string, f: Event, q: string)
    requires Canonical(e, p) == Canonical(f, q)
    ensures p == q
    ensures e.(previousHash := "", eventHash := "") == f.(previousHash := "", eventHash := "")
  {
    hide WriteMembers;
    var vs, ws := DigestValues(e, p), DigestValues(f, q);
    MembersInjective("{", DIGEST_KEYS, vs, ws);
    EqualDigestValues(e, p, f, q);
  }

  lemma EqualDigestValues(e: Event, p: string, f: Event, q: string)
    requires DigestValues(e, p) == DigestValues(f, q)
    ensures p == q
    ensures e.(previousHash := "", eventHash := "") == f.(previousHash := "", eventHash := "")
  {
    var vs, ws := DigestValues(e, p), DigestValues(f, q);
    assert vs[0] == ws[0] && vs[1] == ws[1] && vs[2] == ws[2] && vs[3] == ws[3] && vs[4] == ws[4];
    assert vs[5] == ws[5] && vs[6] == ws[6] && vs[7] == ws[7] && vs[8] == ws[8];
  }

  /* ---------- chains ---------- */

  function HeadHash(rows: seq<Event>): string {
    if rows == [] then Genesis() else rows[|rows| - 1].eventHash
  }

  /** Row `i` points at its predecessor and carries the hash of its own fields. */
  predicate LinkOk(h: string -> string, rows: seq<Event>, i: nat)
    requires i < |rows|
  {
    var previous := HeadHash(rows[..i]);
    rows[i].previousHash == previous && rows[i].eventHash == h(Canonical(rows[i], previous))
  }

  predicate Chained(h: string -> string, rows: seq<Event>) {
    forall i :: 0 <= i < |rows| ==> LinkOk(h, rows, i)
  }

  datatype Anchor = Anchor(eventHash: string, eventCount: int)

  datatype Report =
    | Intact(events: nat, head: string)
    | Broken(events: nat, brokenAt: string)
    | AnchorMismatch(events: nat, head: string)

  /** The verdict over one room's rows and its anchor.  `Broken` names the first bad row. */
  method VerifyRows(h: string -> string, rows: seq<Event>, anchor: Option<Anchor>) returns (report: Report)
    ensures report.events == |rows|
    ensures report.Broken? <==> !Chained(h, rows)
    ensures report.Broken? ==>
      exists i :: 0 <= i < |rows| && report.brokenAt == rows[i].eventId && !LinkOk(h, rows, i)
                  && forall j :: 0 <= j < i ==> LinkOk(h, rows, j)
    ensures report.Intact? <==> Chained(h, rows) && anchor == Some(Anchor(HeadHash(rows), |rows|))
    ensures !report.Broken? ==> report.head == HeadHash(rows)
  {
    hide Canonical;
    var previousHash := Genesis();
    for i := 0 to |rows|
      invariant previousHash == HeadHash(rows[..i])
      invariant forall j :: 0 <= j < i ==> LinkOk(h, rows, j)
    {
      var row := rows[i];
      var expected := h(Canonical(row, previousHash));
      if row.previousHash != previousHash || row.eventHash != expected {
        assert !LinkOk(h, rows, i);
        return Broken(|rows|, row.eventId);
      }
      previousHash := row.eventHash;
    }
    assert rows[..|rows|] == rows;
    if anchor.None? || anchor.value.eventHash != previousHash || anchor.value.eventCount != |rows| {
      return AnchorMismatch(|rows|, previousHash);
    }
    return Intact(|rows|, previousHash);
  }

  /** What `VerifyRows` accepts. */
  predicate Accepted(h: string -> string, rows: seq<Event>, anchor: Option<Anchor>) {
    Chained(h, rows) && anchor == Some(Anchor(HeadHash(rows), |rows|))
  }

  lemma ChainedPrefix(h: string -> string, rows: seq<Event>, n: nat)
    requires Chained(h, rows) && n <= |rows|
    ensures Chained(h, rows[..n])
  {
    forall i | 0 <= i < n ensures LinkOk(h, rows[..n], i) {
      assert rows[..n][..i] == rows[..i];
      assert LinkOk(h, rows, i);
    }
  }

  /** The text whose hash row `i` carries. */
  function HashedText(rows: seq<Event>, i: nat): string
    requires i < |rows|
  {
    Canonical(rows[i], HeadHash(rows[..i]))
  }

  /** A collision of the hash function, found among the texts of the two row lists. */
  predicate CollisionBetween(h: string -> string, xs: seq<Event>, ys: seq<Event>) {
    exists i :: 0 <= i < |xs| && i < |ys| && HashedText(xs, i) != HashedText(ys, i)
                && h(HashedText(xs, i)) == h(HashedText(ys, i))
  }

  /** Tamper evidence.  Two row lists accepted against one anchor are the same rows, column by
      column, unless their own texts exhibit a collision of the hash function. */
  lemma {:induction false} TamperEvidence(h: string -> string, xs: seq<Event>, ys: seq<Event>)
    requires Chained(h, xs) && Chained(h, ys)
    requires |xs| == |ys| && HeadHash(xs) == HeadHash(ys)
    ensures xs == ys || CollisionBetween(h, xs, ys)
    decreases |xs|
  {
    hide Canonical;
    if xs != [] {
      var n := |xs| - 1;
      assert LinkOk(h, xs, n) && LinkOk(h, ys, n);
      if HashedText(xs, n) == HashedText(ys, n) {
        CanonicalInjective(xs[n], HeadHash(xs[..n]), ys[n], HeadHash(ys[..n]));
        ChainedPrefix(h, xs, n);
        ChainedPrefix(h, ys, n);
        TamperEvidence(h, xs[..n], ys[..n]);
        if xs[..n] == ys[..n] {
          assert xs == xs[..n] + [xs[n]] == ys[..n] + [ys[n]] == ys;
        } else {
          var i :| 0 <= i < n && HashedText(xs[..n], i) != HashedText(ys[..n], i)
                   && h(HashedText(xs[..n], i)) == h(HashedText(ys[..n], i));
          assert xs[..n][..i] == xs[..i] && ys[..n][..i] == ys[..i];
          assert HashedText(xs, i) != HashedText(ys, i);
        }
      }
    }
  }

  ghost predicate Injective(h: string -> string) {
    forall a, b :: h(a) == h(b) ==> a == b
  }

  /** With a collision-free hash there is exactly one history per anchor. */
  lemma AnchorDeterminesHistory(h: string -> string, xs: seq<Event>, ys: seq<Event>, anchor: Option<Anchor>)
    requires Injective(h)
    requires Accepted(h, xs, anchor) && Accepted(h, ys, anchor)
    ensures xs == ys
  {
    TamperEvidence(h, xs, ys);
  }

  /* ---------- the store ---------- */

  datatype Kind = Human | Agent | System

  datatype Identity = Identity(
    displayName: string, kind: Kind, trust: string, agentJson: Option<string>,
    agentProfileId: Option<string>, createdAtNs: int)

  datatype Room = Room(name: string, purpose: string, createdAtNs: int)

  datatype Tables = Tables(
    identities: map<string, Identity>,
    rooms: map<string, Room>,
    members: set<(string, string)>,
    heads: map<string, Anchor>,
    events: seq<Event>)

  const EMPTY := Tables(map[], map[], {}, map[], [])

  function RoomEvents(events: seq<Event>, roomId: string): seq<Event> {
    if events == [] then []
    else
      var n := |events| - 1;
      RoomEvents(events[..n], roomId) + (if events[n].roomId == roomId then [events[n]] else [])
  }

  lemma RoomEventsAppend(events: seq<Event>, e: Event, roomId: string)
    ensures RoomEvents(events + [e], roomId) ==
            if e.roomId == roomId then RoomEvents(events, roomId) + [e] else RoomEvents(events, roomId)
  {
    assert (events + [e])[..|events|] == events;
  }

  datatype Op =
    | OpenStore
    | UpsertIdentity(id: string, identity: Identity)
    | CreateIdentity(id: string, identity: Identity)
    | UpdateIdentity(id: string, identity: Identity)
    | LinkAgentProfile(id: string, agentProfileId: Option<string>)
    | CreateRoom(roomId: string, room: Room)
    | AddMember(roomId: string, identityId: string)
    | AppendEvent(roomId: string, eventType: string, actorId: string, payloadJson: string,
                  parentEventId: Option<string>, eventId: string, createdAtNs: int)

  /** Anchors for rooms that have none; existing anchors are left alone. */
  function Adopted(t: Tables): map<string, Anchor> {
    map r | r in t.rooms.Keys + t.heads.Keys ::
      if r in t.heads then t.heads[r]
      else Anchor(HeadHash(RoomEvents(t.events, r)), |RoomEvents(t.events, r)|)
  }

  function NewEvent(h: string -> string, t: Tables, op: Op): Event
    requires op.AppendEvent? && op.actorId in t.identities
  {
    var previous := HeadHash(RoomEvents(t.events, op.roomId));
    var e := Event(op.eventId, op.roomId, op.eventType, op.actorId, op.payloadJson,
                   t.identities[op.actorId].trust, op.parentEventId, op.createdAtNs, previous, "");
    e.(eventHash := h(Canonical(e, previous)))
  }

  /** The two UNIQUE columns refuse a row that repeats an event id or a hash. */
  predicate Fresh(events: seq<Event>, eventId: string, eventHash: string) {
    forall i :: 0 <= i < |events| ==> events[i].eventId != eventId && events[i].eventHash != eventHash
  }

  predicate Appends(h: string -> string, t: Tables, op: Op)
    requires op.AppendEvent?
  {
    && (op.roomId, op.actorId) in t.members
    && op.actorId in t.identities
    && Fresh(t.events, op.eventId, NewEvent(h, t, op).eventHash)
  }

  function AfterAppend(t: Tables, e: Event): Tables {
    var heads := if e.roomId in t.heads
                 then t.heads[e.roomId := Anchor(e.eventHash, t.heads[e.roomId].eventCount + 1)]
                 else t.heads;
    Tables(t.identities, t.rooms, t.members, heads, t.events + [e])
  }

  function AfterCreateRoom(t: Tables, r: string, room: Room): Tables {
    var createdAtNs := if r in t.rooms then t.rooms[r].createdAtNs else room.createdAtNs;
    var heads := if r in t.heads then t.heads else t.heads[r := Anchor(Genesis(), 0)];
    Tables(t.identities, t.rooms[r := Room(room.name, room.purpose, createdAtNs)], t.members, heads, t.events)
  }

  function SetIdentity(t: Tables, id: string, identity: Identity): Tables {
    Tables(t.identities[id := identity], t.rooms, t.members, t.heads, t.events)
  }

  /** One call; a call that raises changes nothing. */
  function Apply(h: string -> string, t: Tables, op: Op): Tables {
    match op
    case OpenStore => Tables(t.identities, t.rooms, t.members, Adopted(t), t.events)
    case UpsertIdentity(id, identity) =>
      var createdAtNs := if id in t.identities then t.identities[id].createdAtNs else identity.createdAtNs;
      SetIdentity(t, id, identity.(createdAtNs := createdAtNs))
    case CreateIdentity(id, identity) =>
      if id in t.identities then t else SetIdentity(t, id, identity)
    case UpdateIdentity(id, identity) =>
      if id !in t.identities then t
      else
        var current := t.identities[id];
        SetIdentity(t, id, identity.(agentProfileId := current.agentProfileId, createdAtNs := current.createdAtNs))
    case LinkAgentProfile(id, p) =>
      if id !in t.identities then t else SetIdentity(t, id, t.identities[id].(agentProfileId := p))
    case CreateRoom(r, room) => AfterCreateRoom(t, r, room)
    case AddMember(r, id) =>
      if r in t.rooms && id in t.identities
      then Tables(t.identities, t.rooms, t.members + {(r, id)}, t.heads, t.events)
      else t
    case AppendEvent(_, _, _, _, _, _, _) =>
      if Appends(h, t, op) then AfterAppend(t, NewEvent(h, t, op)) else t
  }

  function Run(h: string -> string, t: Tables, ops: seq<Op>): Tables {
    if ops == [] then t else Apply(h, Run(h, t, ops[..|ops| - 1]), ops[|ops| - 1])
  }

  function AnchorOf(t: Tables, r: string): Option<Anchor> {
    if r in t.heads then Some(t.heads[r]) else None
  }

  predicate References(t: Tables) {
    && (forall m :: m in t.members ==> m.0 in t.rooms && m.1 in t.identities)
    && (forall i :: 0 <= i < |t.events| ==> t.events[i].roomId in t.rooms)
    && t.heads.Keys <= t.rooms.Keys
  }

  /** A room's chain links, and its anchor, if it has one, is right. */
  predicate SoundRoom(h: string -> string, rows: seq<Event>, anchor: Option<Anchor>) {
    Chained(h, rows) && (anchor.None? || Accepted(h, rows, anchor))
  }

  /** Foreign keys hold and every room is sound.  A database written before anchors existed
      satisfies this with anchors missing. */
  predicate Sound(h: string -> string, t: Tables) {
    References(t) && forall r :: r in t.rooms ==> SoundRoom(h, RoomEvents(t.events, r), AnchorOf(t, r))
  }

  predicate Anchored(h: string -> string, t: Tables) {
    Sound(h, t) && t.heads.Keys == t.rooms.Keys
  }

  /** Opening adopts a store whose chains link, and leaves an anchored one untouched. */
  lemma OpeningAnchors(h: string -> string, t: Tables)
    requires Sound(h, t)
    ensures Anchored(h, Apply(h, t, OpenStore))
    ensures Anchored(h, t) ==> Apply(h, t, OpenStore) == t
  {
    hide Chained, RoomEvents, HeadHash;
    var t' := Apply(h, t, OpenStore);
    forall r | r in t'.rooms ensures SoundRoom(h, RoomEvents(t'.events, r), AnchorOf(t', r)) {
      assert SoundRoom(h, RoomEvents(t.events, r), AnchorOf(t, r));
    }
    if Anchored(h, t) {
      assert Adopted(t) == t.heads;
    }
  }

  lemma ChainedAppend(h: string -> string, rows: seq<Event>, e: Event)
    requires Chained(h, rows)
    requires e.previousHash == HeadHash(rows) && e.eventHash == h(Canonical(e, HeadHash(rows)))
    ensures Chained(h, rows + [e])
  {
    hide Canonical;
    var all := rows + [e];
    forall i | 0 <= i < |all| ensures LinkOk(h, all, i) {
      assert all[..i] == rows[..i];
      if i < |rows| {
        assert LinkOk(h, rows, i);
      } else {
        assert rows[..i] == rows;
      }
    }
  }

  lemma NoEventsOfUnknownRoom(events: seq<Event>, r: string)
    requires forall i :: 0 <= i < |events| ==> events[i].roomId != r
    ensures RoomEvents(events, r) == []
  {
  }

  lemma EmptyRoomSound(h: string -> string)
    ensures SoundRoom(h, [], Some(Anchor(Genesis(), 0)))
  {
  }

  lemma CreateRoomKeepsAnchored(h: string -> string, t: Tables, r: string, room: Room)
    requires Anchored(h, t)
    ensures Anchored(h, AfterCreateRoom(t, r, room))
  {
    hide SoundRoom, RoomEvents;
    var t' := AfterCreateRoom(t, r, room);
    forall q | q in t'.rooms ensures SoundRoom(h, RoomEvents(t'.events, q), AnchorOf(t', q)) {
      if q in t.rooms {
        assert AnchorOf(t', q) == AnchorOf(t, q);
      } else {
        NoEventsOfUnknownRoom(t.events, r);
        EmptyRoomSound(h);
      }
    }
  }

  lemma CanonicalIgnoresOwnHash(e: Event, eventHash: string, previous: string)
    ensures Canonical(e.(eventHash := eventHash), previous) == Canonical(e, previous)
  {
    assert DigestValues(e.(eventHash := eventHash), previous) == DigestValues(e, previous);
  }

  lemma AppendKeepsAnchored(h: string -> string, t: Tables, e: Event)
    requires Anchored(h, t) && e.roomId in t.rooms
    requires e.previousHash == HeadHash(RoomEvents(t.events, e.roomId))
    requires e.eventHash == h(Canonical(e, e.previousHash))
    ensures Anchored(h, AfterAppend(t, e))
  {
    hide Canonical, Chained, RoomEvents;
    var t' := AfterAppend(t, e);
    forall r | r in t'.rooms ensures SoundRoom(h, RoomEvents(t'.events, r), AnchorOf(t', r)) {
      assert SoundRoom(h, RoomEvents(t.events, r), AnchorOf(t, r));
      RoomEventsAppend(t.events, e, r);
      if r == e.roomId {
        ChainedAppend(h, RoomEvents(t.events, r), e);
      }
    }
  }

  /** Every call keeps every room's chain verifying against its anchor, and only extends the log. */
  lemma StepKeepsAnchored(h: string -> string, t: Tables, op: Op)
    requires Anchored(h, t)
    ensures Anchored(h, Apply(h, t, op)) && t.events <= Apply(h, t, op).events
  {
    hide Canonical, SoundRoom, RoomEvents, HeadHash;
    match op
    case OpenStore => OpeningAnchors(h, t);
    case CreateRoom(r, room) => CreateRoomKeepsAnchored(h, t, r, room);
    case AppendEvent(_, _, _, _, _, _, _) =>
      if Appends(h, t, op) {
        var e := NewEvent(h, t, op);
        CanonicalIgnoresOwnHash(e.(eventHash := ""), e.eventHash, e.previousHash);
        AppendKeepsAnchored(h, t, e);
      }
    case _ =>
      var t' := Apply(h, t, op);
      assert t'.events == t.events && t'.heads == t.heads && t'.rooms == t.rooms;
      assert forall r :: AnchorOf(t', r) == AnchorOf(t, r);
  }

  lemma {:induction false} RunKeepsAnchored(h: string -> string, t: Tables, ops: seq<Op>)
    requires Anchored(h, t)
    ensures Anchored(h, Run(h, t, ops)) && t.events <= Run(h, t, ops).events
  {
    hide Anchored, Apply;
    if ops != [] {
      var before := ops[..|ops| - 1];
      RunKeepsAnchored(h, t, before);
      StepKeepsAnchored(h, Run(h, t, before), ops[|ops| - 1]);
    }
  }

  /** Chain maintenance over whole runs: open a store whose chains link, then make any calls
      on any rooms in any order; every room verifies, and history is only ever extended. */
  lemma RunKeepsChains(h: string -> string, t: Tables, ops: seq<Op>)
    requires Sound(h, t)
    ensures var t' := Run(h, Apply(h, t, OpenStore), ops);
            && Anchored(h, t')
            && t.events <= t'.events
            && forall r :: r in t'.rooms ==> Accepted(h, RoomEvents(t'.events, r), AnchorOf(t', r))
  {
    hide Chained, Run, RoomEvents;
    OpeningAnchors(h, t);
    RunKeepsAnchored(h, Apply(h, t, OpenStore), ops);
    var t' := Run(h, Apply(h, t, OpenStore), ops);
    forall r | r in t'.rooms ensures Accepted(h, RoomEvents(t'.events, r), AnchorOf(t', r)) {
      assert SoundRoom(h, RoomEvents(t'.events, r), AnchorOf(t', r));
    }
  }

  /** Rewriting a room's rows behind the store's back is detected: if a replacement still
      verifies against the anchor the store left, it is the history the store wrote, or it
      collides with it. */
  lemma ReplacementDetected(h: string -> string, t: Tables, ops: seq<Op>, r: string, forged: seq<Event>)
    requires Sound(h, t)
    requires var t' := Run(h, Apply(h, t, OpenStore), ops);
             r in t'.rooms && Accepted(h, forged, AnchorOf(t', r))
    ensures var written := RoomEvents(Run(h, Apply(h, t, OpenStore), ops).events, r);
            forged == written || CollisionBetween(h, written, forged)
  {
    RunKeepsChains(h, t, ops);
    var t' := Run(h, Apply(h, t, OpenStore), ops);
    TamperEvidence(h, RoomEvents(t'.events, r), forged);
  }

  datatype AppendResult = Appended(event: Event) | NotAMember | Duplicate

  lemma LastIsHead(rows: seq<Event>, e: Event)
    ensures HeadHash(rows + [e]) == e.eventHash
    ensures HeadHash(rows) == if rows == [] then seq(64, i => '0') else rows[|rows| - 1].eventHash
  {
  }

  /** What an append call comes to on an anchored store. */
  lemma AppendCases(h: string -> string, t: Tables, op: Op)
    requires Anchored(h, t) && op.AppendEvent?
    ensures (op.roomId, op.actorId) !in t.members ==> !Appends(h, t, op) && Apply(h, t, op) == t
    ensures (op.roomId, op.actorId) in t.members ==>
      && op.roomId in t.heads && op.actorId in t.identities
      && var previous := HeadHash(RoomEvents(t.events, op.roomId));
         var e := Event(op.eventId, op.roomId, op.eventType, op.actorId, op.payloadJson,
                        t.identities[op.actorId].trust, op.parentEventId, op.createdAtNs, previous, "");
         var hash := h(Canonical(e, previous));
         var row := e.(eventHash := hash);
         && hash == h(Canonical(row, previous))
         && (Appends(h, t, op) <==> Fresh(t.events, op.eventId, hash))
         && Apply(h, t, op) ==
            if Fresh(t.events, op.eventId, hash)
            then t.(heads := t.heads[op.roomId := Anchor(hash, t.heads[op.roomId].eventCount + 1)],
                    events := t.events + [row])
            else t
  {
    hide Canonical, SoundRoom, RoomEvents, HeadHash, Fresh;
    if (op.roomId, op.actorId) in t.members {
      var previous := HeadHash(RoomEvents(t.events, op.roomId));
      var e := NewEvent(h, t, op);
      CanonicalIgnoresOwnHash(e.(eventHash := ""), e.eventHash, previous);
    }
  }

  class CollaborationStore {
    const digest: string -> string
    var identities: map<string, Identity>
    var rooms: map<string, Room>
    var members: set<(string, string)>
    var heads: map<string, Anchor>
    var events: seq<Event>

    function Contents(): Tables
      reads this
    {
      Tables(identities, rooms, members, heads, events)
    }

    predicate Valid()
      reads this
    {
      Anchored(digest, Contents())
    }

    /** Opens an existing database: anchors are adopted for rooms that predate them. */
    constructor (digest: string -> string, t: Tables)
      requires Sound(digest, t)
      ensures Valid() && this.digest == digest && Contents() == Apply(digest, t, OpenStore)
    {
      this.digest := digest;
      identities, rooms, members, events := t.identities, t.rooms, t.members, t.events;
      heads := Adopted(t);
      new;
      OpeningAnchors(digest, t);
    }

    method CreateRoom(roomId: string, room: Room)
      requires Valid()
      modifies this`rooms, this`heads
      ensures Valid() && Contents() == Apply(digest, old(Contents()), Op.CreateRoom(roomId, room))
      ensures rooms.Keys == old(rooms).Keys + {roomId}
      ensures rooms[roomId].name == room.name && rooms[roomId].purpose == room.purpose
      ensures rooms[roomId].createdAtNs
           == if roomId in old(rooms) then old(rooms)[roomId].createdAtNs else room.createdAtNs
      ensures roomId !in old(rooms) ==> heads[roomId] == Anchor(seq(64, i => '0'), 0)
      ensures forall r :: r in old(rooms) ==> heads[r] == old(heads)[r] && (r != roomId ==> rooms[r] == old(rooms)[r])
    {
      hide Canonical, SoundRoom, Adopted, References, RoomEvents;
      StepKeepsAnchored(digest, Contents(), Op.CreateRoom(roomId, room));
      if roomId in rooms {
        rooms := rooms[roomId := room.(createdAtNs := rooms[roomId].createdAtNs)];
      } else {
        rooms := rooms[roomId := room];
      }
      if roomId !in heads {
        heads := heads[roomId := Anchor(Genesis(), 0)];
      }
    }

    method AddMember(roomId: string, identityId: string) returns (ok: bool)
      requires Valid()
      modifies this`members
      ensures Valid() && Contents() == Apply(digest, old(Contents()), Op.AddMember(roomId, identityId))
      ensures ok <==> roomId in rooms && identityId in identities
      ensures members == old(members) + if ok then {(roomId, identityId)} else {}
    {
      hide Canonical, SoundRoom, Adopted;
      StepKeepsAnchored(digest, Contents(), Op.AddMember(roomId, identityId));
      ok := roomId in rooms && identityId in identities;
      if ok {
        members := members + {(roomId, identityId)};
      }
    }

    method UpdateIdentity(id: string, identity: Identity) returns (ok: bool)
      requires Valid()
      modifies this`identities
      ensures Valid() && Contents() == Apply(digest, old(Contents()), Op.UpdateIdentity(id, identity))
      ensures ok <==> id in old(identities)
      ensures identities.Keys == old(identities).Keys
      ensures ok ==>
        var was, now := old(identities)[id], identities[id];
        && now.displayName == identity.displayName && now.kind == identity.kind && now.trust == identity.trust
        && now.agentJson == identity.agentJson
        && now.agentProfileId == was.agentProfileId && now.createdAtNs == was.createdAtNs
      ensures forall other :: other in identities && other != id ==> identities[other] == old(identities)[other]
    {
      hide Canonical, SoundRoom, Adopted;
      StepKeepsAnchored(digest, Contents(), Op.UpdateIdentity(id, identity));
      ok := id in identities;
      if ok {
        var current := identities[id];
        identities := identities[id := identity.(agentProfileId := current.agentProfileId,
                                                 createdAtNs := current.createdAtNs)];
      }
    }

    /** The rows of one room, oldest first. */
    method SelectRoom(roomId: string) returns (rows: seq<Event>)
      ensures rows == RoomEvents(events, roomId)
    {
      rows := [];
      for i := 0 to |events|
        invariant rows == RoomEvents(events[..i], roomId)
      {
        RoomEventsAppend(events[..i], events[i], roomId);
        assert events[..i + 1] == events[..i] + [events[i]];
        if events[i].roomId == roomId {
          rows := rows + [events[i]];
        }
      }
      assert events[..|events|] == events;
    }

    method AppendEvent(roomId: string, eventType: string, actorId: string, payloadJson: string,
                       parentEventId: Option<string>, eventId: string, createdAtNs: int)
      returns (result: AppendResult)
      requires Valid()
      modifies this`events, this`heads
      ensures Valid()
      ensures Contents() == Apply(digest, old(Contents()),
                                  Op.AppendEvent(roomId, eventType, actorId, payloadJson, parentEventId,
                                                 eventId, createdAtNs))
      ensures result.NotAMember? <==> (roomId, actorId) !in members
      ensures result.Appended? <==> Appends(digest, old(Contents()),
                Op.AppendEvent(roomId, eventType, actorId, payloadJson, parentEventId, eventId, createdAtNs))
      ensures !result.Appended? ==> Contents() == old(Contents())
      ensures result.Appended? ==>
        && events == old(events) + [result.event]
        && HeadHash(RoomEvents(events, roomId)) == result.event.eventHash
      // The row is what the caller appended, as of now, linked to the room's latest row
      ensures result.Appended? ==>
        var e, before := result.event, RoomEvents(old(events), roomId);
        && e.eventId == eventId && e.roomId == roomId && e.eventType == eventType && e.actorId == actorId
        && e.payloadJson == payloadJson && e.parentEventId == parentEventId && e.createdAtNs == createdAtNs
        && e.trust == identities[actorId].trust
        && e.previousHash == (if before == [] then seq(64, i => '0') else before[|before| - 1].eventHash)
        && e.eventHash == digest(Canonical(e, e.previousHash))
    {
      ghost var before := Contents();
      ghost var op := Op.AppendEvent(roomId, eventType, actorId, payloadJson, parentEventId, eventId, createdAtNs);
      hide Anchored, SoundRoom, Canonical, Apply, Appends, RoomEvents, HeadHash, Fresh, NewEvent;
      StepKeepsAnchored(digest, before, op);
      AppendCases(digest, before, op);
      if (roomId, actorId) !in members {
        return NotAMember;
      }
      var rows := SelectRoom(roomId);
      var previousHash := HeadHash(rows);
      var e := Event(eventId, roomId, eventType, actorId, payloadJson, identities[actorId].trust,
                     parentEventId, createdAtNs, previousHash, "");
      e := e.(eventHash := digest(Canonical(e, previousHash)));
      if !Fresh(events, e.eventId, e.eventHash) {
        return Duplicate;
      }
      RoomEventsAppend(events, e, roomId);
      LastIsHead(rows, e);
      events := events + [e];
      heads := heads[roomId := Anchor(e.eventHash, heads[roomId].eventCount + 1)];
      return Appended(e);
    }

    /** Nothing the store itself does can make verification fail. */
    method VerifyChain(roomId: string) returns (report: Report)
      requires Valid()
      ensures roomId in rooms ==> report == Intact(|RoomEvents(events, roomId)|, HeadHash(RoomEvents(events, roomId)))
      ensures roomId !in rooms ==> report.AnchorMismatch?
    {
      var rows := SelectRoom(roomId);
      report := VerifyRows(digest, rows, AnchorOf(Tables(identities, rooms, members, heads, events), roomId));
      if roomId !in rooms {
        NoEventsOfUnknownRoom(events, roomId);
      }
    }
  }
}
