/** What the collaboration store keeps of each call (src/sovereign_ai/collaboration/store.py): the
    columns of every row it writes, and the text that is hashed. */
module ChainRecords {
  import opened Json
  import opened HashChain

  /* ---------- the hashed text ---------- */

  function Named(key: string, text: string): string {
    WriteString(key) + ":" + text
  }

  function Joined(parts: seq<string>): string {
    if parts == [] then "" else if |parts| == 1 then parts[0] else parts[0] + "," + Joined(parts[1..])
  }

  function Pairs(keys: seq<string>, values: seq<Value>): seq<string>
    requires |keys| == |values|
  {
    seq(|keys|, i requires 0 <= i < |keys| => Named(keys[i], WriteValue(values[i])))
  }

  lemma {:induction false} MembersAreJoined(separator: string, keys: seq<string>, values: seq<Value>)
    requires |keys| == |values| > 0
    ensures WriteMembers(separator, keys, values) == separator + (Joined(Pairs(keys, values)) + "}")
    decreases values
  {
    hide WriteString, WriteValue;
    assert |Pairs(keys, values)| == |keys|;
    var first, pairs := Named(keys[0], WriteValue(values[0])), Pairs(keys, values);
    assert pairs[0] == first && pairs[1..] == Pairs(keys[1..], values[1..]);
    if |keys| == 1 {
      assert WriteMembers(",", keys[1..], values[1..]) == "}";
    } else {
      var rest := Joined(Pairs(keys[1..], values[1..]));
      MembersAreJoined(",", keys[1..], values[1..]);
      assert separator + first + ("," + (rest + "}")) == separator + ((first + "," + rest) + "}");
    }
  }

  /** The text is the compact JSON object of the nine fields, its keys in alphabetical order, each
      with its own value. */
  lemma CanonicalText(e: Event, previousHash: string)
    ensures Canonical(e, previousHash) ==
      "{" + (Joined([Named("actor_id", WriteString(e.actorId)),
                     Named("created_at_ns", WriteInt(e.createdAtNs)),
                     Named("event_id", WriteString(e.eventId)),
                     Named("event_type", WriteString(e.eventType)),
                     Named("parent_event_id", WriteOptional(e.parentEventId)),
                     Named("payload_json", WriteString(e.payloadJson)),
                     Named("previous_hash", WriteString(previousHash)),
                     Named("room_id", WriteString(e.roomId)),
                     Named("trust", WriteString(e.trust))]) + "}")
  {
    hide WriteString, WriteInt, WriteOptional, WriteMembers, Joined, Named;
    assert |DIGEST_KEYS| == |DigestValues(e, previousHash)| == 9;
    MembersAreJoined("{", DIGEST_KEYS, DigestValues(e, previousHash));
    var pairs := Pairs(DIGEST_KEYS, DigestValues(e, previousHash));
    assert pairs == [pairs[0], pairs[1], pairs[2], pairs[3], pairs[4], pairs[5], pairs[6], pairs[7], pairs[8]];
  }

  /* ---------- single calls ---------- */

  /** The row holds what the call named, each value in its own column, and the actor's trust. */
  predicate Carries(row: Event, op: Op, trust: string) {
    && op.AppendEvent?
    && row.eventId == op.eventId && row.roomId == op.roomId && row.eventType == op.eventType
    && row.actorId == op.actorId && row.payloadJson == op.payloadJson && row.parentEventId == op.parentEventId
    && row.createdAtNs == op.createdAtNs && row.trust == trust
  }

  /** An append is refused exactly for a non-member, a repeated event id or a repeated hash;
      otherwise it adds one row, which carries the call and continues its room's chain. */
  lemma AppendAnswers(h: string -> string, t: Tables, op: Op)
    requires op.AppendEvent? && References(t)
    ensures var t' := Apply(h, t, op);
            if (op.roomId, op.actorId) !in t.members then t' == t
            else exists row, previous ::
              && Carries(row, op, t.identities[op.actorId].trust)
              && previous == LatestHash(t.events, op.roomId)
              && row.previousHash == previous && row.eventHash == h(Canonical(row, previous))
              && t' == if (exists i :: 0 <= i < |t.events|
                             && (t.events[i].eventId == op.eventId || t.events[i].eventHash == row.eventHash))
                       then t
                       else t.(heads := t'.heads, events := t.events + [row])
  {
    hide Canonical, RoomEvents;
    if (op.roomId, op.actorId) in t.members {
      var row, previous := NewEvent(h, t, op), LatestHash(t.events, op.roomId);
      CanonicalIgnoresOwnHash(row, "", previous);
      CanonicalIgnoresOwnHash(row, row.eventHash, previous);
      LatestIsHead(t.events, op.roomId);
      assert Carries(row, op, t.identities[op.actorId].trust);
    }
  }

  /** The hash of the room's latest row in the shared table, or 64 zeros. */
  function LatestHash(events: seq<Event>, roomId: string): string {
    if events == [] then seq(64, i => '0')
    else if events[|events| - 1].roomId == roomId then events[|events| - 1].eventHash
    else LatestHash(events[..|events| - 1], roomId)
  }

  lemma {:induction false} LatestIsHead(events: seq<Event>, roomId: string)
    ensures LatestHash(events, roomId) == HeadHash(RoomEvents(events, roomId))
  {
    if events != [] {
      LatestIsHead(events[..|events| - 1], roomId);
    }
  }

  /** The other calls: what each changes, and that it changes nothing else. */
  lemma OtherCallsAnswer(h: string -> string, t: Tables, op: Op)
    ensures var t' := Apply(h, t, op);
            match op
            case UpsertIdentity(id, i) =>
              && t' == t.(identities := t'.identities) && t'.identities.Keys == t.identities.Keys + {id}
              && t'.identities[id]
                 == (if id in t.identities then i.(createdAtNs := t.identities[id].createdAtNs) else i)
              && forall other :: other in t.identities && other != id ==> t'.identities[other] == t.identities[other]
            case CreateIdentity(id, i) =>
              t' == if id in t.identities then t else t.(identities := t.identities[id := i])
            case LinkAgentProfile(id, p) =>
              t' == if id !in t.identities then t
                    else t.(identities := t.identities[id := t.identities[id].(agentProfileId := p)])
            case CreateRoom(r, room) =>
              && t' == t.(rooms := t'.rooms, heads := t'.heads) && t'.rooms.Keys == t.rooms.Keys + {r}
              && t'.rooms[r] == (if r in t.rooms then room.(createdAtNs := t.rooms[r].createdAtNs) else room)
              && t'.heads == (if r in t.heads then t.heads else t.heads[r := Anchor(seq(64, i => '0'), 0)])
            case AddMember(r, id) =>
              t' == if r in t.rooms && id in t.identities then t.(members := t.members + {(r, id)}) else t
            case OpenStore => t' == t.(heads := t'.heads)
            case _ => true
  {
    hide Canonical, Appends;
    assert Genesis() == seq(64, i => '0');
  }

  /** Opening a store repairs nothing: an anchor that is there stays as it is, so a room whose rows
      do not match their anchor is still not accepted; a room without one gets its latest hash and
      its number of rows. */
  lemma OpeningHidesNothing(h: string -> string, t: Tables, r: string)
    ensures var t' := Apply(h, t, OpenStore);
            && t'.events == t.events
            && (r in t.heads ==> r in t'.heads && t'.heads[r] == t.heads[r])
            && (r in t.heads && !Accepted(h, RoomEvents(t.events, r), AnchorOf(t, r)) ==>
                  !Accepted(h, RoomEvents(t'.events, r), AnchorOf(t', r)))
            && (r in t.rooms && r !in t.heads ==>
                  r in t'.heads && t'.heads[r] == Anchor(LatestHash(t.events, r), |RoomEvents(t.events, r)|))
  {
    hide RoomEvents, Chained;
    LatestIsHead(t.events, r);
  }

  /* ---------- whole runs ---------- */

  /** The steps of a run at which the log grew. */
  function AcceptedSteps(h: string -> string, t: Tables, ops: seq<Op>): seq<nat> {
    if ops == [] then []
    else
      var n := |ops| - 1;
      AcceptedSteps(h, t, ops[..n])
      + if |Run(h, t, ops).events| > |Run(h, t, ops[..n]).events| then [n] else []
  }

  predicate RowFromStep(h: string -> string, t: Tables, ops: seq<Op>, row: Event, k: nat)
    requires k < |ops|
  {
    var before := Run(h, t, ops[..k]);
    ops[k].AppendEvent? && ops[k].actorId in before.identities
    && Carries(row, ops[k], before.identities[ops[k].actorId].trust)
  }

  /** The rows a run adds are, in order, what its accepted append calls named, each with the trust
      its actor had at that moment. */
  lemma {:induction false} RowsAreTheAppends(h: string -> string, t: Tables, ops: seq<Op>)
    requires References(t)
    ensures var ks, rows := AcceptedSteps(h, t, ops), Run(h, t, ops).events;
            && References(Run(h, t, ops))
            && |rows| == |t.events| + |ks| && rows[..|t.events|] == t.events
            && forall i :: 0 <= i < |ks| ==> ks[i] < |ops| && RowFromStep(h, t, ops, rows[|t.events| + i], ks[i])
  {
    if ops != [] {
      var n := |ops| - 1;
      var front := ops[..n];
      RowsAreTheAppends(h, t, front);
      LastStep(h, t, ops);
      var before, after, ks := Run(h, t, front), Run(h, t, ops), AcceptedSteps(h, t, front);
      StepRecords(h, before, ops[n]);
      hide Run, AcceptedSteps, Apply, RowFromStep, References;
      forall i | 0 <= i < |ks| ensures ks[i] < n && RowFromStep(h, t, ops, after.events[|t.events| + i], ks[i]) {
        assert before.events[|t.events| + i] == after.events[|t.events| + i];
        SamePrefix(h, t, ops, after.events[|t.events| + i], ks[i]);
      }
      if |after.events| > |before.events| {
        FromLastStep(h, t, ops, after.events[|before.events|]);
      }
    }
  }

  lemma {:induction false} LastStep(h: string -> string, t: Tables, ops: seq<Op>)
    requires ops != []
    ensures var n := |ops| - 1;
            var before, after := Run(h, t, ops[..n]), Run(h, t, ops);
            && after == Apply(h, before, ops[n])
            && AcceptedSteps(h, t, ops)
               == AcceptedSteps(h, t, ops[..n]) + if |after.events| > |before.events| then [n] else []
  {
  }

  lemma SamePrefix(h: string -> string, t: Tables, ops: seq<Op>, row: Event, k: nat)
    requires k < |ops| - 1
    ensures RowFromStep(h, t, ops[..|ops| - 1], row, k) <==> RowFromStep(h, t, ops, row, k)
  {
    assert ops[..|ops| - 1][..k] == ops[..k];
  }

  lemma FromLastStep(h: string -> string, t: Tables, ops: seq<Op>, row: Event)
    requires ops != [] && ops[|ops| - 1].AppendEvent?
    requires var before := Run(h, t, ops[..|ops| - 1]);
             ops[|ops| - 1].actorId in before.identities
             && Carries(row, ops[|ops| - 1], before.identities[ops[|ops| - 1].actorId].trust)
    ensures RowFromStep(h, t, ops, row, |ops| - 1)
  {
  }

  lemma StepRecords(h: string -> string, t: Tables, op: Op)
    requires References(t)
    ensures var t' := Apply(h, t, op);
            && References(t')
            && (t'.events == t.events
                || (op.AppendEvent? && op.actorId in t.identities && |t'.events| == |t.events| + 1
                    && t'.events[..|t.events|] == t.events
                    && Carries(t'.events[|t.events|], op, t.identities[op.actorId].trust)))
  {
    hide Canonical, RoomEvents;
  }
}
