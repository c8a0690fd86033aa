/** What an agent turn shows the model of its own history (src/sovereign_ai/agents/context.py, and
    the prompt built from it in src/sovereign_ai/agents/native_loop.py). */
module Context {
  import opened Json

  /** A turn of the history: the model's reply, the observation's text as JSON, the digest under
      which an elided turn is counted, and the turn's length as JSON. */
  datatype Turn = Turn(assistant: string, observation: string, digest: string, size: nat)

  datatype Budget = Budget(keepRecent: nat, keepLeading: nat, maxObservation: nat, maxHistory: nat)

  datatype Note = Note(elided: nat, tools: map<string, nat>)

  datatype Compacted = Compacted(turns: seq<Turn>, note: Option<Note>)

  function TotalSize(history: seq<Turn>): nat {
    if history == [] then 0 else TotalSize(history[..|history| - 1]) + history[|history| - 1].size
  }

  function Leading(history: seq<Turn>, b: Budget): seq<Turn> {
    if |history| <= b.keepLeading then history else history[..b.keepLeading]
  }

  function Recent(history: seq<Turn>, b: Budget): seq<Turn> {
    if |history| <= b.keepRecent then history else history[|history| - b.keepRecent..]
  }

  function Elided(history: seq<Turn>, b: Budget): seq<Turn> {
    var from, to := |Leading(history, b)|, |history| - |Recent(history, b)|;
    if from < to then history[from..to] else []
  }

  function Tally(turns: seq<Turn>): map<string, nat> {
    if turns == [] then map[] else
      var tools, d := Tally(turns[..|turns| - 1]), turns[|turns| - 1].digest;
      tools[d := (if d in tools then tools[d] else 0) + 1]
  }

  function CompactHistory(history: seq<Turn>, b: Budget): Compacted {
    if |history| <= b.keepRecent + b.keepLeading && TotalSize(history) <= b.maxHistory then Compacted(history, None)
    else
      var elided := Elided(history, b);
      if elided == [] then Compacted(history, None)
      else Compacted(Leading(history, b) + Recent(history, b), Some(Note(|elided|, Tally(elided))))
  }

  /** How many turns have the digest. */
  function Having(turns: seq<Turn>, digest: string): nat {
    if turns == [] then 0
    else Having(turns[..|turns| - 1], digest) + if turns[|turns| - 1].digest == digest then 1 else 0
  }

  ghost function Sum(m: map<string, nat>): nat {
    if m == map[] then 0 else
      var k :| k in m;
      m[k] + Sum(m - {k})
  }

  lemma {:induction false} SumWithout(m: map<string, nat>, k: string)
    requires k in m
    ensures Sum(m) == m[k] + Sum(m - {k})
  {
    var j :| j in m && Sum(m) == m[j] + Sum(m - {j});
    if j != k {
      SumWithout(m - {j}, k);
      SumWithout(m - {k}, j);
      assert m - {j} - {k} == m - {k} - {j};
    }
  }

  /** The note's counts are of the elided turns, and add up to their number. */
  lemma {:induction false} TallyMeans(turns: seq<Turn>, digest: string)
    ensures Having(turns, digest) == if digest in Tally(turns) then Tally(turns)[digest] else 0
    ensures digest in Tally(turns) ==> Tally(turns)[digest] >= 1
    ensures Sum(Tally(turns)) == |turns|
  {
    if turns != [] {
      var tools, d := Tally(turns[..|turns| - 1]), turns[|turns| - 1].digest;
      TallyMeans(turns[..|turns| - 1], digest);
      SumWithout(Tally(turns), d);
      assert Tally(turns) - {d} == tools - {d};
      if d in tools {
        SumWithout(tools, d);
      } else {
        assert tools - {d} == tools;
      }
    }
  }

  /** Compaction loses nothing silently: the history is the leading turns, then the elided ones,
      then the recent ones; the first and last parts are shown whole and in order, and the note
      counts the middle, tool by tool. */
  lemma CompactionAccounts(history: seq<Turn>, b: Budget)
    ensures var c := CompactHistory(history, b);
            match c.note
            case None => c.turns == history
            case Some(note) =>
              exists leading, elided, recent ::
                && history == leading + elided + recent && c.turns == leading + recent
                && |leading| == b.keepLeading && |recent| == b.keepRecent
                && note.elided == |elided| == Sum(note.tools) && elided != []
                && forall d :: Having(elided, d) == if d in note.tools then note.tools[d] else 0
  {
    var c := CompactHistory(history, b);
    if c.note.Some? {
      var leading, elided, recent := Leading(history, b), Elided(history, b), Recent(history, b);
      assert history == leading + elided + recent;
      TallyMeans(elided, "");
      forall d ensures Having(elided, d) == if d in c.note.value.tools then c.note.value.tools[d] else 0 {
        TallyMeans(elided, d);
      }
    }
  }

  /** Compaction happens exactly when there are more turns than the budget keeps, and then shows
      no more than it keeps.  The limit on the history's length therefore changes nothing: a
      history of few but long turns is shown whole, whatever that limit. */
  lemma CompactsIffTooManyTurns(history: seq<Turn>, b: Budget)
    ensures CompactHistory(history, b).note.Some? <==> |history| > b.keepLeading + b.keepRecent
    ensures |CompactHistory(history, b).turns| <= b.keepLeading + b.keepRecent
    ensures forall limit: nat :: CompactHistory(history, b.(maxHistory := limit)) == CompactHistory(history, b)
  {
    hide TotalSize, Tally;
    forall limit: nat ensures CompactHistory(history, b.(maxHistory := limit)) == CompactHistory(history, b) {
      var b' := b.(maxHistory := limit);
      assert Leading(history, b') == Leading(history, b) && Recent(history, b') == Recent(history, b);
    }
  }

  /* ---------- the prompt ---------- */

  datatype Message =
    | System
    | Task
    | Focus(compacted: bool)
    | ElisionNote(note: Note)
    | Assistant(content: string)
    | Observation(text: Truncated)

  /** The characters kept of an observation, and how many more there were. */
  datatype Truncated = Truncated(kept: string, more: nat)

  function TruncateObservation(text: string, b: Budget): (r: Truncated)
    ensures |r.kept| == (if |text| <= b.maxObservation then |text| else b.maxObservation)
    ensures |r.kept| + r.more == |text| && r.kept <= text
  {
    if |text| <= b.maxObservation then Truncated(text, 0)
    else Truncated(text[..b.maxObservation], |text| - b.maxObservation)
  }

  predicate FocusDue(turns: nat, compacted: bool, focusEvery: int) {
    turns > 0 && (compacted || (focusEvery > 0 && turns % focusEvery == 0))
  }

  function Rendered(turns: seq<Turn>, b: Budget): (messages: seq<Message>)
    ensures |messages| == 2 * |turns|
    ensures forall i :: 0 <= i < |messages| ==> messages[i].Assistant? || messages[i].Observation?
  {
    if turns == [] then [] else
      var t := turns[|turns| - 1];
      Rendered(turns[..|turns| - 1], b) + [Assistant(t.assistant), Observation(TruncateObservation(t.observation, b))]
  }

  /** The prompt: the objective first, restated where due, then the turns shown, with the note
      between the leading and the recent ones. */
  function Prompt(history: seq<Turn>, b: Budget, focusEvery: int): seq<Message> {
    var c := CompactHistory(history, b);
    var focus := if FocusDue(|history|, c.note.Some?, focusEvery) then [Focus(c.note.Some?)] else [];
    [System, Task] + focus
    + if c.note.None? || b.keepRecent == 0 then Rendered(c.turns, b)
      else Rendered(history[..b.keepLeading], b) + [ElisionNote(c.note.value)]
           + Rendered(history[|history| - b.keepRecent..], b)
  }

  lemma {:induction false} RenderedOneMore(turns: seq<Turn>, t: Turn, b: Budget)
    ensures Rendered(turns + [t], b)
         == Rendered(turns, b) + [Assistant(t.assistant), Observation(TruncateObservation(t.observation, b))]
    ensures Rendered([], b) == []
  {
    assert (turns + [t])[..|turns|] == turns;
  }

  /** What the prompt comes to, on the compacted turns. */
  lemma PromptIs(history: seq<Turn>, b: Budget, focusEvery: int)
    ensures var c := CompactHistory(history, b);
            var focus := if FocusDue(|history|, c.note.Some?, focusEvery) then [Focus(c.note.Some?)] else [];
            var head := [System, Task] + focus;
            var cut := b.keepLeading;
            if c.note.None? then Prompt(history, b, focusEvery) == head + Rendered(c.turns, b)
            else
              && |c.turns| == cut + b.keepRecent
              && (b.keepRecent == 0 ==> Prompt(history, b, focusEvery) == head + Rendered(c.turns, b))
              && (b.keepRecent > 0 ==>
                    Prompt(history, b, focusEvery)
                    == head + Rendered(c.turns[..cut], b) + [ElisionNote(c.note.value)] + Rendered(c.turns[cut..], b))
  {
    hide TotalSize, Tally, Rendered;
    var c := CompactHistory(history, b);
    if c.note.Some? {
      assert c.turns[..b.keepLeading] == history[..b.keepLeading];
      assert c.turns[b.keepLeading..] == history[|history| - b.keepRecent..];
    }
  }

  /** The messages of the first i turns shown. */
  function Shown(c: Compacted, b: Budget, i: nat): seq<Message>
    requires i <= |c.turns|
  {
    if i == 0 then [] else
      var t := c.turns[i - 1];
      Shown(c, b, i - 1)
      + (if c.note.Some? && i - 1 == b.keepLeading then [ElisionNote(c.note.value)] else [])
      + [Assistant(t.assistant), Observation(TruncateObservation(t.observation, b))]
  }

  lemma {:induction false} ShownIs(c: Compacted, b: Budget, i: nat)
    requires i <= |c.turns|
    ensures Shown(c, b, i)
         == if c.note.Some? && i > b.keepLeading
            then Rendered(c.turns[..b.keepLeading], b) + [ElisionNote(c.note.value)]
                 + Rendered(c.turns[b.keepLeading..i], b)
            else Rendered(c.turns[..i], b)
  {
    hide Rendered;
    if i == 0 {
      RenderedOneMore([], Turn("", "", "", 0), b);
    } else {
      ShownIs(c, b, i - 1);
      hide Shown;
      ShownOneMore(c, b, i - 1);
      var cut, t := b.keepLeading, c.turns[i - 1];
      if c.note.Some? && i > cut {
        assert c.turns[cut..i] == c.turns[cut..i - 1] + [t];
        RenderedOneMore(c.turns[cut..i - 1], t, b);
        assert i - 1 == cut ==> c.turns[cut..i - 1] == [];
      } else {
        assert c.turns[..i] == c.turns[..i - 1] + [t];
        RenderedOneMore(c.turns[..i - 1], t, b);
      }
    }
  }

  lemma {:induction false} ShownOneMore(c: Compacted, b: Budget, i: nat)
    requires i < |c.turns|
    ensures Shown(c, b, 0) == []
    ensures Shown(c, b, i + 1)
         == Shown(c, b, i)
            + (if c.note.Some? && i == b.keepLeading then [ElisionNote(c.note.value)] else [])
            + [Assistant(c.turns[i].assistant), Observation(TruncateObservation(c.turns[i].observation, b))]
  {
  }

  lemma {:induction false} PromptShows(history: seq<Turn>, b: Budget, focusEvery: int)
    ensures var c := CompactHistory(history, b);
            Prompt(history, b, focusEvery)
            == [System, Task] + (if FocusDue(|history|, c.note.Some?, focusEvery) then [Focus(c.note.Some?)] else [])
               + Shown(c, b, |c.turns|)
  {
    hide *;
    PromptIs(history, b, focusEvery);
    var c := CompactHistory(history, b);
    ShownIs(c, b, |c.turns|);
    assert c.turns[..|c.turns|] == c.turns;
    if c.note.Some? {
      assert c.turns[b.keepLeading..|c.turns|] == c.turns[b.keepLeading..];
    }
  }

  method BuildMessages(history: seq<Turn>, b: Budget, focusEvery: int) returns (messages: seq<Message>)
    ensures messages == Prompt(history, b, focusEvery)
  {
    hide *;
    var c := CompactHistory(history, b);
    messages := [System, Task];
    if FocusDue(|history|, c.note.Some?, focusEvery) {
      messages := messages + [Focus(c.note.Some?)];
    }
    ghost var head := messages;
    PromptShows(history, b, focusEvery);
    ShownNothing(c, b);
    for i := 0 to |c.turns|
      invariant messages == head + Shown(c, b, i)
    {
      var t := c.turns[i];
      if c.note.Some? && i == b.keepLeading {
        messages := messages + [ElisionNote(c.note.value)];
      }
      messages := messages + [Assistant(t.assistant), Observation(TruncateObservation(t.observation, b))];
      ShownOneMore(c, b, i);
    }
  }

  lemma {:induction false} ShownNothing(c: Compacted, b: Budget)
    ensures Shown(c, b, 0) == []
  {
  }

  /** A prompt is never longer than the budget's turns allow, says when turns are missing exactly
      when some recent turn is kept, and restates the objective whenever turns are missing. */
  lemma PromptBound(history: seq<Turn>, b: Budget, focusEvery: int)
    ensures var prompt, elided := Prompt(history, b, focusEvery), |history| > b.keepLeading + b.keepRecent;
            && |prompt| <= 2 * (b.keepLeading + b.keepRecent) + 4
            && ((exists m :: m in prompt && m.ElisionNote?) <==> elided && b.keepRecent > 0)
            && (elided ==> Focus(true) in prompt)
  {
    hide TotalSize, Tally, Rendered;
    PromptIs(history, b, focusEvery);
    CompactsIffTooManyTurns(history, b);
    var prompt := Prompt(history, b, focusEvery);
    var c := CompactHistory(history, b);
    if c.note.Some? {
      assert prompt[2] == Focus(true);
      if b.keepRecent > 0 {
        assert prompt[3 + 2 * b.keepLeading] == ElisionNote(c.note.value);
      }
    }
  }

  lemma {:induction false} RenderedAt(turns: seq<Turn>, b: Budget, i: nat)
    requires i < |turns|
    ensures Rendered(turns, b)[2 * i] == Assistant(turns[i].assistant)
    ensures Rendered(turns, b)[2 * i + 1] == Observation(TruncateObservation(turns[i].observation, b))
  {
    if i < |turns| - 1 {
      RenderedAt(turns[..|turns| - 1], b, i);
    }
  }

  /** The objective is restated exactly when there is a history and it is cut short or its length
      is a multiple of the cadence. */
  predicate Restated(n: nat, cut: bool, focusEvery: int) {
    n > 0 && (cut || (focusEvery > 0 && n % focusEvery == 0))
  }

  /** A prompt that shows everything: the two opening messages, the objective where it is due,
      and the turns in order. */
  lemma WholePrompt(history: seq<Turn>, b: Budget, focusEvery: int)
    requires |history| <= b.keepLeading + b.keepRecent
    ensures Prompt(history, b, focusEvery)
         == [System, Task] + (if Restated(|history|, false, focusEvery) then [Focus(false)] else [])
            + Rendered(history, b)
  {
    hide TotalSize, Tally, Rendered;
    CompactsIffTooManyTurns(history, b);
    CompactionAccounts(history, b);
  }

  lemma CutCompaction(history: seq<Turn>, b: Budget)
    requires |history| > b.keepLeading + b.keepRecent
    ensures var c := CompactHistory(history, b);
            && c.note.Some? && c.note.value.elided == |history| - b.keepLeading - b.keepRecent
            && c.turns == history[..b.keepLeading] + history[|history| - b.keepRecent..]
  {
    hide TotalSize, Tally;
  }

  /** A prompt that does not: the two opening messages, the objective, the leading turns, the note
      and the recent turns. */
  lemma CutPrompt(history: seq<Turn>, b: Budget, focusEvery: int)
    requires |history| > b.keepLeading + b.keepRecent
    ensures var c := CompactHistory(history, b);
            && c.note.Some? && c.note.value.elided == |history| - b.keepLeading - b.keepRecent
            && Prompt(history, b, focusEvery)
               == [System, Task, Focus(true)]
                  + if b.keepRecent > 0
                    then Rendered(history[..b.keepLeading], b) + [ElisionNote(c.note.value)]
                         + Rendered(history[|history| - b.keepRecent..], b)
                    else Rendered(history[..b.keepLeading], b)
  {
    hide CompactHistory, Rendered;
    CutCompaction(history, b);
    assert [System, Task] + [Focus(true)] == [System, Task, Focus(true)];
    if b.keepRecent == 0 {
      assert history[..b.keepLeading] + history[|history| - b.keepRecent..] == history[..b.keepLeading];
    }
  }
}
