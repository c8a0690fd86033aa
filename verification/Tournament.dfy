/** The harness tournament (scripts/harness_tournament.py): its counterbalanced schedule, its
    resumption after an interruption, and the tables of outcomes it leaves for comparison. */
module Tournament {

  datatype Cell = Cell(loopName: string, task: string, attempt: nat)

  /* ---------- counting ---------- */

  function Count<T(==)>(s: seq<T>, x: T): nat {
    if s == [] then 0 else Count(s[..|s| - 1], x) + if s[|s| - 1] == x then 1 else 0
  }

  lemma {:induction false} CountLast<T>(s: seq<T>, y: T, x: T)
    ensures Count(s + [y], x) == Count(s, x) + if y == x then 1 else 0
  {
    assert (s + [y])[..|s|] == s;
  }

  lemma {:induction false} CountConcat<T>(a: seq<T>, b: seq<T>, x: T)
    ensures Count(a + b, x) == Count(a, x) + Count(b, x)
  {
    if b == [] {
      assert a + b == a;
    } else {
      var n := |b| - 1;
      CountConcat(a, b[..n], x);
      assert a + b == a + b[..n] + [b[n]];
      CountLast(a + b[..n], b[n], x);
    }
  }

  lemma {:induction false} CountIn<T>(s: seq<T>, x: T)
    ensures x in s <==> Count(s, x) > 0
  {
    if s != [] {
      CountIn(s[..|s| - 1], x);
      assert s == s[..|s| - 1] + [s[|s| - 1]];
    }
  }

  ghost predicate Distinct<T>(s: seq<T>) {
    forall x :: x in s ==> Count(s, x) == 1
  }

  lemma DistinctCount<T>(s: seq<T>, x: T)
    requires Distinct(s)
    ensures Count(s, x) == if x in s then 1 else 0
  {
    CountIn(s, x);
  }

  lemma DistinctPlaces<T>(s: seq<T>, i: nat, j: nat)
    requires Distinct(s) && i < |s| && j < |s| && s[i] == s[j]
    ensures i == j
  {
    if i < j {
      RepeatCounts(s, i, j);
    } else if j < i {
      RepeatCounts(s, j, i);
    }
  }

  lemma RepeatCounts<T>(s: seq<T>, i: nat, j: nat)
    requires i < j < |s| && s[i] == s[j]
    ensures Count(s, s[i]) >= 2
  {
    assert s == s[..j] + s[j..];
    CountConcat(s[..j], s[j..], s[i]);
    CountIn(s[..j], s[i]);
    CountIn(s[j..], s[j]);
  }

  lemma Distribute(m: nat, b: nat, x: nat)
    ensures (m + b) * x == m * x + b * x
  {
  }

  /* ---------- the schedule ---------- */

  /** The order of the loops for one task and attempt: the list rotated. */
  function Order(loops: seq<string>, taskIndex: nat, attempt: nat): (order: seq<string>)
    requires loops != [] && attempt >= 1
    ensures |order| == |loops|
  {
    var offset := (taskIndex + attempt - 1) % |loops|;
    loops[offset..] + loops[..offset]
  }

  lemma OrderPermutes(loops: seq<string>, taskIndex: nat, attempt: nat, name: string)
    requires loops != [] && attempt >= 1
    ensures Count(Order(loops, taskIndex, attempt), name) == Count(loops, name)
  {
    hide Count;
    var offset := (taskIndex + attempt - 1) % |loops|;
    assert loops == loops[..offset] + loops[offset..];
    CountConcat(loops[..offset], loops[offset..], name);
    CountConcat(loops[offset..], loops[..offset], name);
  }

  function Block(order: seq<string>, task: string, attempt: nat): (cells: seq<Cell>)
    ensures |cells| == |order|
  {
    if order == [] then [] else Block(order[..|order| - 1], task, attempt) + [Cell(order[|order| - 1], task, attempt)]
  }

  /** The cells of one attempt, for the first n tasks. */
  function Attempt(loops: seq<string>, tasks: seq<string>, attempt: nat, n: nat): (cells: seq<Cell>)
    requires loops != [] && attempt >= 1 && n <= |tasks|
  {
    if n == 0 then [] else
      Attempt(loops, tasks, attempt, n - 1) + Block(Order(loops, n - 1, attempt), tasks[n - 1], attempt)
  }

  function Campaign(loops: seq<string>, tasks: seq<string>, repeats: nat): (cells: seq<Cell>) {
    if loops == [] || repeats == 0 then [] else
      Campaign(loops, tasks, repeats - 1) + Attempt(loops, tasks, repeats, |tasks|)
  }

  method CampaignCells(loops: seq<string>, tasks: seq<string>, repeats: nat) returns (cells: seq<Cell>)
    ensures cells == Campaign(loops, tasks, repeats)
  {
    hide *;
    cells := [];
    NoCells(loops, tasks, repeats);
    if loops == [] {
      return;
    }
    for attempt := 1 to repeats + 1
      invariant cells == Campaign(loops, tasks, attempt - 1)
    {
      ghost var before := cells;
      NoTasks(loops, tasks, attempt);
      for taskIndex := 0 to |tasks|
        invariant cells == before + Attempt(loops, tasks, attempt, taskIndex)
      {
        var ordered := Order(loops, taskIndex, attempt);
        AttemptOneMore(loops, tasks, attempt, taskIndex);
        cells := cells + Block(ordered, tasks[taskIndex], attempt);
      }
      CampaignOneMore(loops, tasks, attempt);
    }
  }

  lemma {:induction false} NoCells(loops: seq<string>, tasks: seq<string>, repeats: nat)
    ensures Campaign(loops, tasks, 0) == []
    ensures loops == [] ==> Campaign(loops, tasks, repeats) == []
  {
  }

  lemma {:induction false} CampaignOneMore(loops: seq<string>, tasks: seq<string>, attempt: nat)
    requires loops != [] && attempt >= 1
    ensures Campaign(loops, tasks, attempt)
            == Campaign(loops, tasks, attempt - 1) + Attempt(loops, tasks, attempt, |tasks|)
  {
  }

  lemma {:induction false} NoTasks(loops: seq<string>, tasks: seq<string>, attempt: nat)
    requires loops != [] && attempt >= 1
    ensures Attempt(loops, tasks, attempt, 0) == []
  {
  }

  lemma {:induction false} AttemptOneMore(loops: seq<string>, tasks: seq<string>, attempt: nat, n: nat)
    requires loops != [] && attempt >= 1 && n < |tasks|
    ensures Attempt(loops, tasks, attempt, n + 1)
         == Attempt(loops, tasks, attempt, n) + Block(Order(loops, n, attempt), tasks[n], attempt)
  {
  }

  lemma {:induction false} BlockCount(order: seq<string>, task: string, attempt: nat, c: Cell)
    ensures Count(Block(order, task, attempt), c)
         == if c.task == task && c.attempt == attempt then Count(order, c.loopName) else 0
  {
    if order != [] {
      var n := |order| - 1;
      BlockCount(order[..n], task, attempt, c);
      CountLast(Block(order[..n], task, attempt), Cell(order[n], task, attempt), c);
    }
  }

  lemma {:induction false} AttemptCount(loops: seq<string>, tasks: seq<string>, attempt: nat, n: nat, c: Cell)
    requires loops != [] && attempt >= 1 && n <= |tasks|
    ensures Count(Attempt(loops, tasks, attempt, n), c)
         == if c.attempt == attempt then Count(tasks[..n], c.task) * Count(loops, c.loopName) else 0
  {
    hide Count, Block, Order, Attempt;
    if n == 0 {
      NoTasks(loops, tasks, attempt);
      CountIn(tasks[..0], c.task);
      CountIn(Attempt(loops, tasks, attempt, 0), c);
    } else {
      var order := Order(loops, n - 1, attempt);
      AttemptCount(loops, tasks, attempt, n - 1, c);
      AttemptOneMore(loops, tasks, attempt, n - 1);
      CountConcat(Attempt(loops, tasks, attempt, n - 1), Block(order, tasks[n - 1], attempt), c);
      BlockCount(order, tasks[n - 1], attempt, c);
      OrderPermutes(loops, n - 1, attempt, c.loopName);
      assert tasks[..n] == tasks[..n - 1] + [tasks[n - 1]];
      CountLast(tasks[..n - 1], tasks[n - 1], c.task);
      Distribute(Count(tasks[..n - 1], c.task), if tasks[n - 1] == c.task then 1 else 0, Count(loops, c.loopName));
    }
  }

  /** A campaign runs each loop on each task once per attempt -- as often as the two lists name
      them, and nothing else. */
  lemma {:induction false} CampaignCount(loops: seq<string>, tasks: seq<string>, repeats: nat, c: Cell)
    ensures Count(Campaign(loops, tasks, repeats), c)
         == if 1 <= c.attempt <= repeats then Count(tasks, c.task) * Count(loops, c.loopName) else 0
  {
    hide Count, Attempt, Campaign;
    NoCells(loops, tasks, repeats);
    if loops == [] {
      CountIn(loops, c.loopName);
      CountIn(Campaign(loops, tasks, repeats), c);
    } else if repeats == 0 {
      CountIn(Campaign(loops, tasks, 0), c);
    } else {
      CampaignCount(loops, tasks, repeats - 1, c);
      CampaignOneMore(loops, tasks, repeats);
      CountConcat(Campaign(loops, tasks, repeats - 1), Attempt(loops, tasks, repeats, |tasks|), c);
      AttemptCount(loops, tasks, repeats, |tasks|, c);
      assert tasks[..|tasks|] == tasks;
    }
  }

  predicate Scheduled(loops: seq<string>, tasks: seq<string>, repeats: nat, c: Cell) {
    c.loopName in loops && c.task in tasks && 1 <= c.attempt <= repeats
  }

  /** With distinct loops and tasks, every cell of the campaign is in it exactly once. */
  lemma {:induction false} EveryCellOnce(loops: seq<string>, tasks: seq<string>, repeats: nat)
    requires Distinct(loops) && Distinct(tasks)
    ensures Distinct(Campaign(loops, tasks, repeats))
    ensures forall c :: c in Campaign(loops, tasks, repeats) <==> Scheduled(loops, tasks, repeats, c)
  {
    hide Count, Campaign;
    var cells := Campaign(loops, tasks, repeats);
    forall c
      ensures Count(cells, c) == if Scheduled(loops, tasks, repeats, c) then 1 else 0
      ensures c in cells <==> Scheduled(loops, tasks, repeats, c)
    {
      CampaignCount(loops, tasks, repeats, c);
      DistinctCount(tasks, c.task);
      DistinctCount(loops, c.loopName);
      CountIn(cells, c);
    }
  }

  /* ---------- counterbalance ---------- */

  lemma MulGrows(d: int, n: nat)
    ensures d >= 1 ==> d * n >= n
    ensures d <= -1 ==> d * n + n <= 0
  {
    if d >= 1 {
      assert d * n == (d - 1) * n + n;
    } else if d <= -1 {
      assert d * n == (d + 1) * n - n;
    }
  }

  lemma ModUnique(x: nat, q: nat, r: nat, n: nat)
    requires r < n && x == q * n + r
    ensures x / n == q && x % n == r
  {
    var q', r' := x / n, x % n;
    assert x == q' * n + r';
    assert (q' - q) * n == r - r';
    MulGrows(q' - q, n);
  }

  /** How many of the n numbers from x on have residue i. */
  function Residues(x: nat, n: nat, i: nat, size: nat): nat
    requires size > 0
  {
    if n == 0 then 0 else Residues(x, n - 1, i, size) + if (x + n - 1) % size == i then 1 else 0
  }

  lemma {:induction false} ResiduesSplit(x: nat, m: nat, n: nat, i: nat, size: nat)
    requires size > 0
    ensures Residues(x, m + n, i, size) == Residues(x, m, i, size) + Residues(x + m, n, i, size)
  {
    if n > 0 {
      ResiduesSplit(x, m, n - 1, i, size);
    }
  }

  lemma {:induction false} ResiduesFromZero(n: nat, i: nat, size: nat)
    requires n <= size && size > 0
    ensures Residues(0, n, i, size) == if i < n then 1 else 0
  {
    if n > 0 {
      ResiduesFromZero(n - 1, i, size);
      ModUnique(n - 1, 0, n - 1, size);
    }
  }

  lemma {:induction false} SlideWindow(x: nat, i: nat, size: nat)
    requires size > 0
    ensures Residues(x + 1, size, i, size) == Residues(x, size, i, size)
  {
    hide Residues;
    ResiduesSplit(x, 1, size, i, size);
    ResiduesSplit(x, size, 1, i, size);
    OneResidue(x, i, size);
    OneResidue(x + size, i, size);
    AddTurn(x, size);
  }

  lemma OneResidue(x: nat, i: nat, size: nat)
    requires size > 0
    ensures Residues(x, 1, i, size) == if x % size == i then 1 else 0
  {
    assert Residues(x, 0, i, size) == 0;
  }

  lemma AddTurn(x: nat, size: nat)
    requires size > 0
    ensures (x + size) % size == x % size && (x + size) / size == x / size + 1
  {
    var q, r := x / size, x % size;
    Distribute(q, 1, size);
    ModUnique(x + size, q + 1, r, size);
  }

  /** Any full turn meets every residue once. */
  lemma {:induction false} FullTurn(x: nat, i: nat, size: nat)
    requires i < size
    ensures Residues(x, size, i, size) == 1
  {
    if x == 0 {
      ResiduesFromZero(size, i, size);
    } else {
      FullTurn(x - 1, i, size);
      SlideWindow(x - 1, i, size);
    }
  }

  lemma {:induction false} PartTurns(x: nat, n: nat, i: nat, size: nat)
    requires i < size
    ensures n / size <= Residues(x, n, i, size) <= (n + size - 1) / size
    decreases n
  {
    hide Residues;
    FullTurn(x, i, size);
    if n == 0 {
      NoResidue(x, i, size);
      ModUnique(0, 0, 0, size);
      ModUnique(size - 1, 0, size - 1, size);
    } else if n < size {
      ResiduesSplit(x, n, size - n, i, size);
      ModUnique(n, 0, n, size);
      ModUnique(n + size - 1, 1, n - 1, size);
    } else {
      var m := n - size;
      ResiduesSplit(x, size, m, i, size);
      PartTurns(x + size, m, i, size);
      AddTurn(m, size);
      AddTurn(m + size - 1, size);
    }
  }

  lemma NoResidue(x: nat, i: nat, size: nat)
    requires size > 0
    ensures Residues(x, 0, i, size) == 0
  {
  }

  /** How many of the n tasks from `first` on give `name` the position p. */
  function TimesInPosition(loops: seq<string>, attempt: nat, first: nat, n: nat, p: nat, name: string): nat
    requires loops != [] && attempt >= 1 && p < |loops|
  {
    if n == 0 then 0 else
      TimesInPosition(loops, attempt, first, n - 1, p, name)
      + if Order(loops, first + n - 1, attempt)[p] == name then 1 else 0
  }

  lemma OrderAt(loops: seq<string>, taskIndex: nat, attempt: nat, p: nat)
    requires loops != [] && attempt >= 1 && p < |loops|
    ensures Order(loops, taskIndex, attempt)[p] == loops[(taskIndex + attempt - 1 + p) % |loops|]
  {
    var size, x := |loops|, taskIndex + attempt - 1;
    var offset := x % size;
    if offset + p < size {
      ModUnique(x + p, x / size, offset + p, size);
    } else {
      ModUnique(x + p, x / size + 1, offset + p - size, size);
    }
  }

  lemma {:induction false} PositionsAreResidues(loops: seq<string>, attempt: nat, first: nat, n: nat, p: nat, i: nat)
    requires Distinct(loops) && attempt >= 1 && p < |loops| && i < |loops|
    ensures TimesInPosition(loops, attempt, first, n, p, loops[i])
         == Residues(first + attempt - 1 + p, n, i, |loops|)
  {
    if n > 0 {
      PositionsAreResidues(loops, attempt, first, n - 1, p, i);
      OrderAt(loops, first + n - 1, attempt, p);
      var k := (first + attempt - 1 + p + n - 1) % |loops|;
      if loops[k] == loops[i] {
        DistinctPlaces(loops, k, i);
      }
    }
  }

  /** Any L consecutive tasks of an attempt are a Latin square: each of the L loops takes each
      position exactly once.  Over n tasks it takes it floor(n/L) or ceil(n/L) times. */
  lemma Counterbalanced(loops: seq<string>, attempt: nat, first: nat, n: nat, p: nat, name: string)
    requires Distinct(loops) && attempt >= 1 && p < |loops| && name in loops
    ensures n == |loops| ==> TimesInPosition(loops, attempt, first, n, p, name) == 1
    ensures n / |loops| <= TimesInPosition(loops, attempt, first, n, p, name) <= (n + |loops| - 1) / |loops|
  {
    var i :| 0 <= i < |loops| && loops[i] == name;
    PositionsAreResidues(loops, attempt, first, n, p, i);
    PartTurns(first + attempt - 1 + p, n, i, |loops|);
    if n == |loops| {
      FullTurn(first + attempt - 1 + p, i, |loops|);
    }
  }

  lemma {:induction false} BlockAt(order: seq<string>, task: string, attempt: nat, p: nat)
    requires p < |order|
    ensures Block(order, task, attempt)[p] == Cell(order[p], task, attempt)
  {
    if p < |order| - 1 {
      BlockAt(order[..|order| - 1], task, attempt, p);
    }
  }

  lemma {:induction false} AttemptAt(loops: seq<string>, tasks: seq<string>, attempt: nat, n: nat, t: nat, p: nat)
    requires attempt >= 1 && t < n <= |tasks| && p < |loops|
    ensures t * |loops| + p < n * |loops| == |Attempt(loops, tasks, attempt, n)|
    ensures Attempt(loops, tasks, attempt, n)[t * |loops| + p] == Cell(Order(loops, t, attempt)[p], tasks[t], attempt)
  {
    hide Attempt, Block, Order;
    NoTasks(loops, tasks, attempt);
    AttemptOneMore(loops, tasks, attempt, n - 1);
    Distribute(n - 1, 1, |loops|);
    BlockAt(Order(loops, n - 1, attempt), tasks[n - 1], attempt, p);
    if t < n - 1 {
      AttemptAt(loops, tasks, attempt, n - 1, t, p);
    } else if n > 1 {
      AttemptAt(loops, tasks, attempt, n - 1, 0, p);
    }
  }

  lemma {:induction false} CampaignLength(loops: seq<string>, tasks: seq<string>, repeats: nat)
    requires loops != [] && tasks != []
    ensures |Campaign(loops, tasks, repeats)| == repeats * (|tasks| * |loops|)
  {
    hide Campaign;
    NoCells(loops, tasks, 0);
    if repeats > 0 {
      CampaignLength(loops, tasks, repeats - 1);
      CampaignOneMore(loops, tasks, repeats);
      AttemptAt(loops, tasks, repeats, |tasks|, 0, 0);
      Distribute(repeats - 1, 1, |tasks| * |loops|);
    }
  }

  function Place(loops: seq<string>, tasks: seq<string>, attempt: nat, t: nat, p: nat): nat
    requires attempt >= 1
  {
    (attempt - 1) * (|tasks| * |loops|) + t * |loops| + p
  }

  lemma {:induction false} CampaignCell(loops: seq<string>, tasks: seq<string>, repeats: nat, attempt: nat, t: nat,
                                        p: nat)
    requires 1 <= attempt <= repeats && t < |tasks| && p < |loops|
    ensures Place(loops, tasks, attempt, t, p) < |Campaign(loops, tasks, repeats)|
    ensures Campaign(loops, tasks, repeats)[Place(loops, tasks, attempt, t, p)]
         == Cell(Order(loops, t, attempt)[p], tasks[t], attempt)
  {
    hide Campaign, Attempt, Order;
    CampaignOneMore(loops, tasks, repeats);
    CampaignLength(loops, tasks, repeats - 1);
    if attempt < repeats {
      CampaignCell(loops, tasks, repeats - 1, attempt, t, p);
    } else {
      AttemptAt(loops, tasks, attempt, |tasks|, t, p);
    }
  }

  /** The campaign is its attempts in turn, each its tasks in turn, each the loops from a place in
      the list that moves on by one with every task and every attempt. */
  lemma CampaignAt(loops: seq<string>, tasks: seq<string>, repeats: nat, attempt: nat, t: nat, p: nat)
    requires 1 <= attempt <= repeats && t < |tasks| && p < |loops|
    ensures Place(loops, tasks, attempt, t, p) < |Campaign(loops, tasks, repeats)|
    ensures Campaign(loops, tasks, repeats)[Place(loops, tasks, attempt, t, p)]
         == Cell(loops[(t + attempt - 1 + p) % |loops|], tasks[t], attempt)
  {
    hide Campaign, Order;
    CampaignCell(loops, tasks, repeats, attempt, t, p);
    OrderAt(loops, t, attempt, p);
  }

  /* ---------- resumption ---------- */

  datatype Outcome = Outcome(cell: Cell, passed: bool)

  function CellsOf(results: seq<Outcome>): (cells: seq<Cell>)
    ensures |cells| == |results| && forall i :: 0 <= i < |results| ==> cells[i] == results[i].cell
  {
    if results == [] then [] else CellsOf(results[..|results| - 1]) + [results[|results| - 1].cell]
  }

  /** What a run will execute: the cells with no result yet, of the loops this kernel has. */
  function Missing(cells: seq<Cell>, done: seq<Cell>, registered: set<string>): (missing: seq<Cell>)
    ensures forall c :: c in missing <==> c in cells && c !in done && c.loopName in registered
  {
    if cells == [] then [] else
      var last := cells[|cells| - 1];
      assert cells == cells[..|cells| - 1] + [last];
      Missing(cells[..|cells| - 1], done, registered)
      + if last !in done && last.loopName in registered then [last] else []
  }

  /** One run of the tournament: which loops are registered, how each cell it runs ends, and
      after how many cells the process is interrupted, if it is. */
  datatype Session = Session(registered: set<string>, passes: Cell -> bool, cut: nat)

  function Executed(cells: seq<Cell>, passes: Cell -> bool): (results: seq<Outcome>)
    ensures CellsOf(results) == cells && forall i :: 0 <= i < |cells| ==> results[i].passed == passes(cells[i])
  {
    if cells == [] then [] else
      var n := |cells| - 1;
      Executed(cells[..n], passes) + [Outcome(cells[n], passes(cells[n]))]
  }

  function Shorter(a: nat, b: nat): nat {
    if a < b then a else b
  }

  /** The results on disk after a session that began with the given ones. */
  function Resumed(cells: seq<Cell>, results: seq<Outcome>, s: Session): seq<Outcome> {
    var missing := Missing(cells, CellsOf(results), s.registered);
    results + Executed(missing[..Shorter(s.cut, |missing|)], s.passes)
  }

  function Sessions(cells: seq<Cell>, sessions: seq<Session>): seq<Outcome> {
    if sessions == [] then [] else
      Resumed(cells, Sessions(cells, sessions[..|sessions| - 1]), sessions[|sessions| - 1])
  }

  lemma {:induction false} MissingOneMore(cells: seq<Cell>, i: nat, done: seq<Cell>, registered: set<string>)
    requires i < |cells|
    ensures Missing(cells[..i + 1], done, registered)
         == Missing(cells[..i], done, registered)
            + if cells[i] !in done && cells[i].loopName in registered then [cells[i]] else []
  {
    assert cells[..i + 1][..i] == cells[..i];
  }

  lemma {:induction false} ExecutedOneMore(cells: seq<Cell>, c: Cell, passes: Cell -> bool)
    ensures Executed(cells + [c], passes) == Executed(cells, passes) + [Outcome(c, passes(c))]
  {
    assert (cells + [c])[..|cells|] == cells;
  }

  /** Every result reaches the disk before the next cell starts, so an interruption leaves the
      results of the cells run so far. */
  method RunTournament(cells: seq<Cell>, initial: seq<Outcome>, s: Session) returns (results: seq<Outcome>)
    ensures results == Resumed(cells, initial, s)
  {
    hide Missing, Executed, CellsOf;
    results := initial;
    ghost var done := CellsOf(initial);
    var completed := set r | r in initial :: r.cell;
    assert forall c :: c in completed <==> c in done;
    ghost var missing := [];
    var ran := 0;
    NothingMissing(done, s.registered, s.passes);
    for i := 0 to |cells|
      invariant missing == Missing(cells[..i], done, s.registered)
      invariant ran == Shorter(s.cut, |missing|)
      invariant results == initial + Executed(missing[..ran], s.passes)
    {
      MissingOneMore(cells, i, done, s.registered);
      if cells[i] in completed || cells[i].loopName !in s.registered {
        continue;
      }
      missing := missing + [cells[i]];
      if ran == s.cut {
        assert missing[..ran] == missing[..|missing| - 1][..ran];
        continue;
      }
      assert missing[..ran] == missing[..|missing| - 1] && missing[..ran + 1] == missing;
      ExecutedOneMore(missing[..ran], cells[i], s.passes);
      results := results + [Outcome(cells[i], s.passes(cells[i]))];
      ran := ran + 1;
    }
    assert cells[..|cells|] == cells;
  }

  lemma {:induction false} NothingMissing(done: seq<Cell>, registered: set<string>, passes: Cell -> bool)
    ensures Missing([], done, registered) == [] && Executed([], passes) == []
  {
  }

  /** However often the tournament is interrupted and resumed, with whatever loops registered
      each time, no cell has two results and no result is for a cell outside the campaign. */
  lemma {:induction false} NoCellTwice(cells: seq<Cell>, sessions: seq<Session>)
    requires Distinct(cells)
    ensures Distinct(CellsOf(Sessions(cells, sessions)))
    ensures forall c :: c in CellsOf(Sessions(cells, sessions)) ==> c in cells
  {
    if sessions != [] {
      var n := |sessions| - 1;
      NoCellTwice(cells, sessions[..n]);
      SessionKeepsDistinct(cells, Sessions(cells, sessions[..n]), sessions[n]);
    }
  }

  lemma {:induction false} SessionKeepsDistinct(cells: seq<Cell>, results: seq<Outcome>, s: Session)
    requires Distinct(cells) && Distinct(CellsOf(results))
    requires forall c :: c in CellsOf(results) ==> c in cells
    ensures Distinct(CellsOf(Resumed(cells, results, s)))
    ensures forall c :: c in CellsOf(Resumed(cells, results, s)) ==> c in cells
  {
    hide Missing, Executed, CellsOf;
    var done := CellsOf(results);
    var missing := Missing(cells, done, s.registered);
    var ran := missing[..Shorter(s.cut, |missing|)];
    assert CellsOf(Resumed(cells, results, s)) == done + ran by {
      CellsOfConcat(results, Executed(ran, s.passes));
    }
    assert missing == ran + missing[|ran|..];
    forall c | c in done + ran ensures c in cells && Count(done + ran, c) == 1 {
      hide Count;
      assert c in ran ==> c in missing;
      CountConcat(done, ran, c);
      CountConcat(ran, missing[|ran|..], c);
      MissingCount(cells, done, s.registered, c);
      CountIn(done + ran, c);
      DistinctCount(done, c);
      DistinctCount(cells, c);
    }
  }

  lemma {:induction false} MissingCount(cells: seq<Cell>, done: seq<Cell>, registered: set<string>, c: Cell)
    ensures Count(Missing(cells, done, registered), c) <= if c in done then 0 else Count(cells, c)
  {
    hide Count;
    if cells == [] {
      CountIn([], c);
    } else {
      var n := |cells| - 1;
      MissingCount(cells[..n], done, registered, c);
      assert cells == cells[..n] + [cells[n]];
      CountLast(cells[..n], cells[n], c);
      CountLast(Missing(cells[..n], done, registered), cells[n], c);
      assert Missing(cells[..n], done, registered) + [] == Missing(cells[..n], done, registered);
    }
  }

  lemma {:induction false} CellsOfConcat(a: seq<Outcome>, b: seq<Outcome>)
    ensures CellsOf(a + b) == CellsOf(a) + CellsOf(b)
  {
    hide CellsOf;
  }

  /** A session that is not interrupted leaves exactly one result for every cell of the loops
      registered then, whatever came before. */
  lemma {:induction false} FinishedCampaign(loops: seq<string>, tasks: seq<string>, repeats: nat,
                                            sessions: seq<Session>, last: Session)
    requires Distinct(loops) && Distinct(tasks)
    requires last.cut >= |Campaign(loops, tasks, repeats)|
    ensures var cells := Campaign(loops, tasks, repeats);
            var ran := CellsOf(Sessions(cells, sessions + [last]));
            && Distinct(ran)
            && forall c: Cell :: c.loopName in last.registered ==> (c in ran <==> Scheduled(loops, tasks, repeats, c))
  {
    var cells := Campaign(loops, tasks, repeats);
    EveryCellOnce(loops, tasks, repeats);
    NoCellTwice(cells, sessions + [last]);
    assert (sessions + [last])[..|sessions|] == sessions;
    var before := Sessions(cells, sessions);
    var missing := Missing(cells, CellsOf(before), last.registered);
    MissingIsShort(cells, CellsOf(before), last.registered);
    assert missing[..Shorter(last.cut, |missing|)] == missing;
    CellsOfConcat(before, Executed(missing, last.passes));
  }

  lemma {:induction false} MissingIsShort(cells: seq<Cell>, done: seq<Cell>, registered: set<string>)
    ensures |Missing(cells, done, registered)| <= |cells|
  {
    if cells != [] {
      MissingIsShort(cells[..|cells| - 1], done, registered);
    }
  }

  /* ---------- the paired comparison ---------- */

  datatype Key = Key(task: string, attempt: nat)

  /** One loop's outcomes by task and attempt; a later result for the same key replaces an
      earlier one. */
  function ByLoop(results: seq<Outcome>, loopName: string): (table: map<Key, bool>) {
    if results == [] then map[] else
      var r := results[|results| - 1];
      var earlier := ByLoop(results[..|results| - 1], loopName);
      if r.cell.loopName == loopName then earlier[Key(r.cell.task, r.cell.attempt) := r.passed] else earlier
  }

  lemma {:induction false} ByLoopKeys(results: seq<Outcome>, loopName: string, k: Key)
    ensures k in ByLoop(results, loopName) <==> Cell(loopName, k.task, k.attempt) in CellsOf(results)
  {
    if results != [] {
      ByLoopKeys(results[..|results| - 1], loopName, k);
    }
  }

  /** Once a campaign has finished, any two registered loops are compared on exactly the same
      cells: every task at every attempt. */
  lemma {:induction false} FinishedCampaignPairs(loops: seq<string>, tasks: seq<string>, repeats: nat,
                                                 sessions: seq<Session>, last: Session,
                                                 loopName: string, k: Key)
    requires Distinct(loops) && Distinct(tasks)
    requires last.cut >= |Campaign(loops, tasks, repeats)|
    requires loopName in loops && loopName in last.registered
    ensures var results := Sessions(Campaign(loops, tasks, repeats), sessions + [last]);
            k in ByLoop(results, loopName) <==> k.task in tasks && 1 <= k.attempt <= repeats
  {
    hide Campaign, Sessions, CellsOf, ByLoop;
    FinishedCampaign(loops, tasks, repeats, sessions, last);
    ByLoopKeys(Sessions(Campaign(loops, tasks, repeats), sessions + [last]), loopName, k);
    var c := Cell(loopName, k.task, k.attempt);
    assert c.loopName in last.registered;
  }

  /** The table holds, for each key, what the last result for it says. */
  lemma {:induction false} LastResultCounts(results: seq<Outcome>, i: nat)
    requires i < |results|
    requires forall j :: i < j < |results| ==> results[j].cell != results[i].cell
    ensures var c, table := results[i].cell, ByLoop(results, results[i].cell.loopName);
            Key(c.task, c.attempt) in table && table[Key(c.task, c.attempt)] == results[i].passed
  {
    var n := |results| - 1;
    if i < n {
      LastResultCounts(results[..n], i);
    }
  }

  lemma {:induction false} NothingToSkip(cells: seq<Cell>, registered: set<string>)
    requires forall c :: c in cells ==> c.loopName in registered
    ensures Missing(cells, [], registered) == cells
  {
    if cells != [] {
      assert cells == cells[..|cells| - 1] + [cells[|cells| - 1]];
      NothingToSkip(cells[..|cells| - 1], registered);
    }
  }

  lemma {:induction false} SkipsWhatIsDone(cells: seq<Cell>, i: nat, k: nat, registered: set<string>)
    requires i <= k <= |cells| && Distinct(cells) && forall c :: c in cells ==> c.loopName in registered
    ensures Missing(cells[..k], cells[..i], registered) == cells[i..k]
  {
    hide Missing, Distinct, Count;
    if k > i {
      SkipsWhatIsDone(cells, i, k - 1, registered);
      MissingOneMore(cells, k - 1, cells[..i], registered);
      forall j | 0 <= j < i ensures cells[j] != cells[k - 1] {
        if cells[j] == cells[k - 1] {
          DistinctPlaces(cells, j, k - 1);
        }
      }
      assert cells[i..k] == cells[i..k - 1] + [cells[k - 1]];
    } else {
      DoneOnly(cells[..k], registered);
    }
  }

  lemma {:induction false} DoneOnly(cells: seq<Cell>, registered: set<string>)
    ensures Missing(cells, cells, registered) == []
  {
    HasMember(Missing(cells, cells, registered));
  }

  lemma HasMember<T>(s: seq<T>)
    ensures s != [] ==> exists x :: x in s
  {
    if |s| > 0 {
      assert s[0] in s;
    }
  }

  /** With every loop registered, interruptions leave no trace: however often the campaign is cut
      short and taken up again, its results are those of its first cells, in campaign order. */
  lemma {:induction false} ResumedInOrder(cells: seq<Cell>, sessions: seq<Session>)
    requires Distinct(cells)
    requires forall i, c :: 0 <= i < |sessions| && c in cells ==> c.loopName in sessions[i].registered
    ensures CellsOf(Sessions(cells, sessions)) <= cells
  {
    hide Missing, Executed, CellsOf;
    if sessions == [] {
      NoSessions(cells);
    } else {
      var n := |sessions| - 1;
      var s, before := sessions[n], Sessions(cells, sessions[..n]);
      assert forall i :: 0 <= i < n ==> sessions[..n][i] == sessions[i];
      ResumedInOrder(cells, sessions[..n]);
      var done := CellsOf(before);
      SkipsWhatIsDone(cells, |done|, |cells|, s.registered);
      assert cells[..|done|] == done && cells[..|cells|] == cells && cells[|done|..|cells|] == cells[|done|..];
      var missing := cells[|done|..];
      CellsOfConcat(before, Executed(missing[..Shorter(s.cut, |missing|)], s.passes));
    }
  }

  lemma {:induction false} NoSessions(cells: seq<Cell>)
    ensures CellsOf(Sessions(cells, [])) == []
  {
  }
}
