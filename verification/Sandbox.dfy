/** The overlay in which a run's file changes wait for review (src/sovereign_ai/kernel/sandbox.py),
    and its reopening by a later process (src/sovereign_ai/cli.py).

    Files are identified by their path relative to the workspace; no path is both a file and a
    directory. */
module Sandbox {
  import opened Json

  type Files = map<string, string>

  /** Where a path points: at a file of the workspace, or somewhere else. */
  datatype Place = Inside(relative: string) | Outside

  datatype Overlay = Overlay(files: Files, touched: set<string>, deleted: set<string>)

  const NOTHING_STAGED := Overlay(map[], {}, {})

  datatype Op = Write(relative: string, content: string) | Delete(relative: string)

  /** The operation carried out on real files; deleting what is not there does nothing. */
  function Direct(ws: Files, op: Op): Files {
    match op
    case Write(p, content) => ws[p := content]
    case Delete(p) => ws - {p}
  }

  function DirectAll(ws: Files, ops: seq<Op>): Files {
    if ops == [] then ws else Direct(DirectAll(ws, ops[..|ops| - 1]), ops[|ops| - 1])
  }

  function Stage(o: Overlay, op: Op): Overlay {
    match op
    case Write(p, content) => Overlay(o.files[p := content], o.touched + {p}, o.deleted - {p})
    case Delete(p) => Overlay(o.files - {p}, o.touched - {p}, o.deleted + {p})
  }

  function StageAll(o: Overlay, ops: seq<Op>): Overlay {
    if ops == [] then o else Stage(StageAll(o, ops[..|ops| - 1]), ops[|ops| - 1])
  }

  predicate Coherent(o: Overlay) {
    o.files.Keys == o.touched && o.touched !! o.deleted
  }

  /** The workspace as it will be once everything staged is applied. */
  function View(ws: Files, o: Overlay): Files {
    (ws - o.deleted) + o.files
  }

  lemma StageKeepsView(ws: Files, o: Overlay, op: Op)
    requires Coherent(o)
    ensures Coherent(Stage(o, op)) && View(ws, Stage(o, op)) == Direct(View(ws, o), op)
  {
    var o' := Stage(o, op);
    match op
    case Write(p, content) => assert View(ws, o') == View(ws, o)[p := content];
    case Delete(p) => assert View(ws, o') == View(ws, o) - {p};
  }

  /** Staging refines direct changes: after any sequence of staged writes and deletes the view is
      what those operations would have made of the workspace directly. */
  lemma {:induction false} StagingRefinesDirect(ws: Files, ops: seq<Op>)
    ensures Coherent(StageAll(NOTHING_STAGED, ops))
    ensures View(ws, StageAll(NOTHING_STAGED, ops)) == DirectAll(ws, ops)
  {
    if ops == [] {
      assert View(ws, NOTHING_STAGED) == ws;
    } else {
      StagingRefinesDirect(ws, ops[..|ops| - 1]);
      StageKeepsView(ws, StageAll(NOTHING_STAGED, ops[..|ops| - 1]), ops[|ops| - 1]);
    }
  }

  /** The text a read finds: the overlay's file, or the real one; a staged deletion sends the
      read to the real file. */
  function ReadThrough(ws: Files, o: Overlay, p: string): Option<string> {
    if p !in o.deleted && p in o.files then Some(o.files[p])
    else if p in ws then Some(ws[p])
    else None
  }

  predicate Exists(ws: Files, o: Overlay, p: string) {
    p !in o.deleted && (p in o.files || p in ws)
  }

  function Lookup(files: Files, p: string): Option<string> {
    if p in files then Some(files[p]) else None
  }

  /** `exists` always answers for the view.  A read does, unless the file is real and its
      deletion is staged: then it still finds the real text. */
  lemma ObserversAndView(ws: Files, o: Overlay, p: string)
    requires Coherent(o)
    ensures Exists(ws, o, p) <==> p in View(ws, o)
    ensures ReadThrough(ws, o, p) == Lookup(View(ws, o), p) <==> !(p in o.deleted && p in ws)
  {
  }

  datatype ChangeKind = Created | Modified | Deleted

  datatype Change = Change(relative: string, kind: ChangeKind, before: Option<string>, after: Option<string>)

  /** The changes under review: each touched file, and each deleted file that is really there. */
  predicate IsChange(ws: Files, o: Overlay, c: Change) {
    if c.relative in o.touched then
      c.relative in o.files
      && c == Change(c.relative, if c.relative in ws then Modified else Created,
                     Lookup(ws, c.relative), Some(o.files[c.relative]))
    else
      c.relative in o.deleted && c.relative in ws
      && c == Change(c.relative, Deleted, Some(ws[c.relative]), None)
  }

  /** A listed change is the difference between the workspace and the view at its path; every
      difference is at a path that is listed. */
  lemma ChangesAreDifferences(ws: Files, o: Overlay, changes: seq<Change>)
    requires Coherent(o) && Lists(ws, o, changes)
    ensures forall i :: 0 <= i < |changes| ==>
              var c := changes[i];
              && c.before == Lookup(ws, c.relative) && c.after == Lookup(View(ws, o), c.relative)
              && (c.kind == Created <==> c.before.None?) && (c.kind == Deleted <==> c.after.None?)
    ensures forall p :: Lookup(ws, p) != Lookup(View(ws, o), p) ==>
              exists i :: 0 <= i < |changes| && changes[i].relative == p
  {
    forall i | 0 <= i < |changes|
      ensures var c := changes[i];
              && c.before == Lookup(ws, c.relative) && c.after == Lookup(View(ws, o), c.relative)
              && (c.kind == Created <==> c.before.None?) && (c.kind == Deleted <==> c.after.None?)
    {
      assert IsChange(ws, o, changes[i]);
    }
    forall p | Lookup(ws, p) != Lookup(View(ws, o), p)
      ensures exists i :: 0 <= i < |changes| && changes[i].relative == p
    {
      assert p in PathsOf(changes);
    }
  }

  function PathsOf(changes: seq<Change>): set<string> {
    set i | 0 <= i < |changes| :: changes[i].relative
  }

  predicate Lists(ws: Files, o: Overlay, changes: seq<Change>) {
    && (forall i :: 0 <= i < |changes| ==> IsChange(ws, o, changes[i]))
    && (forall i, j :: 0 <= i < j < |changes| ==> changes[i].relative != changes[j].relative)
    && PathsOf(changes) == o.touched + o.deleted * ws.Keys
  }

  function Listed(changes: seq<Change>, c: Change): (r: seq<Change>)
    ensures |r| == |changes| + 1 && r[|changes|] == c
    ensures forall i :: 0 <= i < |changes| ==> r[i] == changes[i]
    ensures PathsOf(r) == PathsOf(changes) + {c.relative}
  {
    var r := changes + [c];
    assert forall i :: 0 <= i < |changes| ==> r[i] == changes[i];
    assert r[|changes|] == c;
    assert forall p :: p in PathsOf(changes) ==> exists i :: 0 <= i < |changes| && r[i].relative == p;
    r
  }

  function ApplyChange(ws: Files, c: Change): Files {
    if c.kind == Deleted then ws - {c.relative} else ws[c.relative := if c.after.Some? then c.after.value else ""]
  }

  function ApplyChanges(ws: Files, changes: seq<Change>): Files {
    if changes == [] then ws else ApplyChange(ApplyChanges(ws, changes[..|changes| - 1]), changes[|changes| - 1])
  }

  lemma {:induction false} NothingApplied(ws: Files, changes: seq<Change>)
    ensures ApplyChanges(ws, changes[..0]) == ws
  {
  }

  lemma {:induction false} ApplyOneMore(ws: Files, changes: seq<Change>, i: nat)
    requires i < |changes|
    ensures ApplyChanges(ws, changes[..i + 1]) == ApplyChange(ApplyChanges(ws, changes[..i]), changes[i])
  {
    assert changes[..i + 1][..i] == changes[..i];
  }

  /** After some of the changes, exactly their files are as in the view. */
  lemma {:induction false} PartlyApplied(ws: Files, o: Overlay, changes: seq<Change>, p: string)
    requires Coherent(o)
    requires forall i :: 0 <= i < |changes| ==> IsChange(ws, o, changes[i])
    ensures Lookup(ApplyChanges(ws, changes), p)
         == if p in PathsOf(changes) then Lookup(View(ws, o), p) else Lookup(ws, p)
  {
    if changes != [] {
      var n := |changes| - 1;
      PartlyApplied(ws, o, changes[..n], p);
      assert changes == Listed(changes[..n], changes[n]);
      assert IsChange(ws, o, changes[n]);
    }
  }

  /** Applying the listed changes, in whatever order they are listed, gives the view. */
  lemma ChangesGiveView(ws: Files, o: Overlay, changes: seq<Change>)
    requires Coherent(o) && Lists(ws, o, changes)
    ensures ApplyChanges(ws, changes) == View(ws, o)
  {
    var ws' := ApplyChanges(ws, changes);
    forall p ensures Lookup(ws', p) == Lookup(View(ws, o), p) {
      PartlyApplied(ws, o, changes, p);
    }
    forall p ensures p in ws' <==> p in View(ws, o) {
      assert Lookup(ws', p) == Lookup(View(ws, o), p);
    }
    forall p | p in ws' ensures ws'[p] == View(ws, o)[p] {
      assert Lookup(ws', p) == Lookup(View(ws, o), p);
    }
  }

  lemma NamedPaths(changes: seq<Change>, names: seq<string>)
    requires |names| == |changes| && forall j :: 0 <= j < |changes| ==> names[j] == changes[j].relative
    ensures forall p :: p in names <==> p in PathsOf(changes)
  {
    forall p | p in PathsOf(changes) ensures p in names {
      var j :| 0 <= j < |changes| && changes[j].relative == p;
      assert names[j] == p;
    }
    forall p | p in names ensures p in PathsOf(changes) {
      var j :| 0 <= j < |names| && names[j] == p;
      assert changes[j].relative == p;
    }
  }

  /* ---------- reopening ---------- */

  /** What a later process rebuilds: the staged files are found on disk, the deletions are not. */
  function Reopened(o: Overlay): Overlay {
    Overlay(o.files, o.files.Keys, {})
  }

  /** Reviewing and applying from another process promises the staged changes.  It keeps that
      promise exactly when no file of the workspace is staged for deletion. */
  lemma ReopeningKeepsViewIff(ws: Files, o: Overlay)
    requires Coherent(o)
    ensures View(ws, Reopened(o)) == View(ws, o) <==> o.deleted !! ws.Keys
  {
    if o.deleted !! ws.Keys {
      assert ws - o.deleted == ws;
      assert ws - {} == ws;
    } else {
      var p :| p in o.deleted && p in ws;
      assert p in View(ws, Reopened(o)) && p !in View(ws, o);
    }
  }

  /** Both differences at one input: a staged deletion of a real file hides it from `exists` and
      from the view, but a read still finds its text, and a later process does not know of it. */
  lemma StagedDeletionIsForgotten(ws: Files, p: string)
    requires p in ws
    ensures var o := StageAll(NOTHING_STAGED, [Delete(p)]);
            && !Exists(ws, o, p) && p !in View(ws, o)
            && ReadThrough(ws, o, p) == Some(ws[p])
            && View(ws, Reopened(o)) == ws
  {
    var ops := [Delete(p)];
    assert ops[..0] == [];
    assert StageAll(NOTHING_STAGED, ops) == Stage(StageAll(NOTHING_STAGED, []), Delete(p));
    assert ws - {} == ws;
  }

  class DiffSandbox {
    var workspace: Files
    var files: Files
    var touched: set<string>
    var deleted: set<string>

    constructor (workspace: Files)
      ensures Valid() && this.workspace == workspace && Staged() == NOTHING_STAGED
    {
      this.workspace := workspace;
      files, touched, deleted := map[], {}, {};
    }

    function Staged(): Overlay
      reads this
    {
      Overlay(files, touched, deleted)
    }

    predicate Valid()
      reads this
    {
      Coherent(Staged())
    }

    /** A write outside the workspace is not this sandbox's business. */
    method StageWrite(place: Place, content: string) returns (staged: bool)
      requires Valid()
      modifies this`files, this`touched, this`deleted
      ensures Valid() && staged == place.Inside?
      ensures Staged() == if place.Inside? then Stage(old(Staged()), Write(place.relative, content)) else old(Staged())
      ensures place.Inside? ==>
                forall p :: Lookup(View(workspace, Staged()), p)
                         == if p == place.relative then Some(content) else Lookup(View(workspace, old(Staged())), p)
    {
      if place.Outside? {
        return false;
      }
      StageKeepsView(workspace, Staged(), Write(place.relative, content));
      files := files[place.relative := content];
      touched := touched + {place.relative};
      deleted := deleted - {place.relative};
      return true;
    }

    method StageDelete(place: Place) returns (staged: bool)
      requires Valid()
      modifies this`files, this`touched, this`deleted
      ensures Valid() && staged == place.Inside?
      ensures Staged() == if place.Inside? then Stage(old(Staged()), Delete(place.relative)) else old(Staged())
      ensures place.Inside? ==>
                forall p :: Lookup(View(workspace, Staged()), p)
                         == if p == place.relative then None else Lookup(View(workspace, old(Staged())), p)
    {
      if place.Outside? {
        return false;
      }
      StageKeepsView(workspace, Staged(), Delete(place.relative));
      deleted := deleted + {place.relative};
      touched := touched - {place.relative};
      if place.relative in files {
        files := files - {place.relative};
      }
      return true;
    }

    method Changes() returns (result: seq<Change>)
      requires Valid()
      ensures Lists(workspace, Staged(), result)
      // Each is the difference at its path, and every difference is listed
      ensures forall i :: 0 <= i < |result| ==>
                var c := result[i];
                && c.before == Lookup(workspace, c.relative) && c.after == Lookup(View(workspace, Staged()), c.relative)
                && (c.kind == Created <==> c.before.None?) && (c.kind == Deleted <==> c.after.None?)
      ensures forall p :: Lookup(workspace, p) != Lookup(View(workspace, Staged()), p) ==>
                exists i :: 0 <= i < |result| && result[i].relative == p
    {
      result := [];
      var todo := touched;
      while todo != {}
        invariant todo <= touched
        invariant forall i :: 0 <= i < |result| ==> IsChange(workspace, Staged(), result[i])
        invariant forall i, j :: 0 <= i < j < |result| ==> result[i].relative != result[j].relative
        invariant PathsOf(result) == touched - todo
        decreases todo
      {
        var p :| p in todo;
        var before := if p in workspace then Some(workspace[p]) else None;
        var c := Change(p, if before.Some? then Modified else Created, before, Some(files[p]));
        result := Listed(result, c);
        todo := todo - {p};
      }
      todo := deleted;
      while todo != {}
        invariant todo <= deleted
        invariant forall i :: 0 <= i < |result| ==> IsChange(workspace, Staged(), result[i])
        invariant forall i, j :: 0 <= i < j < |result| ==> result[i].relative != result[j].relative
        invariant PathsOf(result) == touched + (deleted - todo) * workspace.Keys
        decreases todo
      {
        var p :| p in todo;
        if p in workspace {
          result := Listed(result, Change(p, Deleted, Some(workspace[p]), None));
        }
        todo := todo - {p};
      }
      ChangesAreDifferences(workspace, Staged(), result);
    }

    /** The only operation that touches the workspace: it becomes the view, and nothing is left
        staged. */
    method Apply() returns (applied: seq<string>)
      requires Valid()
      modifies this
      ensures Valid() && Staged() == NOTHING_STAGED
      ensures workspace == View(old(workspace), old(Staged()))
      ensures forall p :: p in applied <==> p in old(touched) || (p in old(deleted) && p in old(workspace))
    {
      hide IsChange, View, ApplyChanges;
      ghost var before := workspace;
      var changes := Changes();
      ChangesGiveView(workspace, Staged(), changes);
      applied := [];
      NothingApplied(before, changes);
      for i := 0 to |changes|
        invariant workspace == ApplyChanges(before, changes[..i])
        invariant Staged() == old(Staged())
        invariant |applied| == i && forall j :: 0 <= j < i ==> applied[j] == changes[j].relative
      {
        var c := changes[i];
        ApplyOneMore(before, changes, i);
        if c.kind == Deleted {
          if c.relative in workspace {
            workspace := workspace - {c.relative};
          } else {
            assert workspace - {c.relative} == workspace;
          }
        } else {
          workspace := workspace[c.relative := if c.after.Some? then c.after.value else ""];
        }
        applied := applied + [c.relative];
      }
      assert changes[..|changes|] == changes;
      NamedPaths(changes, applied);
      Discard();
    }

    method Discard()
      modifies this`files, this`touched, this`deleted
      ensures Staged() == NOTHING_STAGED
    {
      files, touched, deleted := map[], {}, {};
    }
  }
}
