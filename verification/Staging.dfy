/** Committing a staged workspace over the host tree
    (src/sovereign_ai/execution/staging.py).

    A file system tree is a value; the workspace is an object whose children are removed and
    copied one at a time, in any order, and any of those steps may fail and leave an arbitrary
    residue behind, or go wrong without saying so.  Nobody else writes to the workspace while a commit runs. */
module Staging {
  import opened Json

  datatype Node =
    | File(content: string)
    | Symlink(target: string)
    | Special
    | Dir(children: map<string, Node>)

  type Path = seq<string>

  function At(n: Node, p: Path): Option<Node> {
    if p == [] then Some(n)
    else if n.Dir? && p[0] in n.children then At(n.children[p[0]], p[1..])
    else None
  }

  function Paths(n: Node): set<Path> {
    {[]} + if n.Dir? then set k, q | k in n.children && q in Paths(n.children[k]) :: [k] + q else {}
  }

  lemma {:induction false} PathsAreLocations(n: Node, p: Path)
    ensures p in Paths(n) <==> At(n, p).Some?
    decreases p
  {
    if p != [] && n.Dir? {
      if p[0] in n.children {
        PathsAreLocations(n.children[p[0]], p[1..]);
        assert p == [p[0]] + p[1..];
      }
      if p in Paths(n) {
        var k, q :| k in n.children && q in Paths(n.children[k]) && p == [k] + q;
        assert p[0] == k && p[1..] == q;
      }
    }
  }

  /* ---------- path keys ---------- */

  predicate ValidName(k: string) {
    k != "" && k != "." && '/' !in k
  }

  predicate ValidPath(p: Path) {
    forall k :: k in p ==> ValidName(k)
  }

  predicate ValidNames(n: Node) {
    n.Dir? ==> forall k :: k in n.children ==> ValidName(k) && ValidNames(n.children[k])
  }

  function Join(p: Path): string {
    if p == [] then "" else if |p| == 1 then p[0] else p[0] + "/" + Join(p[1..])
  }

  /** The posix form of a path relative to the root. */
  function Key(p: Path): string {
    if p == [] then "." else Join(p)
  }

  function UpToSlash(s: string): (n: nat)
    ensures n <= |s|
  {
    if s == "" || s[0] == '/' then 0 else 1 + UpToSlash(s[1..])
  }

  function Split(s: string): Path
    decreases |s|
  {
    var n := UpToSlash(s);
    if n == |s| then [s] else [s[..n]] + Split(s[n + 1..])
  }

  function PathOf(key: string): Path {
    if key == "." then [] else Split(key)
  }

  lemma {:induction false} UpToSlashStops(k: string, rest: string)
    requires '/' !in k && (rest == "" || rest[0] == '/')
    ensures UpToSlash(k + rest) == |k|
  {
    if k == "" {
      assert k + rest == rest;
    } else {
      assert k[0] in k;
      assert (k + rest)[1..] == k[1..] + rest;
      UpToSlashStops(k[1..], rest);
    }
  }

  lemma {:induction false} SplitJoin(p: Path)
    requires p != [] && ValidPath(p)
    ensures Split(Join(p)) == p && Join(p) != ""
    ensures |p| > 1 ==> '/' in Join(p)
  {
    assert p[0] in p;
    if |p| == 1 {
      UpToSlashStops(p[0], "");
      assert p[0] + "" == p[0];
    } else {
      var rest := "/" + Join(p[1..]);
      assert Join(p) == p[0] + rest;
      UpToSlashStops(p[0], rest);
      assert ValidPath(p[1..]) by {
        assert forall k :: k in p[1..] ==> k in p;
      }
      SplitJoin(p[1..]);
      assert Join(p)[..|p[0]|] == p[0];
      assert Join(p)[|p[0]| + 1..] == Join(p[1..]);
      assert Join(p)[|p[0]|] == '/';
    }
  }

  /** A location's key is its names in order, a slash between each two; the root's is a dot. */
  lemma {:induction false} KeyText(p: Path, k: string)
    ensures Key([]) == "." && Key([k]) == k
    ensures p != [] ==> Key(p + [k]) == Key(p) + "/" + k
  {
    if |p| > 1 {
      KeyText(p[1..], k);
      assert (p + [k])[1..] == p[1..] + [k];
    } else if |p| == 1 {
      assert (p + [k])[1..] == [k];
    }
  }

  lemma KeyRoundTrip(p: Path)
    requires ValidPath(p)
    ensures PathOf(Key(p)) == p
  {
    if p != [] {
      SplitJoin(p);
      assert p[0] in p;
      assert Key(p) == "." ==> |p| > 1 && '/' in ".";
    }
  }

  lemma {:induction false} LocationsHaveValidPaths(n: Node, p: Path)
    requires ValidNames(n) && At(n, p).Some?
    ensures ValidPath(p)
    decreases p
  {
    if p != [] {
      LocationsHaveValidPaths(n.children[p[0]], p[1..]);
      forall k | k in p ensures ValidName(k) {
        assert k == p[0] || k in p[1..];
      }
    }
  }

  /* ---------- snapshots ---------- */

  datatype Entry = DirEntry | FileEntry(digest: string) | LinkEntry(linkTarget: string)

  type Snapshot = map<string, Entry>

  function EntryOf(digest: string -> string, n: Node): Entry {
    match n
    case File(content) => FileEntry(digest(content))
    case Symlink(target) => LinkEntry(target)
    case _ => DirEntry
  }

  function EntryAt(digest: string -> string, n: Node, p: Path): Option<Entry> {
    match At(n, p)
    case None => None
    case Some(m) => Some(EntryOf(digest, m))
  }

  predicate NoSpecials(n: Node) {
    !n.Special? && (n.Dir? ==> forall k :: k in n.children ==> NoSpecials(n.children[k]))
  }

  /** What a snapshot must be: one entry for each location, under its key. */
  ghost predicate Describes(digest: string -> string, n: Node, s: Snapshot) {
    && (forall p :: At(n, p).Some? ==> Key(p) in s)
    && (forall key :: key in s ==> EntryAt(digest, n, PathOf(key)) == Some(s[key]))
  }

  function SnapshotOf(digest: string -> string, n: Node): Snapshot {
    var keys := set p | p in Paths(n) :: Key(p);
    map key | key in keys && At(n, PathOf(key)).Some? :: EntryOf(digest, At(n, PathOf(key)).value)
  }

  lemma SnapshotDescribes(digest: string -> string, n: Node)
    requires ValidNames(n)
    ensures Describes(digest, n, SnapshotOf(digest, n))
  {
    hide Key, PathOf, Paths;
    forall p | At(n, p).Some? ensures Key(p) in SnapshotOf(digest, n) {
      PathsAreLocations(n, p);
      LocationsHaveValidPaths(n, p);
      KeyRoundTrip(p);
    }
  }

  /** The tree with each file's content replaced by its digest. */
  function Erase(digest: string -> string, n: Node): Node {
    match n
    case File(content) => File(digest(content))
    case Dir(children) => Dir(map k | k in children :: Erase(digest, children[k]))
    case _ => n
  }

  lemma {:induction false} ErasedEntries(digest: string -> string, n: Node, p: Path)
    ensures EntryAt(digest, n, p) == EntryAt(s => s, Erase(digest, n), p)
    decreases p
  {
    if p != [] && n.Dir? && p[0] in n.children {
      ErasedEntries(digest, n.children[p[0]], p[1..]);
    }
  }

  lemma {:induction false} EqualEntriesEqualTrees(digest: string -> string, a: Node, b: Node)
    requires NoSpecials(a) && NoSpecials(b)
    requires forall p :: EntryAt(digest, a, p) == EntryAt(digest, b, p)
    ensures Erase(digest, a) == Erase(digest, b)
    decreases a
  {
    assert EntryAt(digest, a, []) == EntryAt(digest, b, []);
    if a.Dir? {
      assert b.Dir?;
      forall k
        ensures k in a.children <==> k in b.children
        ensures k in a.children && k in b.children ==>
                  Erase(digest, a.children[k]) == Erase(digest, b.children[k])
      {
        assert EntryAt(digest, a, [k]) == EntryAt(digest, b, [k]);
        assert [k][1..] == [];
        assert At(a, [k]).Some? <==> k in a.children;
        assert At(b, [k]).Some? <==> k in b.children;
        if k in a.children && k in b.children {
          forall p ensures EntryAt(digest, a.children[k], p) == EntryAt(digest, b.children[k], p) {
            assert EntryAt(digest, a, [k] + p) == EntryAt(digest, b, [k] + p);
            assert ([k] + p)[1..] == p;
          }
          EqualEntriesEqualTrees(digest, a.children[k], b.children[k]);
        }
      }
      var ea, eb := Erase(digest, a), Erase(digest, b);
      assert ea.children.Keys == a.children.Keys && eb.children.Keys == b.children.Keys;
      assert ea.children == eb.children;
    }
  }

  /** Snapshots are faithful: equal snapshots mean equal trees up to content digests, and
      conversely. */
  lemma SnapshotFaithful(digest: string -> string, a: Node, b: Node)
    requires ValidNames(a) && ValidNames(b) && NoSpecials(a) && NoSpecials(b)
    ensures SnapshotOf(digest, a) == SnapshotOf(digest, b) <==> Erase(digest, a) == Erase(digest, b)
  {
    var sa, sb := SnapshotOf(digest, a), SnapshotOf(digest, b);
    SnapshotDescribes(digest, a);
    SnapshotDescribes(digest, b);
    if sa == sb {
      forall p ensures EntryAt(digest, a, p) == EntryAt(digest, b, p) {
        SameSnapshotSameEntry(digest, a, b, p);
      }
      EqualEntriesEqualTrees(digest, a, b);
    }
    if Erase(digest, a) == Erase(digest, b) {
      EqualTreesEqualSnapshots(digest, a, b);
    }
  }

  lemma SameSnapshotSameEntry(digest: string -> string, a: Node, b: Node, p: Path)
    requires ValidNames(a) && ValidNames(b)
    requires exists s :: Describes(digest, a, s) && Describes(digest, b, s)
    ensures EntryAt(digest, a, p) == EntryAt(digest, b, p)
  {
    hide Key, PathOf;
    var s :| Describes(digest, a, s) && Describes(digest, b, s);
    if At(a, p).Some? {
      LocationsHaveValidPaths(a, p);
      KeyRoundTrip(p);
      assert EntryAt(digest, a, PathOf(Key(p))) == Some(s[Key(p)]);
    }
    if At(b, p).Some? {
      LocationsHaveValidPaths(b, p);
      KeyRoundTrip(p);
      assert EntryAt(digest, b, PathOf(Key(p))) == Some(s[Key(p)]);
    }
  }

  lemma EqualTreesEqualEntries(digest: string -> string, a: Node, b: Node, p: Path)
    requires Erase(digest, a) == Erase(digest, b)
    ensures EntryAt(digest, a, p) == EntryAt(digest, b, p) && (p in Paths(a) <==> p in Paths(b))
  {
    hide Paths, Erase;
    ErasedEntries(digest, a, p);
    ErasedEntries(digest, b, p);
    PathsAreLocations(a, p);
    PathsAreLocations(b, p);
  }

  lemma EqualTreesEqualSnapshots(digest: string -> string, a: Node, b: Node)
    requires Erase(digest, a) == Erase(digest, b)
    ensures SnapshotOf(digest, a) == SnapshotOf(digest, b)
  {
    hide Key, PathOf, Paths, Erase, At;
    forall p ensures EntryAt(digest, a, p) == EntryAt(digest, b, p) && (p in Paths(a) <==> p in Paths(b)) {
      EqualTreesEqualEntries(digest, a, b, p);
    }
    assert Paths(a) == Paths(b);
    var sa, sb := SnapshotOf(digest, a), SnapshotOf(digest, b);
    forall key | key in sa || key in sb ensures key in sa && key in sb && sa[key] == sb[key] {
      assert EntryAt(digest, a, PathOf(key)) == EntryAt(digest, b, PathOf(key));
    }
  }

  lemma SnapshotHasEntry(digest: string -> string, n: Node, p: Path)
    requires ValidNames(n) && p in Paths(n)
    ensures At(n, p).Some? && Key(p) in SnapshotOf(digest, n)
    ensures SnapshotOf(digest, n)[Key(p)] == EntryOf(digest, At(n, p).value)
  {
    PathsAreLocations(n, p);
    LocationsHaveValidPaths(n, p);
    KeyRoundTrip(p);
  }

  lemma SnapshotHasNothingElse(digest: string -> string, n: Node, key: string)
    requires key in SnapshotOf(digest, n)
    ensures exists p :: p in Paths(n) && Key(p) == key
  {
  }

  lemma RootIsDir(digest: string -> string, n: Node)
    requires n.Dir? && ValidNames(n)
    ensures Key([]) == "."
    ensures "." in SnapshotOf(digest, n) && SnapshotOf(digest, n)["."] == DirEntry
  {
    SnapshotHasEntry(digest, n, []);
  }

  /** Walks the tree and fills the dictionary, one location at a time, in any order. */
  method BuildSnapshot(digest: string -> string, root: Node) returns (out: Snapshot)
    requires ValidNames(root) && root.Dir?
    ensures out == SnapshotOf(digest, root)
  {
    hide SnapshotOf, Paths, Key, At;
    ghost var all := SnapshotOf(digest, root);
    RootIsDir(digest, root);
    out := map["." := DirEntry];
    var todo := Paths(root) - {[]};
    while todo != {}
      invariant todo <= Paths(root)
      invariant forall key :: key in out ==> key in all && out[key] == all[key]
      invariant forall p :: p in Paths(root) && p !in todo ==> Key(p) in out
      decreases todo
    {
      var p :| p in todo;
      SnapshotHasEntry(digest, root, p);
      out := out[Key(p) := EntryOf(digest, At(root, p).value)];
      todo := todo - {p};
    }
    forall key | key in all ensures key in out {
      SnapshotHasNothingElse(digest, root, key);
    }
  }

  /* ---------- counting what changed ---------- */

  function CreatedKeys(before: Snapshot, after: Snapshot): set<string> {
    set k | k in after && k !in before && k != "."
  }

  function DeletedKeys(before: Snapshot, after: Snapshot): set<string> {
    set k | k in before && k !in after && k != "."
  }

  function ModifiedKeys(before: Snapshot, after: Snapshot): set<string> {
    set k | k in after && k in before && k != "." && after[k] != before[k]
  }

  /** Both trees have a root, so that leaving it out changes no count. */
  lemma CountsMean(before: Snapshot, after: Snapshot)
    requires "." in before && "." in after && before["."] == after["."]
    ensures CreatedKeys(before, after) == set k | k in after && k !in before
    ensures DeletedKeys(before, after) == set k | k in before && k !in after
    ensures ModifiedKeys(before, after) == set k | k in after && k in before && after[k] != before[k]
  {
  }

  /** The reported counts balance, and are all zero exactly when nothing changed. */
  lemma CountsBalance(before: Snapshot, after: Snapshot)
    requires "." in before && "." in after && before["."] == after["."]
    ensures |after| == |before| + |CreatedKeys(before, after)| - |DeletedKeys(before, after)|
    ensures before == after
            <==> |CreatedKeys(before, after)| == |DeletedKeys(before, after)| == |ModifiedKeys(before, after)| == 0
  {
    var c, d, m := CreatedKeys(before, after), DeletedKeys(before, after), ModifiedKeys(before, after);
    var common := before.Keys * after.Keys;
    assert after.Keys == common + c && common !! c;
    assert before.Keys == common + d && common !! d;
    assert |after| == |after.Keys| && |before| == |before.Keys|;
    if |c| == |d| == |m| == 0 {
      assert c == {} && d == {} && m == {};
      forall k | k in after || k in before ensures k in after && k in before && before[k] == after[k] {
        assert k !in c && k !in d && k !in m;
      }
    }
  }

  /* ---------- links that leave the tree ---------- */

  /** The two directories that trees are checked in: a link is resolved against the one it is in. */
  datatype Root = Host | Stage

  /** Neither special files nor symlinks that leave the directory they are in. */
  predicate Clean(escapes: (Root, Node, Path) -> bool, root: Root, n: Node) {
    forall p :: p in Paths(n) ==>
      At(n, p).Some? && !At(n, p).value.Special? && (At(n, p).value.Symlink? ==> !escapes(root, n, p))
  }

  /** Clean means: nowhere a special file, and every link stays inside. */
  lemma {:induction false} CleanMeans(escapes: (Root, Node, Path) -> bool, root: Root, n: Node)
    ensures Clean(escapes, root, n)
            <==> NoSpecials(n)
                 && forall p :: At(n, p).Some? && At(n, p).value.Symlink? ==> !escapes(root, n, p)
  {
    forall p ensures p in Paths(n) <==> At(n, p).Some? {
      PathsAreLocations(n, p);
    }
    if NoSpecials(n) {
      forall p ensures At(n, p).Some? ==> !At(n, p).value.Special? {
        NoSpecialAt(n, p);
      }
    }
    if Clean(escapes, root, n) {
      NoSpecialsIn(n);
    }
  }

  lemma {:induction false} NoSpecialAt(n: Node, p: Path)
    requires NoSpecials(n)
    ensures At(n, p).Some? ==> !At(n, p).value.Special?
    decreases p
  {
    if p != [] && n.Dir? && p[0] in n.children {
      NoSpecialAt(n.children[p[0]], p[1..]);
    }
  }

  lemma {:induction false} NoSpecialsIn(n: Node)
    requires forall p :: At(n, p).Some? ==> !At(n, p).value.Special?
    ensures NoSpecials(n)
  {
    assert At(n, []) == Some(n);
    if n.Dir? {
      forall k | k in n.children ensures NoSpecials(n.children[k]) {
        forall q ensures At(n.children[k], q).Some? ==> !At(n.children[k], q).value.Special? {
          assert ([k] + q)[1..] == q;
          assert At(n, [k] + q) == At(n.children[k], q);
        }
        NoSpecialsIn(n.children[k]);
      }
    }
  }

  /** Where a relative path leads from a directory, links on the way aside. */
  function Walk(from: Path, steps: Path): Path
    decreases |steps|
  {
    if steps == [] then from
    else if steps[0] == ".." then Walk(if from == [] then [] else from[..|from| - 1], steps[1..])
    else if steps[0] == "." || steps[0] == "" then Walk(from, steps[1..])
    else Walk(from + [steps[0]], steps[1..])
  }

  /** The check on a link when the two directories are at the given places. */
  function EscapesFrom(host: Path, stage: Path): (Root, Node, Path) -> bool {
    (root: Root, n: Node, p: Path) =>
      var base := if root == Host then host else stage;
      var m := At(n, p);
      m.Some? && m.value.Symlink? && p != []
      && ((m.value.target != "" && m.value.target[0] == '/')
          || !(base <= Walk(base + p[..|p| - 1], Split(m.value.target))))
  }

  /** A tree with one link, to a file of the directory called `name` that holds the tree. */
  function LinkInto(name: string, link: string, file: string): Node {
    Dir(map[link := Symlink(Join(["..", name, file]))])
  }

  /** Such a tree is clean in the directory of that name, and not in any other: a commit then
      finds the staged tree in order and its own copy of it not. */
  lemma CleanOnlyWhereStaged(parent: Path, name: string, hostParent: Path, hostName: string, link: string, file: string)
    requires ValidName(name) && ValidName(hostName) && ValidName(file) && name != ".." && file != ".."
               && hostName != name
    ensures var escapes := EscapesFrom(hostParent + [hostName], parent + [name]);
            && Clean(escapes, Stage, LinkInto(name, link, file))
            && !Clean(escapes, Host, LinkInto(name, link, file))
  {
    var n := LinkInto(name, link, file);
    LinkLeads(parent, name, name, file);
    LinkLeads(hostParent, hostName, name, file);
    assert [link][..0] == [] && [link] != [];
    assert At(n, [link]) == Some(Symlink(Join(["..", name, file])));
    assert At(n, []) == Some(n);
    hide Walk, Split, Join, Paths, At;
    PathsOfLink(n, link);
  }

  /** From a directory `from` in `parent`, the link leads outside unless `from` is `name`. */
  lemma LinkLeads(parent: Path, from: string, name: string, file: string)
    requires ValidName(name) && ValidName(file) && name != ".." && file != ".."
    ensures var base, target := parent + [from], Join(["..", name, file]);
            && target != "" && target[0] != '/'
            && (base <= Walk(base + [], Split(target)) <==> from == name)
  {
    var base := parent + [from];
    SplitJoin(["..", name, file]);
    assert Join(["..", name, file])[0] == '.';
    hide Walk, Split, Join;
    WalkToSibling(parent, from, name, file);
    assert base + [] == base;
    assert base[|parent|] == from && (parent + [name, file])[|parent|] == name;
    if from == name {
      assert (parent + [name, file])[..|base|] == base;
    }
  }

  lemma WalkToSibling(parent: Path, from: string, name: string, file: string)
    requires ValidName(name) && ValidName(file) && name != ".." && file != ".."
    ensures Walk(parent + [from], ["..", name, file]) == parent + [name, file]
  {
    var steps := ["..", name, file];
    assert steps[1..] == [name, file] && steps[1..][1..] == [file] && steps[1..][1..][1..] == [];
    assert (parent + [from])[..|parent|] == parent;
    assert Walk(parent, [name, file]) == Walk(parent + [name], [file]);
    assert Walk(parent + [name], [file]) == Walk(parent + [name] + [file], []);
    assert parent + [name] + [file] == parent + [name, file];
  }

  lemma PathsOfLink(n: Node, link: string)
    requires n.Dir? && n.children.Keys == {link} && n.children[link].Symlink?
    ensures Paths(n) == {[], [link]}
  {
    assert Paths(n.children[link]) == {[]};
    assert [link] + [] == [link];
  }

  /* ---------- the transaction ---------- */

  /** What one file system step does: it completes; it completes, but what it was to write is
      `left` (a step that writes nothing simply completes); or it raises and leaves `residue` where
      it was working (nothing, or anything at all). */
  datatype Outcome = Done | Wrong(left: Node) | Failed(residue: Option<Node>)

  function Faults(steps: seq<Outcome>): nat {
    if steps == [] then 0 else (if steps[0].Done? then 0 else 1) + Faults(steps[1..])
  }

  /** No step goes wrong silently. */
  predicate Honest(steps: seq<Outcome>) {
    forall i :: 0 <= i < |steps| ==> !steps[i].Wrong?
  }

  /** Whatever is written has names that a file system allows. */
  predicate Named(steps: seq<Outcome>) {
    forall i :: 0 <= i < |steps| && steps[i].Wrong? ==> ValidNames(steps[i].left)
  }

  datatype Exit =
    | Committed(created: nat, modified: nat, deleted: nat)
    | InvalidTree
    | ConcurrentEdit
    | ReadFailed
    | BackupFailed
    | RolledBack
    | RollbackFailed

  datatype SnapshotResult = Taken(snapshot: Snapshot) | Rejected | Unreadable

  class Workspace {
    const digest: string -> string
    const escapes: (Root, Node, Path) -> bool
    var children: map<string, Node>
    /** What the coming file system steps will do; once used up, steps complete. */
    var steps: seq<Outcome>

    constructor (digest: string -> string, escapes: (Root, Node, Path) -> bool,
                 children: map<string, Node>, steps: seq<Outcome>)
      ensures this.digest == digest && this.escapes == escapes && this.children == children && this.steps == steps
    {
      this.digest, this.escapes, this.children, this.steps := digest, escapes, children, steps;
    }

    function Tree(): Node
      reads this
    {
      Dir(children)
    }

    method NextStep() returns (o: Outcome)
      requires Named(steps)
      modifies this`steps
      ensures Named(steps) && (o.Wrong? ==> ValidNames(o.left))
      ensures Honest(old(steps)) ==> Honest(steps) && !o.Wrong?
      ensures Faults(steps) == Faults(old(steps)) - (if o.Done? then 0 else 1)
    {
      if steps == [] {
        o := Done;
      } else {
        o := steps[0];
        steps := steps[1..];
      }
    }

    method TakeSnapshot(place: Root, root: Node) returns (r: SnapshotResult)
      requires root.Dir? && ValidNames(root) && Named(steps)
      modifies this`steps
      ensures Named(steps) && (Honest(old(steps)) ==> Honest(steps))
      ensures Faults(steps) <= Faults(old(steps)) - (if r.Unreadable? then 1 else 0)
      ensures r.Taken? ==> r.snapshot == SnapshotOf(digest, root) && Clean(escapes, place, root)
      ensures r.Rejected? ==> !Clean(escapes, place, root)
    {
      var step := NextStep();
      if step.Failed? {
        return Unreadable;
      }
      if !Clean(escapes, place, root) {
        return Rejected;
      }
      var out := BuildSnapshot(digest, root);
      return Taken(out);
    }

    /** Removes the children one by one; stops at the first that raises. */
    method ClearChildren() returns (ok: bool)
      requires Named(steps)
      modifies this
      ensures Named(steps) && (Honest(old(steps)) ==> Honest(steps))
      ensures Faults(steps) <= Faults(old(steps)) - (if ok then 0 else 1)
      ensures ok ==> children == map[]
    {
      var todo := children.Keys;
      while todo != {}
        invariant children.Keys == todo
        invariant Named(steps) && (Honest(old(steps)) ==> Honest(steps))
        invariant Faults(steps) <= Faults(old(steps))
        decreases todo
      {
        var name :| name in todo;
        var step := NextStep();
        children := children - {name};
        if step.Failed? {
          if step.residue.Some? {
            children := children[name := step.residue.value];
          }
          return false;
        }
        todo := todo - {name};
      }
      return true;
    }

    /** Copies the children of `src` into the emptied workspace; stops at the first that raises. */
    method CopyTreeContents(src: map<string, Node>) returns (ok: bool)
      requires children == map[] && ValidNames(Dir(src)) && Named(steps)
      modifies this
      ensures Named(steps) && (Honest(old(steps)) ==> Honest(steps))
      ensures Faults(steps) <= Faults(old(steps)) - (if ok then 0 else 1)
      ensures ok ==> ValidNames(Tree())
      ensures ok && (Honest(old(steps)) || Faults(steps) == Faults(old(steps))) ==> children == src
    {
      var todo := src.Keys;
      while todo != {}
        invariant todo <= src.Keys && children.Keys == src.Keys - todo
        invariant forall k :: k in children ==> ValidName(k) && ValidNames(children[k])
        invariant Named(steps) && (Honest(old(steps)) ==> Honest(steps))
        invariant Faults(steps) <= Faults(old(steps))
        invariant Honest(old(steps)) || Faults(steps) == Faults(old(steps)) ==>
                    forall k :: k in children ==> children[k] == src[k]
        decreases todo
      {
        var name :| name in todo;
        var step := NextStep();
        if step.Failed? {
          if step.residue.Some? {
            children := children[name := step.residue.value];
          }
          return false;
        }
        children := children[name := if step.Wrong? then step.left else src[name]];
        todo := todo - {name};
      }
      return true;
    }

    /** Clear, copy, and check against the wanted snapshot: what both the commit and the rollback
        do.  The check catches whatever went wrong silently. */
    method Replace(src: map<string, Node>, wanted: Snapshot) returns (ok: bool)
      requires ValidNames(Dir(src)) && Named(steps)
      modifies this
      ensures Named(steps) && (Honest(old(steps)) ==> Honest(steps))
      ensures ok ==> SnapshotOf(digest, Tree()) == wanted && Clean(escapes, Host, Tree())
      ensures ok && Honest(old(steps)) ==> children == src
      ensures Faults(steps) <= Faults(old(steps))
      ensures Faults(steps) == Faults(old(steps)) ==>
        (ok <==> Clean(escapes, Host, Dir(src)) && SnapshotOf(digest, Dir(src)) == wanted) && (ok ==> children == src)
    {
      hide Clean, SnapshotOf, ValidNames, Named, Honest;
      ok := ClearChildren();
      if !ok { return; }
      ok := CopyTreeContents(src);
      if !ok { return; }
      var s := TakeSnapshot(Host, Tree());
      ok := s.Taken? && s.snapshot == wanted;
    }

    /** Commits `staged` if the workspace still is what `expectedBefore` says it was. */
    method ReconcileWorkspace(staged: map<string, Node>, expectedBefore: Snapshot) returns (exit: Exit)
      requires ValidNames(Tree()) && ValidNames(Dir(staged)) && Named(steps)
      modifies this
      // All or nothing, whatever fails and wherever
      ensures exit.Committed? ==> SnapshotOf(digest, Tree()) == SnapshotOf(digest, Dir(staged))
      ensures !exit.Committed? && !exit.RollbackFailed? ==>
        children == old(children)
        || (exit.RolledBack? && SnapshotOf(digest, Tree()) == SnapshotOf(digest, old(Tree())))
      // Trees are restored and committed to the letter unless a step goes wrong silently
      ensures old(Honest(steps)) ==>
        && (!exit.Committed? && !exit.RollbackFailed? ==> children == old(children))
        && (exit.Committed? ==>
              children == staged || (children == old(children) && expectedBefore == SnapshotOf(digest, Dir(staged))))
      // A commit never overwrites a tree it did not expect
      ensures children != old(children) ==>
        SnapshotOf(digest, old(Tree())) == expectedBefore && Clean(escapes, Stage, Dir(staged))
      ensures exit.ConcurrentEdit? ==> SnapshotOf(digest, old(Tree())) != expectedBefore
      ensures exit.InvalidTree? ==> !Clean(escapes, Host, old(Tree())) || !Clean(escapes, Stage, Dir(staged))
      // The counts
      ensures exit.Committed? ==>
        var after := SnapshotOf(digest, Dir(staged));
        && exit.created == |set k | k in after && k !in expectedBefore|
        && exit.deleted == |set k | k in expectedBefore && k !in after|
        && exit.modified == |set k | k in after && k in expectedBefore && after[k] != expectedBefore[k]|
      // Without a faulty step the commit happens exactly when the trees are clean where they are,
      // the workspace is the expected one, and the staged tree is still clean on the host (or
      // is what is there already); otherwise nothing has changed
      ensures old(Faults(steps)) == 0 ==>
        && (exit.Committed? <==>
              && Clean(escapes, Host, old(Tree())) && Clean(escapes, Stage, Dir(staged))
              && SnapshotOf(digest, old(Tree())) == expectedBefore
              && (Clean(escapes, Host, Dir(staged)) || SnapshotOf(digest, Dir(staged)) == expectedBefore))
        && (exit.Committed? || children == old(children))
        && (exit.InvalidTree? <==> !Clean(escapes, Stage, Dir(staged)) || !Clean(escapes, Host, old(Tree())))
        && (exit.ConcurrentEdit? <==>
              && Clean(escapes, Stage, Dir(staged)) && Clean(escapes, Host, old(Tree()))
              && SnapshotOf(digest, old(Tree())) != expectedBefore)
        && !exit.ReadFailed? && !exit.BackupFailed? && !exit.RollbackFailed?
      // A rollback takes a fault of its own to fail, besides the reason for it
      ensures exit.RollbackFailed? ==>
        old(Faults(steps)) >= (if Clean(escapes, Host, Dir(staged)) then 2 else 1)
    {
      hide SnapshotOf, CreatedKeys, DeletedKeys, ModifiedKeys, ValidNames, Clean, Named, Honest;
      var step := NextStep();
      if step.Failed? { return ReadFailed; }
      if !Clean(escapes, Stage, Dir(staged)) { return InvalidTree; }

      var current := TakeSnapshot(Host, Tree());
      if current.Unreadable? { return ReadFailed; }
      if current.Rejected? { return InvalidTree; }
      if current.snapshot != expectedBefore { return ConcurrentEdit; }

      var after := TakeSnapshot(Stage, Dir(staged));
      if after.Unreadable? { return ReadFailed; }
      RootIsDir(digest, Tree());
      RootIsDir(digest, Dir(staged));
      CountsBalance(expectedBefore, after.snapshot);
      CountsMean(expectedBefore, after.snapshot);
      if after.snapshot == expectedBefore { return Committed(0, 0, 0); }

      step := NextStep();
      if step.Failed? { return BackupFailed; }
      var backup := if step.Wrong? then (if step.left.Dir? then step.left.children else map[]) else children;
      BackupNamed(children, step);

      var applied := Replace(staged, after.snapshot);
      if !applied {
        var restored := Replace(backup, expectedBefore);
        if !restored { return RollbackFailed; }
        return RolledBack;
      }
      return Committed(|CreatedKeys(expectedBefore, after.snapshot)|,
                       |ModifiedKeys(expectedBefore, after.snapshot)|,
                       |DeletedKeys(expectedBefore, after.snapshot)|);
    }
  }

  lemma BackupNamed(children: map<string, Node>, step: Outcome)
    requires ValidNames(Dir(children)) && (step.Wrong? ==> ValidNames(step.left))
    ensures ValidNames(Dir(if step.Wrong? then (if step.left.Dir? then step.left.children else map[]) else children))
  {
  }
}
