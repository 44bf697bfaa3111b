/** Staging directories on the host: what purging one does to the others, and in which order a
    list of recorded roots can be purged, interrupted and purged again. */
module HostTree {
  import opened Options

  type Path = seq<int>

  datatype Node = Dir(inode: int) | File

  type Tree = map<Path, Node>

  /** A recovery record. The zero inode stands for an identity that could not be captured. */
  datatype Root = Root(path: Path, inode: int)

  /** A directory is linked in one place only. */
  ghost predicate UniqueDirs(t: Tree) {
    forall p, q | p in t && q in t && t[p].Dir? && t[q] == t[p] :: p == q
  }

  predicate Below(top: Path, path: Path) {
    |top| < |path| && path[..|top|] == top
  }

  predicate Purged(t: Tree, top: Path) {
    forall p | p in t :: !Below(top, p)
  }

  /** Everything below `top` goes; `top` itself stays, empty. */
  function Purge(t: Tree, top: Path): Tree {
    map p | p in t && !Below(top, p) :: t[p]
  }

  /** A purge that was interrupted removed some of what is below `top`, and nothing else. */
  predicate Purging(t: Tree, after: Tree, top: Path) {
    && (forall p | p in after :: p in t && after[p] == t[p])
    && (forall p | p in t && !Below(top, p) :: p in after)
  }

  /** The record still denotes the directory it was taken from. */
  predicate Found(t: Tree, r: Root) {
    r.inode != 0 && r.path in t && t[r.path] == Dir(r.inode)
  }

  predicate AllFound(t: Tree, roots: seq<Root>) {
    forall i | 0 <= i < |roots| :: Found(t, roots[i])
  }

  /** No root lies below an earlier one. */
  predicate ChildFirst(roots: seq<Root>) {
    forall i, j | 0 <= i < j < |roots| :: !Below(roots[i].path, roots[j].path)
  }

  /** Purge the roots in order, stopping at the first that is missing or replaced. */
  function PurgeAll(t: Tree, roots: seq<Root>): Option<Tree> {
    if roots == [] then Some(t)
    else if !Found(t, roots[0]) then None
    else PurgeAll(Purge(t, roots[0].path), roots[1..])
  }

  /** An uninterrupted recovery succeeds exactly for child-first lists. */
  lemma {:induction false} PurgeAllNeedsChildFirst(t: Tree, roots: seq<Root>)
    requires AllFound(t, roots)
    ensures PurgeAll(t, roots).Some? <==> ChildFirst(roots)
  {
    if roots != [] {
      var rest, after := roots[1..], Purge(t, roots[0].path);
      forall i | 0 <= i < |rest|
        ensures Found(t, rest[i])
        ensures Found(after, rest[i]) <==> !Below(roots[0].path, rest[i].path)
      {
        assert rest[i] == roots[i + 1];
      }
      if forall i | 0 <= i < |rest| :: !Below(roots[0].path, rest[i].path) {
        PurgeAllNeedsChildFirst(after, rest);
        ChildFirstSplits(roots);
      } else {
        var i :| 0 <= i < |rest| && Below(roots[0].path, rest[i].path);
        assert rest[i] == roots[i + 1];
        MissingStops(after, rest, i);
      }
    }
  }

  lemma ChildFirstSplits(roots: seq<Root>)
    requires roots != []
    ensures ChildFirst(roots) <==>
            && ChildFirst(roots[1..])
            && forall i | 0 <= i < |roots[1..]| :: !Below(roots[0].path, roots[1..][i].path)
  {
    var rest := roots[1..];
    if ChildFirst(rest) && forall i | 0 <= i < |rest| :: !Below(roots[0].path, rest[i].path) {
      forall i, j | 0 <= i < j < |roots|
        ensures !Below(roots[i].path, roots[j].path)
      {
        assert roots[j] == rest[j - 1];
        if i > 0 { assert roots[i] == rest[i - 1]; }
      }
    }
    if ChildFirst(roots) {
      forall i, j | 0 <= i < j < |rest|
        ensures !Below(rest[i].path, rest[j].path)
      {
        assert rest[i] == roots[i + 1] && rest[j] == roots[j + 1];
      }
    }
  }

  lemma {:induction false} MissingStops(t: Tree, roots: seq<Root>, i: nat)
    requires i < |roots| && roots[i].path !in t
    ensures PurgeAll(t, roots) == None
  {
    if i > 0 && Found(t, roots[0]) {
      MissingStops(Purge(t, roots[0].path), roots[1..], i - 1);
    }
  }

  /** What recovery relies on: it can be interrupted anywhere and started over. */
  predicate Recoverable(t: Tree, roots: seq<Root>) {
    AllFound(t, roots) && ChildFirst(roots)
  }

  /** An interrupted purge of the first root, or a completed and recorded one, leaves a list that
      is still recoverable: no purge or re-purge ever finds a later root missing. */
  lemma InterruptedPurgeStaysRecoverable(t: Tree, after: Tree, roots: seq<Root>)
    requires roots != [] && Recoverable(t, roots) && Purging(t, after, roots[0].path)
    ensures Recoverable(after, roots) && Recoverable(after, roots[1..])
  {
    ChildFirstSplits(roots);
    forall i | 0 <= i < |roots|
      ensures Found(after, roots[i])
    {
      assert Found(t, roots[i]);
    }
    forall i | 0 <= i < |roots[1..]|
      ensures Found(after, roots[1..][i])
    {
      assert roots[1..][i] == roots[i + 1];
    }
  }

  /** Purging `top` takes none of these roots away. */
  predicate Spares(roots: seq<Root>, top: Path) {
    forall i | 0 <= i < |roots| :: !Below(top, roots[i].path)
  }

  lemma FirstRootIsSpared(roots: seq<Root>)
    requires roots != [] && ChildFirst(roots)
    ensures Spares(roots, roots[0].path)
  {
  }

  /** Another recoverable list survives a purge of `top`, completed or not, that spares it. Completed,
      a purge leaves it recoverable only if it spares it. */
  lemma PurgeSparesExactly(t: Tree, after: Tree, roots: seq<Root>, top: Path)
    requires Recoverable(t, roots) && Purging(t, after, top)
    ensures Spares(roots, top) ==> Recoverable(after, roots)
    ensures Purged(after, top) ==>
              (Recoverable(after, roots) <==> Spares(roots, top))
              && (PurgeAll(after, roots).Some? <==> Spares(roots, top))
  {
    if Spares(roots, top) {
      forall i | 0 <= i < |roots|
        ensures Found(after, roots[i])
      {
        assert Found(t, roots[i]);
      }
      PurgeAllNeedsChildFirst(after, roots);
    } else if Purged(after, top) {
      var i :| 0 <= i < |roots| && Below(top, roots[i].path);
      assert !Found(after, roots[i]);
      MissingStops(after, roots, i);
    }
  }

  /** A record that was written but not synced: the first root is done, and only the visible list says
      so. Purging the next root keeps the visible list recoverable and takes the first root of the
      durable one away, so that recovery is blocked after a power failure. */
  lemma UnsyncedRecordBlocksRecovery()
    ensures var t: Tree := map[[1] := Dir(1), [1, 2] := Dir(2)];
            var durable := [Root([1, 2], 2), Root([1], 1)];
            var visible := durable[1..];
            && Recoverable(t, durable) && Recoverable(t, visible)
            && Recoverable(Purge(t, [1]), visible) && PurgeAll(Purge(t, [1]), durable) == None
  {
    var t: Tree := map[[1] := Dir(1), [1, 2] := Dir(2)];
    var durable := [Root([1, 2], 2), Root([1], 1)];
    FirstRootIsSpared(durable[1..]);
    PurgeSparesExactly(t, Purge(t, [1]), durable[1..], [1]);
    assert Below([1], durable[0].path);
    PurgeSparesExactly(t, Purge(t, [1]), durable, [1]);
  }

  lemma BelowIsTransitive(a: Path, b: Path, c: Path)
    requires a == b || Below(a, b)
    requires Below(b, c)
    ensures Below(a, c)
  {
    if a != b {
      assert c[..|a|] == c[..|b|][..|a|];
    }
  }

  lemma PurgedBelow(t: Tree, top: Path, path: Path)
    requires Purged(t, top) && (path == top || Below(top, path))
    ensures Purged(t, path)
  {
    forall p | p in t && Below(path, p)
      ensures false
    {
      BelowIsTransitive(top, path, p);
    }
  }

  /** A completed purge leaves every other directory in place, or has emptied it as well. */
  lemma PurgeLeavesOrEmpties(t: Tree, after: Tree, top: Path, r: Root)
    requires Purging(t, after, top) && Purged(after, top)
    requires Found(t, r) || Purged(t, r.path)
    ensures Found(after, r) || Purged(after, r.path)
  {
    if Below(top, r.path) {
      PurgedBelow(after, top, r.path);
    }
  }

  /** Where the directory is linked, if it still is. */
  ghost function LinkOf(t: Tree, inode: int): (at: Option<Path>)
    ensures at.Some? ==> at.value in t && t[at.value] == Dir(inode)
    ensures at.None? ==> forall p | p in t :: t[p] != Dir(inode)
  {
    if exists p | p in t :: t[p] == Dir(inode) then
      var p :| p in t && t[p] == Dir(inode);
      Some(p)
    else None
  }

  /** An open directory: `at` is where it is linked, if it still is. */
  datatype Handle = Handle(inode: int, at: Option<Path>)

  /** The recovery list for the staging root, which was opened at `origin`, the workspace and the
      package directory: before a launch every linked one, children first; afterwards the root
      and those it does not cover. */
  function RecordedRoots(origin: Path, root: Option<Handle>, workspace: Option<Handle>,
                         package: Option<Handle>, beforeLaunch: bool): seq<Root> {
    if beforeLaunch then
      Record(package, None) + Record(workspace, None) + Record(root, None)
    else
      var covered := Covering(origin, root);
      Record(root, None) + Record(workspace, covered) + Record(package, covered)
  }

  /** The directory that owns whatever lies inside it, without a record of its own. */
  function Covering(origin: Path, root: Option<Handle>): Option<Path> {
    if root.None? then None
    else if root.value.at.None? then Some(origin)
    else root.value.at
  }

  /** The record of a handle, unless the directory `covered` already owns it. */
  function Record(h: Option<Handle>, covered: Option<Path>): seq<Root> {
    if h.None? || h.value.at.None? then []
    else if covered.Some? && (h.value.at.value == covered.value || Below(covered.value, h.value.at.value)) then []
    else [Root(h.value.at.value, h.value.inode)]
  }

  lemma NothingRecorded(origin: Path, beforeLaunch: bool)
    ensures RecordedRoots(origin, None, None, None, beforeLaunch) == []
  {
  }

  /** The list grows by one record for each directory that is captured. */
  lemma OneMoreRecord(origin: Path, found: seq<Option<Handle>>, i: nat, h: Option<Handle>, beforeLaunch: bool)
    requires |found| == 3 && i < 3 && forall k | i <= k < 3 :: found[k] == None
    ensures
      var roots := RecordedRoots(origin, found[0], found[1], found[2], beforeLaunch);
      var more := found[i := h];
      var record := Record(h, if beforeLaunch || i == 0 then None else Covering(origin, found[0]));
      RecordedRoots(origin, more[0], more[1], more[2], beforeLaunch)
      == if beforeLaunch && i > 0 then record + roots else roots + record
  {
  }

  /** Every record denotes one of the open directories. */
  lemma RecordsDenoteHandles(origin: Path, root: Option<Handle>, workspace: Option<Handle>,
                             package: Option<Handle>, beforeLaunch: bool, r: Root)
    requires r in RecordedRoots(origin, root, workspace, package, beforeLaunch)
    ensures Some(Handle(r.inode, Some(r.path))) in {root, workspace, package}
  {
    hide Record, Covering;
    var covered := if beforeLaunch then None else Covering(origin, root);
    RecordDenotes(root, None, r);
    RecordDenotes(workspace, covered, r);
    RecordDenotes(package, covered, r);
  }

  lemma RecordDenotes(h: Option<Handle>, covered: Option<Path>, r: Root)
    ensures r in Record(h, covered) ==> h == Some(Handle(r.inode, Some(r.path)))
  {
  }

  /** The layout the agent creates: workspace and package side by side below the root. */
  predicate PrelaunchLayout(t: Tree, root: Handle, workspace: Handle, package: Option<Handle>) {
    && root.at.Some? && workspace.at.Some?
    && Found(t, Root(root.at.value, root.inode))
    && Found(t, Root(workspace.at.value, workspace.inode))
    && Below(root.at.value, workspace.at.value)
    && (package.Some? ==>
          && package.value.at.Some?
          && Found(t, Root(package.value.at.value, package.value.inode))
          && Below(root.at.value, package.value.at.value)
          && !Below(workspace.at.value, package.value.at.value)
          && !Below(package.value.at.value, workspace.at.value))
  }

  lemma PrelaunchRootsAreRecoverable(t: Tree, root: Handle, workspace: Handle, package: Option<Handle>)
    requires PrelaunchLayout(t, root, workspace, package)
    ensures Recoverable(t, RecordedRoots(root.at.value, Some(root), Some(workspace), package, true))
  {
  }

  /** After a launch the order is not safe in general: a script may move the workspace out of the
      root and the package into the workspace. */
  lemma MovedRootsMayBlockRecovery()
    ensures var root := Handle(1, Some([1]));
            var workspace, package := Handle(2, Some([2])), Handle(3, Some([2, 3]));
            var t: Tree := map[[1] := Dir(1), [2] := Dir(2), [2, 3] := Dir(3)];
            var roots := RecordedRoots([1], Some(root), Some(workspace), Some(package), false);
            AllFound(t, roots) && PurgeAll(t, roots) == None
  {
    var t: Tree := map[[1] := Dir(1), [2] := Dir(2), [2, 3] := Dir(3)];
    var roots := [Root([1], 1), Root([2], 2), Root([2, 3], 3)];
    assert RecordedRoots([1], Some(Handle(1, Some([1]))), Some(Handle(2, Some([2]))), Some(Handle(3, Some([2, 3]))), false) == roots;
    PurgeAllNeedsChildFirst(t, roots);
    assert Below(roots[1].path, roots[2].path);
  }
}
