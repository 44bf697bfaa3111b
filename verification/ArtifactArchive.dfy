/** The package ZIP: validation entry by entry, and extraction. Its validator keeps other books than
    the staging TAR's, and both accept the same trees. */
module ArtifactArchive {
  import opened Options
  import opened ArchiveTree
  import StagingArchive

  datatype Attribute = RegularFile | DirectoryBit | SpecialBit

  /** An entry as the central directory declares it, and the bytes its stream really has. */
  datatype ZipEntry = ZipEntry(name: string, attribute: Attribute, declared: nat, data: Bytes)

  datatype Policy = Policy(files: int, nodes: int, extractedBytes: int)

  datatype NodeKind = ImplicitDirectory | ExplicitDirectory | RegularNode

  /** A trailing slash makes an entry a directory whatever its attributes say. */
  function Mode(e: ZipEntry): Attribute {
    if |e.name| > 0 && e.name[|e.name| - 1] == '/' then DirectoryBit else e.attribute
  }

  /** `zipEntryName`. */
  function EntryName(raw: string): Option<string> {
    var name := StagingArchive.TrimmedSuffix(raw);
    if |name| > 4000 || LongestElement(name) > MAX_ELEMENT_BYTES then None
    else if name == "." || !ValidPath(name) || '\\' in name || ':' in name || '\0' in name then None
    else Some(name)
  }

  predicate ValidEntry(e: ZipEntry) {
    EntryName(e.name).Some? && Mode(e) != SpecialBit
  }

  function EntryOf(e: ZipEntry): Entry {
    Entry(StagingArchive.TrimmedSuffix(e.name), Mode(e) == DirectoryBit, e.data)
  }

  function Entries(zs: seq<ZipEntry>): seq<Entry> {
    seq(|zs|, i requires 0 <= i < |zs| => EntryOf(zs[i]))
  }

  /** The bytes that extraction writes. */
  function Payload(zs: seq<ZipEntry>): nat {
    if zs == [] then 0
    else Payload(zs[..|zs| - 1]) + if Mode(zs[|zs| - 1]) == DirectoryBit then 0 else |zs[|zs| - 1].data|
  }

  /** The stream of a file is as long as declared, and fits what is left of the budget. */
  predicate FitsBudget(e: ZipEntry, remaining: int) {
    e.declared <= remaining && (Mode(e) != DirectoryBit ==> |e.data| == e.declared)
  }

  predicate BudgetKept(zs: seq<ZipEntry>, budget: int) {
    if zs == [] then true
    else
      var init := zs[..|zs| - 1];
      BudgetKept(init, budget) && FitsBudget(zs[|zs| - 1], budget - Payload(init))
  }

  ghost predicate Acceptable(zs: seq<ZipEntry>, policy: Policy) {
    && (forall e | e in zs :: ValidEntry(e))
    && IsTree(Entries(zs), policy.nodes)
    && BudgetKept(zs, policy.extractedBytes)
  }

  ghost predicate Admits(zs: seq<ZipEntry>, e: ZipEntry, policy: Policy) {
    && ValidEntry(e) && FitsBudget(e, policy.extractedBytes - Payload(zs))
    && Fits(Entries(zs), EntryOf(e), policy.nodes)
  }

  lemma EntriesGrow(zs: seq<ZipEntry>, e: ZipEntry)
    ensures Entries(zs + [e]) == Entries(zs) + [EntryOf(e)]
    ensures Payload(zs + [e]) == Payload(zs) + if Mode(e) == DirectoryBit then 0 else |e.data|
    ensures forall budget :: BudgetKept(zs + [e], budget) <==>
                             BudgetKept(zs, budget) && FitsBudget(e, budget - Payload(zs))
  {
    assert (zs + [e])[..|zs|] == zs;
  }

  lemma AcceptOneMore(zs: seq<ZipEntry>, e: ZipEntry, policy: Policy)
    ensures Acceptable(zs + [e], policy) <==> Acceptable(zs, policy) && Admits(zs, e, policy)
  {
    hide IsTree, Fits, Entries, ValidEntry, FitsBudget;
    EntriesGrow(zs, e);
    IncrementalCheck(Entries(zs), EntryOf(e), policy.nodes);
    if Acceptable(zs + [e], policy) {
      assert e in zs + [e];
      assert forall x | x in zs :: x in zs + [e];
    }
  }

  lemma {:induction false} RefusedStaysRefused(zs: seq<ZipEntry>, k: nat, policy: Policy)
    requires k <= |zs| && !Acceptable(zs[..k], policy)
    ensures !Acceptable(zs, policy)
    decreases |zs| - k
  {
    hide Acceptable, Admits;
    if k == |zs| {
      assert zs[..k] == zs;
    } else {
      assert zs[..k + 1] == zs[..k] + [zs[k]];
      AcceptOneMore(zs[..k], zs[k], policy);
      RefusedStaysRefused(zs, k + 1, policy);
    }
  }

  lemma {:induction false} WithinBudget(zs: seq<ZipEntry>, budget: int)
    requires budget >= 0 && BudgetKept(zs, budget)
    ensures Payload(zs) <= budget
  {
    if zs != [] {
      WithinBudget(zs[..|zs| - 1], budget);
    }
  }

  /** The validator's map: every node so far, and how it came to be known. */
  ghost predicate Tracks(kinds: map<string, NodeKind>, es: seq<Entry>) {
    && kinds.Keys == Closure(es)
    && (forall n | n in kinds :: kinds[n] == RegularNode <==> n in Files(es))
    && (forall n | n in kinds :: kinds[n] == ImplicitDirectory <==> n !in Names(es))
  }

  /** `validateZIPEntry`: check one more entry and every directory above it. */
  method ValidateZIPEntry(z: ZipEntry, kinds: map<string, NodeKind>, maxNodes: int, ghost es: seq<Entry>)
    returns (ok: bool, now: map<string, NodeKind>)
    requires Tracks(kinds, es)
    ensures ok <==> ValidEntry(z) && Fits(es, EntryOf(z), maxNodes)
    ensures ok ==> Tracks(now, es + [EntryOf(z)])
  {
    hide Tracks, Fits, ValidPath, LongestElement;
    var name := EntryName(z.name);
    if name.None? || Mode(z) == SpecialBit {
      return false, kinds;
    }
    ok, now := RegisterNode(EntryOf(z), kinds, maxNodes, es);
  }

  method RegisterNode(e: Entry, kinds: map<string, NodeKind>, maxNodes: int, ghost es: seq<Entry>)
    returns (ok: bool, now: map<string, NodeKind>)
    requires Tracks(kinds, es) && ValidPath(e.name)
    ensures ok <==> Fits(es, e, maxNodes)
    ensures ok ==> Tracks(now, es + [e])
  {
    hide Names, Files, Above, Closure, Ancestors, ValidPath;
    NodesOf(es);
    OneMoreNode(es, e);
    OneMoreName(es, e);
    NotItsOwnAncestor(e.name);
    if e.name in kinds && (kinds[e.name] != ImplicitDirectory || !e.dir) {
      return false, kinds;
    }
    now := kinds[e.name := if e.dir then ExplicitDirectory else RegularNode];
    ghost var all := Closure(es + [e]);
    if |now| > maxNodes {
      Smaller(now.Keys, all);
      return false, now;
    }
    ok, now := RegisterParents(e.name, now, maxNodes, Files(es + [e]), all);
  }

  lemma OneMoreName(es: seq<Entry>, e: Entry)
    ensures forall n :: n in Names(es + [e]) <==> n in Names(es) || n == e.name
  {
    OneMoreEntry(es, e);
  }

  /** Enter the directories above a node; those that are known stay as they are. */
  method RegisterParents(name: string, kinds: map<string, NodeKind>, maxNodes: int,
                         ghost files: set<string>, ghost all: set<string>)
    returns (ok: bool, now: map<string, NodeKind>)
    requires ValidPath(name) && files <= kinds.Keys && |kinds| <= maxNodes
    requires forall n :: n in all <==> n in kinds || n in Ancestors(name)
    requires forall n | n in kinds :: kinds[n] == RegularNode <==> n in files
    ensures ok <==> Ancestors(name) !! files && |all| <= maxNodes
    ensures ok ==> now.Keys == all
    ensures ok ==> forall n | n in now :: now[n] == if n in kinds then kinds[n] else ImplicitDirectory
  {
    hide ValidPath, ValidElements, Ancestors, LastSlash, Dir;
    now := kinds;
    var parent := Dir(name);
    FirstStep(name);
    ghost var done: set<string> := {};
    while parent != "."
      invariant forall n :: n in Ancestors(name) <==>
                            n in done || (parent != "." && (n == parent || n in Ancestors(parent)))
      invariant forall n :: n in now <==> n in kinds || n in done
      invariant forall n | n in done :: n !in files
      invariant forall n | n in now :: now[n] == if n in kinds then kinds[n] else ImplicitDirectory
      invariant |now| <= maxNodes
      decreases if parent == "." then 0 else |parent|
    {
      StagingArchive.AncestorStep(name, parent);
      if parent in now {
        if now[parent] == RegularNode {
          return false, now;
        }
      } else {
        now := now[parent := ImplicitDirectory];
      }
      done := done + {parent};
      if |now| > maxNodes {
        Smaller(now.Keys, all);
        return false, now;
      }
      parent := Dir(parent);
    }
    assert now.Keys == all;
    ok := true;
  }

  /** `processZIP`: validate, and given a destination, extract. The total never exceeds the budget,
      so the unsigned comparison never wraps around. */
  method ProcessZIP(zs: seq<ZipEntry>, root: Destination?, policy: Policy) returns (ok: bool)
    requires policy.extractedBytes >= 0 && policy.nodes >= 0
    requires root != null ==> root.files == map[]
    modifies if root == null then {} else {root}
    ensures ok <==> 0 < |zs| <= policy.files && Acceptable(zs, policy)
    ensures ok && root != null ==> root.files == TreeOf(Entries(zs))
  {
    hide Acceptable, TreeOf, Tracks, Closure, Files, Names, Above, BudgetKept, Admits, ValidEntry, FitsBudget, Entries, EntryOf;
    if |zs| == 0 || |zs| > policy.files {
      return false;
    }
    var kinds: map<string, NodeKind>, total := map[], 0;
    NothingYet(policy);
    for i := 0 to |zs|
      invariant Acceptable(zs[..i], policy) && Tracks(kinds, Entries(zs[..i]))
      invariant total == Payload(zs[..i]) <= policy.extractedBytes
      invariant root != null ==> root.files == TreeOf(Entries(zs[..i]))
    {
      ghost var before := zs[..i];
      assert zs[..i + 1] == before + [zs[i]];
      AcceptOneMore(before, zs[i], policy);
      EntriesGrow(before, zs[i]);
      EntryAdmitted(before, zs[i], policy);
      ok, kinds := ValidateZIPEntry(zs[i], kinds, policy.nodes, Entries(before));
      if !ok {
        RefusedStaysRefused(zs, i + 1, policy);
        return;
      }
      assert policy.extractedBytes - total >= 0;
      if zs[i].declared > policy.extractedBytes - total {
        RefusedStaysRefused(zs, i + 1, policy);
        return false;
      }
      var count;
      ok, count := ProcessEntry(zs[i], root, policy.extractedBytes - total, before, policy);
      if !ok {
        RefusedStaysRefused(zs, i + 1, policy);
        return;
      }
      total := total + count;
      AcceptedTotal(zs[..i + 1], policy);
    }
    assert zs[..|zs|] == zs;
    ok := true;
  }

  /** Restore one entry. A file is read up to its budget; its stream must be as long as declared. */
  method ProcessEntry(z: ZipEntry, root: Destination?, remaining: int, ghost before: seq<ZipEntry>, ghost policy: Policy)
    returns (ok: bool, size: int)
    requires ValidEntry(z) && Fits(Entries(before), EntryOf(z), policy.nodes) && Acceptable(before, policy)
    requires z.declared <= remaining
    requires root != null ==> root.files == TreeOf(Entries(before))
    modifies if root == null then {} else {root}
    ensures ok <==> FitsBudget(z, remaining)
    ensures ok ==> size == if Mode(z) == DirectoryBit then 0 else |z.data|
    ensures ok && root != null ==> root.files == TreeOf(Entries(before + [z]))
  {
    hide TreeOf, Acceptable, Fits, Ancestors, IsTree, ValidPath;
    size := if Mode(z) == DirectoryBit then 0 else |z.data|;
    ok := Mode(z) == DirectoryBit || (|z.data| == z.declared && size <= remaining);
    if root != null && ok {
      RestorePossible(before, z, policy);
      ok := root.Restore(EntryOf(z));
    }
  }

  lemma NothingYet(policy: Policy)
    requires policy.nodes >= 0
    ensures Acceptable([], policy) && Tracks(map[], Entries([])) && TreeOf(Entries([])) == map[]
  {
    assert Closure(Entries([])) == {};
  }

  lemma EntryAdmitted(zs: seq<ZipEntry>, e: ZipEntry, policy: Policy)
    ensures Admits(zs, e, policy) <==>
            && ValidEntry(e) && Fits(Entries(zs), EntryOf(e), policy.nodes)
            && e.declared <= policy.extractedBytes - Payload(zs)
            && FitsBudget(e, policy.extractedBytes - Payload(zs))
  {
    hide Fits, ValidEntry, Entries, Payload, Mode, EntryOf;
  }

  lemma AcceptedTotal(zs: seq<ZipEntry>, policy: Policy)
    requires Acceptable(zs, policy) && policy.extractedBytes >= 0
    ensures Payload(zs) <= policy.extractedBytes
  {
    WithinBudget(zs, policy.extractedBytes);
  }

  lemma RestorePossible(zs: seq<ZipEntry>, z: ZipEntry, policy: Policy)
    requires Acceptable(zs, policy) && ValidEntry(z) && Fits(Entries(zs), EntryOf(z), policy.nodes)
    ensures var es, e := Entries(zs), EntryOf(z);
            && ValidPath(e.name) && e.name != "." && Linkable(e.name)
            && (forall p | p in Ancestors(e.name) && p in TreeOf(es) :: TreeOf(es)[p] == Directory)
            && (e.name in TreeOf(es) ==> e.dir && TreeOf(es)[e.name] == Directory)
            && TreeOf(Entries(zs + [z])) ==
               WithDirectories(TreeOf(es), Ancestors(e.name))[e.name := if e.dir then Directory else File(e.data)]
  {
    hide IsTree, Fits, TreeOf, Ancestors, Payload, Entries, BudgetKept;
    EntriesGrow(zs, z);
    IncrementalCheck(Entries(zs), EntryOf(z), policy.nodes);
    TreeGrows(Entries(zs), EntryOf(z), policy.nodes);
  }

  /** Directories declare no bytes, and files as many as their stream has. */
  predicate Truthful(zs: seq<ZipEntry>) {
    forall e | e in zs :: e.declared == if Mode(e) == DirectoryBit then 0 else |e.data|
  }

  lemma {:induction false} TruthfulBudget(zs: seq<ZipEntry>, budget: int)
    requires Truthful(zs) && budget >= 0
    ensures BudgetKept(zs, budget) <==> Payload(zs) <= budget
  {
    if zs != [] {
      var init, e := zs[..|zs| - 1], zs[|zs| - 1];
      assert forall x | x in init :: x in zs;
      TruthfulBudget(init, budget);
    }
  }

  lemma {:induction false} PermutedPayload(zs: seq<ZipEntry>, ys: seq<ZipEntry>)
    requires multiset(zs) == multiset(ys)
    ensures Payload(zs) == Payload(ys) && multiset(Entries(zs)) == multiset(Entries(ys))
    decreases |zs|
  {
    hide Payload, Entries;
    if zs == [] {
      assert |multiset(ys)| == 0;
    } else {
      var k := StagingArchive.TakeOut(zs, ys);
      var init, z, a, b := zs[..|zs| - 1], [zs[|zs| - 1]], ys[..k], ys[k + 1..];
      PermutedPayload(init, a + b);
      assert zs == init + z && ys == a + z + b;
      Concatenated(init, z);
      Concatenated(a, b);
      Concatenated(a, z);
      Concatenated(a + z, b);
    }
  }

  lemma {:induction false} Concatenated(a: seq<ZipEntry>, b: seq<ZipEntry>)
    ensures Payload(a + b) == Payload(a) + Payload(b)
    ensures Entries(a + b) == Entries(a) + Entries(b)
    decreases |b|
  {
    if b == [] {
      assert a + b == a;
    } else {
      var init := b[..|b| - 1];
      assert a + b == a + init + [b[|b| - 1]];
      Concatenated(a, init);
      EntriesGrow(a + init, b[|b| - 1]);
    }
  }

  /** What every order of an accepted archive has in common: valid entries that form a tree, files
      as long as declared, and a payload within the budget. */
  ghost predicate Sound(zs: seq<ZipEntry>, policy: Policy) {
    && (forall e | e in zs :: ValidEntry(e))
    && IsTree(Entries(zs), policy.nodes)
    && HonestFiles(zs) && Payload(zs) <= policy.extractedBytes
  }

  /** No directory claims more than `room`. */
  predicate DirectoriesFit(zs: seq<ZipEntry>, room: int) {
    forall e | e in zs && Mode(e) == DirectoryBit :: e.declared <= room
  }

  predicate HonestFiles(zs: seq<ZipEntry>) {
    forall e | e in zs && Mode(e) != DirectoryBit :: |e.data| == e.declared
  }

  lemma {:induction false} RoomForAll(zs: seq<ZipEntry>, budget: int)
    requires HonestFiles(zs) && Payload(zs) <= budget && DirectoriesFit(zs, budget - Payload(zs))
    ensures BudgetKept(zs, budget)
  {
    if zs != [] {
      var init, e := zs[..|zs| - 1], zs[|zs| - 1];
      assert e in zs && forall x | x in init :: x in zs;
      RoomForAll(init, budget);
    }
  }

  lemma {:induction false} KeptBudget(zs: seq<ZipEntry>, budget: int)
    requires budget >= 0 && BudgetKept(zs, budget)
    ensures HonestFiles(zs) && Payload(zs) <= budget && DirectoriesFit(zs, budget)
  {
    if zs != [] {
      var init, e := zs[..|zs| - 1], zs[|zs| - 1];
      assert zs == init + [e];
      KeptBudget(init, budget);
    }
  }

  lemma SameEntries(zs: seq<ZipEntry>, ys: seq<ZipEntry>, policy: Policy)
    requires multiset(zs) == multiset(ys)
    ensures Sound(zs, policy) <==> Sound(ys, policy)
    ensures Payload(zs) == Payload(ys) && forall e :: e in zs <==> e in ys
  {
    hide IsTree, ValidEntry, Payload, Entries;
    forall e
      ensures e in zs <==> e in ys
    {
      assert e in zs <==> e in multiset(zs);
      assert e in ys <==> e in multiset(ys);
    }
    PermutedPayload(zs, ys);
    TreesAreUnordered(Entries(zs), Entries(ys), policy.nodes);
  }

  /** Every order is accepted exactly if no directory claims more than the files leave. */
  lemma AcceptedInEveryOrder(zs: seq<ZipEntry>, policy: Policy)
    requires policy.extractedBytes >= 0
    ensures (forall ys | multiset(ys) == multiset(zs) :: Acceptable(ys, policy)) <==>
            Sound(zs, policy) && DirectoriesFit(zs, policy.extractedBytes - Payload(zs))
  {
    hide IsTree, ValidEntry, Payload, Entries, BudgetKept, Mode;
    if Sound(zs, policy) && DirectoriesFit(zs, policy.extractedBytes - Payload(zs)) {
      forall ys | multiset(ys) == multiset(zs)
        ensures Acceptable(ys, policy)
      {
        SameEntries(zs, ys, policy);
        RoomForAll(ys, policy.extractedBytes);
      }
    } else if forall ys | multiset(ys) == multiset(zs) :: Acceptable(ys, policy) {
      assert Acceptable(zs, policy);
      KeptBudget(zs, policy.extractedBytes);
      var e :| e in zs && Mode(e) == DirectoryBit && e.declared > policy.extractedBytes - Payload(zs);
      LastOfAll(zs, e, policy);
      assert false;
    }
  }

  /** Placed last, a directory that claims more than the files leave is refused. */
  lemma LastOfAll(zs: seq<ZipEntry>, e: ZipEntry, policy: Policy)
    requires e in zs && Mode(e) == DirectoryBit && e.declared > policy.extractedBytes - Payload(zs)
    ensures exists ys :: multiset(ys) == multiset(zs) && !Acceptable(ys, policy)
  {
    hide Acceptable, Payload, Mode;
    var rest := Without(zs, e);
    PermutedPayload(rest + [e], zs);
    RefusedLast(rest, e, policy);
  }

  lemma RefusedLast(rest: seq<ZipEntry>, e: ZipEntry, policy: Policy)
    requires Mode(e) == DirectoryBit && e.declared > policy.extractedBytes - Payload(rest + [e])
    ensures !Acceptable(rest + [e], policy)
  {
    hide IsTree, ValidEntry, Entries, Payload, Mode;
    EntriesGrow(rest, e);
  }

  lemma Without(zs: seq<ZipEntry>, e: ZipEntry) returns (rest: seq<ZipEntry>)
    requires e in zs
    ensures multiset(rest + [e]) == multiset(zs)
  {
    var k :| 0 <= k < |zs| && zs[k] == e;
    rest := zs[..k] + zs[k + 1..];
    assert zs == zs[..k] + [e] + zs[k + 1..];
  }

  function Directories(zs: seq<ZipEntry>): seq<ZipEntry> {
    if zs == [] then []
    else Directories(zs[..|zs| - 1]) + if Mode(zs[|zs| - 1]) == DirectoryBit then [zs[|zs| - 1]] else []
  }

  function RegularFiles(zs: seq<ZipEntry>): seq<ZipEntry> {
    if zs == [] then []
    else RegularFiles(zs[..|zs| - 1]) + if Mode(zs[|zs| - 1]) == DirectoryBit then [] else [zs[|zs| - 1]]
  }

  lemma {:induction false} Sorted(zs: seq<ZipEntry>)
    ensures multiset(Directories(zs) + RegularFiles(zs)) == multiset(zs)
    ensures forall e | e in Directories(zs) :: e in zs && Mode(e) == DirectoryBit
    ensures forall e | e in RegularFiles(zs) :: e in zs && Mode(e) != DirectoryBit
  {
    if zs != [] {
      Sorted(zs[..|zs| - 1]);
      assert zs == zs[..|zs| - 1] + [zs[|zs| - 1]];
    }
  }

  lemma {:induction false} DirectoriesFirst(ds: seq<ZipEntry>, fs: seq<ZipEntry>, budget: int)
    requires forall e | e in ds :: Mode(e) == DirectoryBit && e.declared <= budget
    requires forall e | e in fs :: Mode(e) != DirectoryBit && |e.data| == e.declared
    requires Payload(ds + fs) <= budget
    ensures BudgetKept(ds + fs, budget)
    decreases |ds| + |fs|
  {
    if fs == [] {
      assert ds + fs == ds;
      if ds != [] {
        var init, d := ds[..|ds| - 1], ds[|ds| - 1];
        assert ds == init + [d] && init + [] == init;
        EntriesGrow(init, d);
        NoPayload(init);
        DirectoriesFirst(init, [], budget);
      }
    } else {
      var init, f := fs[..|fs| - 1], fs[|fs| - 1];
      assert ds + fs == ds + init + [f];
      EntriesGrow(ds + init, f);
      DirectoriesFirst(ds, init, budget);
    }
  }

  lemma {:induction false} NoPayload(ds: seq<ZipEntry>)
    requires forall e | e in ds :: Mode(e) == DirectoryBit
    ensures Payload(ds) == 0
  {
    if ds != [] {
      NoPayload(ds[..|ds| - 1]);
    }
  }

  /** Some order is accepted exactly if no directory claims more than the whole budget. */
  lemma AcceptedInSomeOrder(zs: seq<ZipEntry>, policy: Policy)
    requires policy.extractedBytes >= 0
    ensures (exists ys :: multiset(ys) == multiset(zs) && Acceptable(ys, policy)) <==>
            Sound(zs, policy) && DirectoriesFit(zs, policy.extractedBytes)
  {
    hide IsTree, ValidEntry, Payload, Entries, BudgetKept, Mode;
    if exists ys :: multiset(ys) == multiset(zs) && Acceptable(ys, policy) {
      var ys :| multiset(ys) == multiset(zs) && Acceptable(ys, policy);
      KeptBudget(ys, policy.extractedBytes);
      SameEntries(zs, ys, policy);
    }
    if Sound(zs, policy) && DirectoriesFit(zs, policy.extractedBytes) {
      var ys := Directories(zs) + RegularFiles(zs);
      Sorted(zs);
      SameEntries(zs, ys, policy);
      DirectoriesFirst(Directories(zs), RegularFiles(zs), policy.extractedBytes);
      assert Acceptable(ys, policy);
    }
  }

  /** Whether the order of the entries matters is decided by the directories: it does exactly if all
      of them fit the budget, but one of them does not fit beside the files. */
  lemma AcceptanceIsUnordered(zs: seq<ZipEntry>, policy: Policy)
    requires policy.extractedBytes >= 0
    ensures (exists xs, ys :: multiset(xs) == multiset(zs) && multiset(ys) == multiset(zs)
                              && Acceptable(xs, policy) && !Acceptable(ys, policy)) <==>
            && Sound(zs, policy) && DirectoriesFit(zs, policy.extractedBytes)
            && !DirectoriesFit(zs, policy.extractedBytes - Payload(zs))
  {
    hide Acceptable, Sound, DirectoriesFit, Payload;
    AcceptedInSomeOrder(zs, policy);
    AcceptedInEveryOrder(zs, policy);
  }

  /** The size a directory claims is compared with what is left of the budget, so a directory that
      claims one makes the order matter. */
  lemma LyingDirectoryMakesOrderMatter()
    ensures var folder, file := ZipEntry("d", DirectoryBit, 2, []), ZipEntry("f", RegularFile, 1, [7]);
            var policy := Policy(2, 2, 2);
            Acceptable([folder, file], policy) && !Acceptable([file, folder], policy)
  {
    hide IsTree, Fits, Closure, Names, Above, Files, Ancestors, ValidPath, LongestElement;
    var folder, file := ZipEntry("d", DirectoryBit, 2, []), ZipEntry("f", RegularFile, 1, [7]);
    var policy := Policy(2, 2, 2);
    NothingYet(policy);
    EntriesGrow([], folder);
    EntriesGrow([], file);
    assert [] + [folder] == [folder] && [folder] + [file] == [folder, file];
    assert [] + [file] == [file] && [file] + [folder] == [file, folder];
    SimpleEntry([], folder, 'd', 'f');
    AcceptOneMore([], folder, policy);
    SimpleEntry([folder], file, 'f', 'd');
    AcceptOneMore([folder], file, policy);
    AcceptOneMore([file], folder, policy);
  }

  /** An entry with a one-letter name beside at most one other such entry. */
  lemma SimpleEntry(zs: seq<ZipEntry>, z: ZipEntry, c: char, other: char)
    requires c in {'d', 'f'} && other in {'d', 'f'} && c != other
    requires zs == [] || (|zs| == 1 && zs[0].name == [other])
    requires z.name == [c]
    ensures EntryName(z.name) == Some([c]) && Fits(Entries(zs), EntryOf(z), 2)
  {
    assert FirstSlash([c]) == 1 && [c][..1] == [c];
    assert StagingArchive.TrimmedSuffix([c]) == [c] && StagingArchive.TrimmedSuffix([other]) == [other];
    assert EntryName(z.name) == Some([c]);
    hide EntryName, Mode, Fits;
    assert Entries(zs) == if zs == [] then [] else [EntryOf(zs[0])];
    LoneNodes(Entries(zs), EntryOf(z), [other]);
  }

  lemma LoneNodes(es: seq<Entry>, e: Entry, other: string)
    requires es == [] || (|es| == 1 && es[0].name == other)
    requires e.name != other && |e.name| == |other| == 1 && e.name[0] != '/' && other[0] != '/'
    ensures Fits(es, e, 2)
  {
    hide Names, Above, Files, Closure, Ancestors;
    LoneNames(es, e, other);
    OneMoreNode(es, e);
    NodesOf(es);
    var pair := {other, e.name};
    Smaller(Closure(es + [e]), pair);
  }

  lemma LoneNames(es: seq<Entry>, e: Entry, other: string)
    requires es == [] || (|es| == 1 && es[0].name == other)
    requires |e.name| == |other| == 1 && e.name[0] != '/' && other[0] != '/'
    ensures Ancestors(e.name) == {} && Above(es) == {} && Names(es) <= {other}
  {
    assert Ancestors(e.name) == {} && Ancestors(other) == {};
  }

  function AsHeader(z: ZipEntry): StagingArchive.Header {
    var e := EntryOf(z);
    StagingArchive.Header(e.name, if e.dir then StagingArchive.TypeDir else StagingArchive.TypeReg,
                          if e.dir then 0 else |e.data|, e.data)
  }

  function AsHeaders(zs: seq<ZipEntry>): seq<StagingArchive.Header> {
    seq(|zs|, i requires 0 <= i < |zs| => AsHeader(zs[i]))
  }

  /** The two validators agree: under equal limits a truthful list of entries with valid ZIP names
      is accepted as a package exactly if the same tree is accepted as a staging TAR. */
  lemma ValidatorsAgree(zs: seq<ZipEntry>, policy: Policy, tar: StagingArchive.Policy)
    requires Truthful(zs) && forall e | e in zs :: ValidEntry(e)
    requires tar == StagingArchive.Policy(policy.extractedBytes, policy.nodes) && policy.extractedBytes >= 0
    ensures Acceptable(zs, policy) <==> StagingArchive.Acceptable(AsHeaders(zs), tar)
    ensures StagingArchive.Declared(AsHeaders(zs)) == AsHeaders(zs)
    ensures forall h | h in AsHeaders(zs) :: StagingArchive.Extractable(h)
  {
    hide IsTree, ValidPath, LongestElement;
    var hs := AsHeaders(zs);
    assert StagingArchive.Entries(hs) == Entries(zs);
    forall h | h in hs
      ensures StagingArchive.ValidHeader(h) && StagingArchive.Extractable(h)
    {
      var i :| 0 <= i < |hs| && hs[i] == h;
      assert ValidEntry(zs[i]);
    }
    TruthfulBudget(zs, policy.extractedBytes);
    SameTotal(zs);
    HeadersAreDeclared(zs);
  }

  lemma {:induction false} SameTotal(zs: seq<ZipEntry>)
    ensures StagingArchive.Total(AsHeaders(zs)) == Payload(zs)
  {
    if zs != [] {
      var k := |zs| - 1;
      assert AsHeaders(zs)[..k] == AsHeaders(zs[..k]);
      SameTotal(zs[..k]);
    }
  }

  lemma {:induction false} HeadersAreDeclared(zs: seq<ZipEntry>)
    requires forall e | e in zs :: ValidEntry(e)
    ensures StagingArchive.Declared(AsHeaders(zs)) == AsHeaders(zs)
  {
    if zs != [] {
      hide StagingArchive.Declared, ValidEntry;
      var k := |zs| - 1;
      var init, z := zs[..k], zs[k];
      assert AsHeaders(zs) == AsHeaders(init) + [AsHeader(z)];
      HeadersAreDeclared(init);
      HeaderIsDeclared(z);
      StagingArchive.DeclaredOneMore(AsHeaders(init), AsHeader(z));
    }
  }

  lemma HeaderIsDeclared(z: ZipEntry)
    requires ValidEntry(z)
    ensures var h := AsHeader(z);
            !StagingArchive.IsRootEntry(h) && h.(name := StagingArchive.Normalized(h.name)) == h
  {
    hide ValidPath, ValidElements, LongestElement, StagingArchive.Normalized;
    StagingArchive.NormalizedAlready(AsHeader(z).name);
    assert AsHeader(z).name != "" by { StagingArchive.NotEmpty(AsHeader(z).name); }
  }
}
