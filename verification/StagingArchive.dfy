/** The staging TAR: validation entry by entry, extraction, and packing. */
module StagingArchive {
  import opened ArchiveTree

  datatype Kind = TypeDir | TypeReg | TypeNul | Special

  datatype Header = Header(name: string, kind: Kind, size: int, data: Bytes)

  datatype Policy = Policy(payloadBytes: int, entries: int)

  function TrimmedPrefix(raw: string): string {
    if |raw| >= 2 && raw[..2] == "./" then raw[2..] else raw
  }

  function TrimmedSuffix(raw: string): string {
    if |raw| >= 1 && raw[|raw| - 1] == '/' then raw[..|raw| - 1] else raw
  }

  function Normalized(raw: string): string {
    TrimmedSuffix(TrimmedPrefix(raw))
  }

  predicate IsRootEntry(h: Header) {
    (Normalized(h.name) == "." || Normalized(h.name) == "") && h.kind == TypeDir && h.size == 0
  }

  predicate ValidName(name: string) {
    ValidPath(name) && |name| <= 4096 && '\\' !in name && '\0' !in name
  }

  predicate ValidHeader(h: Header) {
    && ValidName(h.name) && h.kind != Special
    && h.size >= 0 && (h.kind == TypeDir ==> h.size == 0)
  }

  function EntryOf(h: Header): Entry {
    Entry(h.name, h.kind == TypeDir, h.data)
  }

  function Entries(hs: seq<Header>): seq<Entry> {
    seq(|hs|, i requires 0 <= i < |hs| => EntryOf(hs[i]))
  }

  /** The headers that count, with their names normalised. */
  function Declared(hs: seq<Header>): seq<Header> {
    if hs == [] then []
    else
      var h := hs[|hs| - 1];
      Declared(hs[..|hs| - 1]) + if IsRootEntry(h) then [] else [h.(name := Normalized(h.name))]
  }

  function Total(hs: seq<Header>): int {
    if hs == [] then 0 else Total(hs[..|hs| - 1]) + hs[|hs| - 1].size
  }

  /** What an archive has to be, whatever the order of its headers. */
  ghost predicate Acceptable(ds: seq<Header>, policy: Policy) {
    && (forall h | h in ds :: ValidHeader(h))
    && IsTree(Entries(ds), policy.entries)
    && Total(ds) <= policy.payloadBytes
  }

  ghost predicate Admits(ds: seq<Header>, h: Header, policy: Policy) {
    && ValidHeader(h) && h.size <= policy.payloadBytes - Total(ds)
    && Fits(Entries(ds), EntryOf(h), policy.entries)
  }

  lemma EntriesGrow(ds: seq<Header>, h: Header)
    ensures Entries(ds + [h]) == Entries(ds) + [EntryOf(h)]
    ensures Total(ds + [h]) == Total(ds) + h.size
  {
    assert (ds + [h])[..|ds|] == ds;
  }

  lemma AcceptOneMore(ds: seq<Header>, h: Header, policy: Policy)
    ensures Acceptable(ds + [h], policy) <==> Acceptable(ds, policy) && Admits(ds, h, policy)
  {
    hide IsTree, Fits, Entries, ValidHeader;
    EntriesGrow(ds, h);
    IncrementalCheck(Entries(ds), EntryOf(h), policy.entries);
    if Acceptable(ds + [h], policy) {
      assert h in ds + [h];
      assert forall x | x in ds :: x in ds + [h];
      ValidSize(h);
    }
  }

  lemma ValidSize(h: Header)
    requires ValidHeader(h)
    ensures h.size >= 0
  {
  }

  lemma DeclaredOneMore(hs: seq<Header>, h: Header)
    ensures Declared(hs + [h]) ==
            Declared(hs) + if IsRootEntry(h) then [] else [h.(name := Normalized(h.name))]
  {
    assert (hs + [h])[..|hs|] == hs;
  }

  /** A header that is refused condemns the archive, whatever follows. */
  lemma {:induction false} RefusedStaysRefused(hs: seq<Header>, k: nat, policy: Policy)
    requires k <= |hs| && !Acceptable(Declared(hs[..k]), policy)
    ensures !Acceptable(Declared(hs), policy)
    decreases |hs| - k
  {
    hide Acceptable, Admits, IsRootEntry, Normalized;
    if k == |hs| {
      assert hs[..k] == hs;
    } else {
      var h := hs[k];
      assert hs[..k + 1] == hs[..k] + [h];
      DeclaredOneMore(hs[..k], h);
      AcceptOneMore(Declared(hs[..k]), h.(name := Normalized(h.name)), policy);
      assert Declared(hs[..k]) + [] == Declared(hs[..k]);
      RefusedStaysRefused(hs, k + 1, policy);
    }
  }

  /** The validator's map: every node so far, and whether it is a directory. */
  ghost predicate Tracks(seen: map<string, bool>, es: seq<Entry>) {
    && seen.Keys == Closure(es)
    && forall n | n in seen :: !seen[n] <==> n in Files(es)
  }

  /** `validateEntry`: check one more entry and every directory above it. */
  method ValidateEntry(h: Header, seen: map<string, bool>, total: int, policy: Policy, ghost ds: seq<Header>)
    returns (ok: bool, now: map<string, bool>)
    requires Tracks(seen, Entries(ds)) && Acceptable(ds, policy) && total == Total(ds)
    requires h.name !in Names(Entries(ds))
    ensures ok <==> Admits(ds, h, policy)
    ensures ok ==> Tracks(now, Entries(ds + [h]))
  {
    hide IsTree, Fits, Tracks, Names, Entries, Total, ValidPath;
    now := seen;
    ok := ValidName(h.name)
          && !(h.size < 0 || h.size > policy.payloadBytes - total)
          && !(h.kind == Special || (h.kind == TypeDir && h.size != 0));
    if ok {
      EntriesGrow(ds, h);
      ok, now := RegisterNode(EntryOf(h), seen, policy.entries, Entries(ds));
    }
  }

  /** Enter a node and the directories above it, unless one of them is taken. */
  method RegisterNode(e: Entry, seen: map<string, bool>, limit: int, ghost es: seq<Entry>)
    returns (ok: bool, now: map<string, bool>)
    requires Tracks(seen, es) && ValidPath(e.name) && e.name !in Names(es)
    ensures ok <==> Fits(es, e, limit)
    ensures ok ==> Tracks(now, es + [e])
  {
    hide Names, Files, Above, Closure, Ancestors, ValidPath;
    NodesOf(es);
    if e.name in seen && (!seen[e.name] || !e.dir) {
      return false, seen;
    }
    OneMoreNode(es, e);
    NotItsOwnAncestor(e.name);
    ok, now := RegisterParents(e.name, seen[e.name := e.dir], limit, Files(es + [e]), Closure(es + [e]));
  }

  /** Enter the directories above a node. */
  method RegisterParents(name: string, seen: map<string, bool>, limit: int,
                         ghost files: set<string>, ghost all: set<string>)
    returns (ok: bool, now: map<string, bool>)
    requires ValidPath(name) && files <= seen.Keys
    requires forall n :: n in all <==> n in seen || n in Ancestors(name)
    requires forall n | n in seen :: !seen[n] <==> n in files
    ensures ok <==> Ancestors(name) !! files && |all| <= limit
    ensures ok ==> now.Keys == all
    ensures ok ==> forall n | n in now :: !now[n] <==> n in files
  {
    hide ValidPath, ValidElements, Ancestors, LastSlash, Dir;
    now := seen;
    var parent := Dir(name);
    FirstStep(name);
    ghost var done: set<string> := {};
    while parent != "."
      invariant forall n :: n in Ancestors(name) <==> n in done || (parent != "." && (n == parent || n in Ancestors(parent)))
      invariant forall n :: n in now <==> n in seen || n in done
      invariant forall n | n in done :: n !in files
      invariant forall n | n in now :: !now[n] <==> n in files
      decreases if parent == "." then 0 else |parent|
    {
      AncestorStep(name, parent);
      if |now| > limit {
        Smaller(now.Keys, all);
        return false, now;
      }
      if parent in now && !now[parent] {
        return false, now;
      }
      now := now[parent := true];
      done := done + {parent};
      parent := Dir(parent);
    }
    assert now.Keys == all;
    ok := |now| <= limit;
  }

  lemma AncestorStep(name: string, parent: string)
    requires ValidPath(name) && parent in Ancestors(name)
    ensures Ancestors(parent) == if Dir(parent) == "." then {} else {Dir(parent)} + Ancestors(Dir(parent))
    ensures parent !in Ancestors(parent) && parent != name && parent != ""
    ensures Dir(parent) != "." ==> |Dir(parent)| < |parent|
  {
    AncestorsAre(parent, name);
    AncestorIsValid(parent, name);
    FirstStep(parent);
    NotItsOwnAncestor(parent);
  }

  predicate DotFile(h: Header) {
    h.name == "." && h.kind != TypeDir
  }

  /** The file system can create the entry. The validator does not check this. */
  predicate Extractable(h: Header) {
    !DotFile(h) && Linkable(h.name)
  }

  /** Validate the archive and, given a destination, extract it. */
  method Unpack(hs: seq<Header>, root: Destination?, policy: Policy) returns (ok: bool)
    requires policy.payloadBytes >= 0 && policy.entries >= 0
    requires root != null ==> root.files == map[]
    modifies if root == null then {} else {root}
    ensures ok <==> Acceptable(Declared(hs), policy)
                    && (root != null ==> forall h | h in Declared(hs) :: Extractable(h))
    ensures ok && root != null ==> root.files == TreeOf(Entries(Declared(hs)))
  {
    hide Acceptable, TreeOf, Tracks, Closure, Files, Names, Above, Admits, LongestElement, Entries;
    var seen: map<string, bool>, declared: set<string>, total := map[], {}, 0;
    ghost var ds: seq<Header> := [];
    NothingDeclared(policy);
    for i := 0 to |hs|
      invariant ds == Declared(hs[..i]) && Acceptable(ds, policy)
      invariant Tracks(seen, Entries(ds)) && declared == Names(Entries(ds)) && total == Total(ds)
      invariant root != null ==> root.files == TreeOf(Entries(ds))
      invariant root != null ==> forall h | h in ds :: Extractable(h)
    {
      assert hs[..i + 1] == hs[..i] + [hs[i]];
      DeclaredOneMore(hs[..i], hs[i]);
      if !IsRootEntry(hs[i]) {
        var h := hs[i].(name := Normalized(hs[i].name));
        AcceptOneMore(ds, h, policy);
        EntriesGrow(ds, h);
        if h.name in declared {
          Redeclared(ds, h, policy);
          RefusedStaysRefused(hs, i + 1, policy);
          return false;
        }
        ok, seen := ValidateEntry(h, seen, total, policy, ds);
        if !ok {
          RefusedStaysRefused(hs, i + 1, policy);
          return;
        }
        OneMoreName(Entries(ds), EntryOf(h));
        declared := declared + {h.name};
        total := total + h.size;
        if root != null {
          RestorePossible(ds, h, policy);
          ok := root.Restore(EntryOf(h));
          if !ok {
            DeclaredStays(hs, i + 1, h);
            return;
          }
        }
        ds := ds + [h];
      } else {
        assert ds + [] == ds;
      }
    }
    assert hs[..|hs|] == hs;
    ok := true;
  }

  lemma NothingDeclared(policy: Policy)
    requires policy.payloadBytes >= 0 && policy.entries >= 0
    ensures Acceptable([], policy) && Tracks(map[], Entries([])) && Names(Entries([])) == {}
    ensures TreeOf(Entries([])) == map[]
  {
    assert Closure(Entries([])) == {};
  }

  lemma Redeclared(ds: seq<Header>, h: Header, policy: Policy)
    requires h.name in Names(Entries(ds))
    ensures !Admits(ds, h, policy)
  {
  }

  lemma OneMoreName(es: seq<Entry>, e: Entry)
    ensures Names(es + [e]) == Names(es) + {e.name}
  {
    OneMoreEntry(es, e);
  }

  lemma RestorePossible(ds: seq<Header>, h: Header, policy: Policy)
    requires Acceptable(ds + [h], policy)
    ensures ValidHeader(h)
    ensures var es, e := Entries(ds), EntryOf(h);
            && (forall p | p in Ancestors(e.name) && p in TreeOf(es) :: TreeOf(es)[p] == Directory)
            && (e.name in TreeOf(es) ==> e.dir && TreeOf(es)[e.name] == Directory)
            && TreeOf(Entries(ds + [h])) ==
               WithDirectories(TreeOf(es), Ancestors(e.name))[e.name := if e.dir then Directory else File(e.data)]
  {
    hide IsTree, TreeOf, Ancestors, Total, Entries;
    assert h in ds + [h];
    EntriesGrow(ds, h);
    TreeGrows(Entries(ds), EntryOf(h), policy.entries);
  }

  lemma {:induction false} DeclaredStays(hs: seq<Header>, k: nat, h: Header)
    requires k <= |hs| && h in Declared(hs[..k])
    ensures h in Declared(hs)
    decreases |hs| - k
  {
    if k == |hs| {
      assert hs[..k] == hs;
    } else {
      assert hs[..k + 1] == hs[..k] + [hs[k]];
      DeclaredOneMore(hs[..k], hs[k]);
      DeclaredStays(hs, k + 1, h);
    }
  }

  /** One acceptable archive that cannot be extracted is a regular entry named ".": it passes
      validation, but creating the file fails. */
  lemma DotFileIsAcceptedButNotExtractable(policy: Policy)
    requires policy.payloadBytes >= 0 && policy.entries >= 1
    ensures var h := Header(".", TypeReg, 0, []);
            Declared([h]) == [h] && Acceptable([h], policy) && DotFile(h)
  {
    var h := Header(".", TypeReg, 0, []);
    assert Normalized(".") == ".";
    assert ValidHeader(h) by { assert "." == ['.'] && ValidPath("."); }
    LoneFile(h, policy);
  }

  /** One empty file with a valid name is acceptable. */
  lemma LoneFile(h: Header, policy: Policy)
    requires ValidHeader(h) && h.kind == TypeReg && h.size == 0 && '/' !in h.name && Normalized(h.name) == h.name
    requires policy.payloadBytes >= 0 && policy.entries >= 1
    ensures Declared([h]) == [h] && Acceptable([h], policy)
  {
    assert [] + [h] == [h] && Declared([]) == [] && Entries([]) == [] && Total([]) == 0;
    hide ValidHeader, Acceptable, Fits, Normalized, Declared, Entries, Total, Tracks, TreeOf, Names;
    NothingDeclared(policy);
    AcceptOneMore([], h, policy);
    DeclaredOneMore([], h);
    LoneRoot(EntryOf(h), policy.entries);
    assert Admits([], h, policy);
  }

  /** Another is a file whose name is one element longer than the file system takes: only the whole
      name is limited. */
  lemma LongElementIsAcceptedButNotExtractable(name: string, policy: Policy)
    requires policy.payloadBytes >= 0 && policy.entries >= 1
    requires MAX_ELEMENT_BYTES < |name| <= 4096 && '/' !in name && '\\' !in name && '\0' !in name
    ensures var h := Header(name, TypeReg, 0, []);
            Declared([h]) == [h] && Acceptable([h], policy) && !DotFile(h) && !Extractable(h)
  {
    var h := Header(name, TypeReg, 0, []);
    OneElement(name);
    hide LongestElement, ValidPath, Acceptable, Normalized;
    NormalizedAlready(name);
    LoneFile(h, policy);
  }

  lemma OneElement(name: string)
    requires '/' !in name && |name| > 2
    ensures ValidPath(name) && LongestElement(name) == |name|
  {
    assert forall i | 0 <= i < |name| :: name[i] in name;
    assert FirstSlash(name) == |name|;
    assert name[..|name|] == name;
  }

  lemma LoneRoot(e: Entry, limit: int)
    requires '/' !in e.name && limit >= 1
    ensures Fits([], e, limit)
  {
    assert Ancestors(e.name) == {} by { assert forall i | 0 <= i < |e.name| :: e.name[i] in e.name; }
    assert Above([]) == {};
    var one := {e.name};
    hide Ancestors, Above, Closure, Names, Files;
    OneMoreNode([], e);
    NothingYet();
    Smaller(Closure([e]), one) by { assert [] + [e] == [e]; }
    assert [] + [e] == [e];
  }

  lemma NothingYet()
    ensures Closure([]) == {} && Names([]) == {} && Files([]) == {}
  {
  }

  lemma {:induction false} Concatenated(a: seq<Header>, b: seq<Header>)
    ensures Declared(a + b) == Declared(a) + Declared(b)
    ensures Total(a + b) == Total(a) + Total(b)
    ensures Entries(a + b) == Entries(a) + Entries(b)
    decreases |b|
  {
    assert Entries(a + b) == Entries(a) + Entries(b);
    if b == [] {
      assert a + b == a;
    } else {
      hide Declared, Total, Entries, IsRootEntry, Normalized;
      var init, h := b[..|b| - 1], b[|b| - 1];
      assert b == init + [h] && a + b == a + init + [h];
      Concatenated(a, init);
      DeclaredOneMore(a + init, h);
      DeclaredOneMore(init, h);
      EntriesGrow(a + init, h);
      EntriesGrow(init, h);
    }
  }

  /** Take the last element of one list out of the other. */
  lemma TakeOut<T>(xs: seq<T>, ys: seq<T>) returns (k: nat)
    requires xs != [] && multiset(xs) == multiset(ys)
    ensures k < |ys| && ys[k] == xs[|xs| - 1]
    ensures ys == ys[..k] + [ys[k]] + ys[k + 1..]
    ensures multiset(xs[..|xs| - 1]) == multiset(ys[..k] + ys[k + 1..])
  {
    var x := xs[|xs| - 1];
    assert xs == xs[..|xs| - 1] + [x];
    assert x in multiset(ys);
    k :| 0 <= k < |ys| && ys[k] == x;
    assert ys == ys[..k] + [x] + ys[k + 1..];
    assert multiset(xs[..|xs| - 1]) == multiset(xs) - multiset{x};
    assert multiset(ys[..k] + ys[k + 1..]) == multiset(ys) - multiset{x};
  }

  lemma {:induction false} PermutedDeclarations(hs: seq<Header>, gs: seq<Header>)
    requires multiset(hs) == multiset(gs)
    ensures multiset(Declared(hs)) == multiset(Declared(gs)) && Total(hs) == Total(gs)
    ensures multiset(Entries(hs)) == multiset(Entries(gs))
    decreases |hs|
  {
    hide Declared, Total, Entries;
    if hs == [] {
      assert |multiset(gs)| == 0;
    } else {
      var k := TakeOut(hs, gs);
      var init, h, a, b := hs[..|hs| - 1], [hs[|hs| - 1]], gs[..k], gs[k + 1..];
      PermutedDeclarations(init, a + b);
      assert hs == init + h && gs == a + h + b;
      Concatenated(init, h);
      Concatenated(a, b);
      Concatenated(a, h);
      Concatenated(a + h, b);
    }
  }

  /** Acceptance does not depend on the order of the headers. */
  lemma AcceptanceIsUnordered(hs: seq<Header>, gs: seq<Header>, policy: Policy)
    requires multiset(hs) == multiset(gs)
    ensures Acceptable(Declared(hs), policy) <==> Acceptable(Declared(gs), policy)
  {
    PermutedDeclarations(hs, gs);
    var ds, es := Declared(hs), Declared(gs);
    PermutedDeclarations(ds, es);
    TreesAreUnordered(Entries(ds), Entries(es), policy.entries);
    forall h
      ensures h in ds <==> h in es
    {
      assert h in ds <==> h in multiset(ds);
      assert h in es <==> h in multiset(es);
    }
  }

  /** What a directory walk finds. */
  datatype Found = Regular(data: Bytes) | Folder | Irregular

  type Workspace = map<string, Found>

  function PackHeader(name: string, found: Found): Header {
    match found
    case Regular(data) => Header(name, TypeReg, |data|, data)
    case _ => Header(name, TypeDir, 0, [])
  }

  function Packed(w: Workspace, walk: seq<string>): seq<Header>
    requires forall n | n in walk :: n in w
  {
    seq(|walk|, i requires 0 <= i < |walk| => PackHeader(walk[i], w[walk[i]]))
  }

  /** The walk visits every node below the root once. */
  ghost predicate IsWalk(w: Workspace, walk: seq<string>) {
    && (forall n :: n in walk <==> n in w)
    && forall i, j | 0 <= i < j < |walk| :: walk[i] != walk[j]
  }

  ghost predicate Packable(w: Workspace, walk: seq<string>, policy: Policy)
    requires forall n | n in walk :: n in w
  {
    && (forall n | n in walk :: ValidName(n) && w[n] != Irregular)
    && |walk| <= policy.entries
    && Total(Packed(w, walk)) <= policy.payloadBytes
  }

  /** Write one header for each node the walk visits. */
  method Pack(w: Workspace, walk: seq<string>, policy: Policy) returns (ok: bool, hs: seq<Header>)
    requires policy.payloadBytes >= 0 && policy.entries >= 0
    requires forall n | n in walk :: n in w
    ensures ok <==> Packable(w, walk, policy)
    ensures ok ==> hs == Packed(w, walk)
  {
    hide ValidName;
    var total, count := 0, 0;
    hs := [];
    for i := 0 to |walk|
      invariant Packable(w, walk[..i], policy)
      invariant hs == Packed(w, walk[..i]) && total == Total(hs) && count == i
    {
      var name := walk[i];
      assert walk[..i + 1] == walk[..i] + [name];
      ghost var now := Packed(w, walk[..i + 1]);
      var header := PackHeader(name, w[name]);
      assert now == hs + [header];
      EntriesGrow(hs, header);
      TotalOfPrefix(w, walk, i + 1);
      if w[name] == Irregular || !ValidName(name) {
        return false, hs;
      }
      count := count + 1;
      if count > policy.entries {
        return false, hs;
      }
      if header.size > policy.payloadBytes - total {
        return false, hs;
      }
      total := total + header.size;
      hs := hs + [header];
    }
    assert walk[..|walk|] == walk;
    ok := true;
  }

  lemma {:induction false} TotalOfPrefix(w: Workspace, walk: seq<string>, k: nat)
    requires k <= |walk| && forall n | n in walk :: n in w
    ensures 0 <= Total(Packed(w, walk[..k])) <= Total(Packed(w, walk))
    decreases |walk|
  {
    var hs := Packed(w, walk);
    if k == |walk| {
      assert walk[..k] == walk;
      if k > 0 {
        TotalOfPrefix(w, walk[..k - 1], k - 1);
        assert walk[..k - 1][..k - 1] == walk[..k - 1];
        assert hs[..k - 1] == Packed(w, walk[..k - 1]);
      }
    } else {
      TotalOfPrefix(w, walk[..|walk| - 1], k);
      assert walk[..|walk| - 1][..k] == walk[..k];
      assert hs[..|walk| - 1] == Packed(w, walk[..|walk| - 1]);
    }
  }

  /** On disk every node lies in directories. */
  predicate IsDiskTree(w: Workspace) {
    && "." !in w && "" !in w && (forall n | n in w :: Linkable(n))
    && forall n, p | n in w && p in Ancestors(n) :: p in w && w[p] == Folder
  }

  function Contents(w: Workspace): FileSystem {
    map n | n in w && w[n] != Irregular :: if w[n].Regular? then File(w[n].data) else Directory
  }

  lemma NormalizedAlready(name: string)
    requires ValidName(name) && name != "."
    ensures Normalized(name) == name
  {
    NoDotPrefix(name);
    NoTrailingSlash(name);
  }

  lemma NoDotPrefix(name: string)
    requires ValidElements(name)
    ensures |name| >= 2 ==> name[..2] != "./"
  {
    if |name| >= 2 {
      assert name[..2] == [name[0], name[1]];
      assert FirstSlash(name[1..]) == 0 <==> name[1] == '/';
    }
  }

  lemma {:induction false} NoTrailingSlash(name: string)
    requires ValidElements(name)
    ensures name != "" && name[|name| - 1] != '/'
  {
    var i := FirstSlash(name);
    if i < |name| {
      NoTrailingSlash(name[i + 1..]);
    }
  }

  lemma {:induction false} PackedIsDeclared(w: Workspace, walk: seq<string>)
    requires forall n | n in walk :: n in w && n != "." && ValidName(n)
    ensures Declared(Packed(w, walk)) == Packed(w, walk)
    decreases |walk|
  {
    if walk != [] {
      hide Declared, Normalized, ValidPath, ValidElements;
      var k := |walk| - 1;
      var init, h := Packed(w, walk[..k]), PackHeader(walk[k], w[walk[k]]);
      assert Packed(w, walk) == init + [h];
      PackedIsDeclared(w, walk[..k]);
      NormalizedAlready(walk[k]);
      NotEmpty(walk[k]);
      DeclaredOneMore(init, h);
    }
  }

  lemma NotEmpty(name: string)
    requires ValidPath(name)
    ensures name != ""
  {
  }

  /** Whatever can be packed is accepted back under the same policy, and unpacking restores exactly
      the files, with their bytes, and the directories, empty ones included. */
  lemma PackedTreeComesBack(w: Workspace, walk: seq<string>, policy: Policy)
    requires IsWalk(w, walk) && IsDiskTree(w) && Packable(w, walk, policy)
    ensures var hs := Packed(w, walk);
            && Acceptable(Declared(hs), policy)
            && (forall h | h in Declared(hs) :: Extractable(h))
            && TreeOf(Entries(Declared(hs))) == Contents(w)
  {
    hide Ancestors, Closure, Names, Above, Files, ValidName, Declared, Total, Distinct, Linkable;
    var hs := Packed(w, walk);
    PackedIsDeclared(w, walk);
    var es := Entries(hs);
    PackedNodes(w, walk);
    DistinctNames(es);
    PackedHeaders(w, walk, policy);
    forall i | 0 <= i < |walk|
      ensures walk[i] in Closure(es) && TreeOf(es)[walk[i]] == Contents(w)[walk[i]]
    {
      assert walk[i] in w && es[i] == EntryOf(PackHeader(walk[i], w[walk[i]]));
      if w[walk[i]].Regular? {
        DataIs(es, i);
      }
    }
    assert forall n | n in w :: exists i | 0 <= i < |walk| :: walk[i] == n;
    assert TreeOf(es).Keys == Contents(w).Keys;
  }

  lemma PackedHeaders(w: Workspace, walk: seq<string>, policy: Policy)
    requires IsWalk(w, walk) && IsDiskTree(w) && Packable(w, walk, policy)
    ensures forall h | h in Packed(w, walk) :: ValidHeader(h) && Extractable(h)
  {
    hide Ancestors, ValidName, Total, Linkable;
    var hs := Packed(w, walk);
    forall h | h in hs
      ensures ValidHeader(h) && Extractable(h)
    {
      var i :| 0 <= i < |hs| && hs[i] == h;
      assert walk[i] in walk;
    }
  }

  lemma PackedNodes(w: Workspace, walk: seq<string>)
    requires IsWalk(w, walk) && IsDiskTree(w) && forall n | n in walk :: w[n] != Irregular
    ensures var es := Entries(Packed(w, walk));
            && Distinct(es) && Closure(es) == w.Keys && Names(es) == w.Keys && |es| == |walk|
            && Files(es) !! Above(es)
            && forall n :: n in Files(es) <==> n in w && w[n].Regular?
  {
    hide Ancestors, Names, Files, Above;
    PackedNames(w, walk);
    PackedAbove(w, walk);
  }

  lemma PackedNames(w: Workspace, walk: seq<string>)
    requires IsWalk(w, walk) && forall n | n in walk :: w[n] != Irregular
    ensures var es := Entries(Packed(w, walk));
            && Names(es) == w.Keys
            && forall n :: n in Files(es) <==> n in w && w[n].Regular?
  {
    var es := Entries(Packed(w, walk));
    forall n
      ensures n in Names(es) <==> n in w
      ensures n in Files(es) <==> n in w && w[n].Regular?
    {
      if n in w {
        var i :| 0 <= i < |walk| && walk[i] == n;
        assert es[i] in es && es[i].name == n;
      }
    }
  }

  lemma PackedAbove(w: Workspace, walk: seq<string>)
    requires IsWalk(w, walk) && IsDiskTree(w)
    ensures forall p | p in Above(Entries(Packed(w, walk))) :: p in w && w[p] == Folder
  {
    hide Ancestors, Linkable, PackHeader;
    var es := Entries(Packed(w, walk));
    forall e | e in es
      ensures e.name in w
    {
      var i :| 0 <= i < |es| && es[i] == e;
      HeaderName(walk[i], w[walk[i]]);
      assert walk[i] in walk;
    }
    forall e, p | e in es && p in Ancestors(e.name)
      ensures p in w && w[p] == Folder
    {
    }
  }

  lemma HeaderName(name: string, found: Found)
    ensures PackHeader(name, found).name == name
  {
  }

  lemma DistinctNames(es: seq<Entry>)
    requires Distinct(es)
    ensures |Names(es)| == |es|
  {
    DistinctCount(es);
  }
}
