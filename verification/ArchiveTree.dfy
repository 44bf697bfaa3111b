/** What an archive has to be to stand for a directory tree, independently of the order of its
    entries, and the tree it stands for. Names are slash-separated byte strings. */
module ArchiveTree {

  type Bytes = seq<int>

  datatype Entry = Entry(name: string, dir: bool, data: Bytes)

  function LastSlash(s: string): (i: int)
    ensures -1 <= i < |s| && (i >= 0 ==> s[i] == '/')
    ensures forall k | i < k < |s| :: s[k] != '/'
  {
    if s == "" then -1
    else if s[|s| - 1] == '/' then |s| - 1
    else LastSlash(s[..|s| - 1])
  }

  /** The directory part of a valid name; "." when there is none. */
  function Dir(name: string): string {
    if LastSlash(name) < 0 then "." else name[..LastSlash(name)]
  }

  predicate IsAncestor(p: string, name: string) {
    |p| < |name| && name[|p|] == '/' && name[..|p|] == p
  }

  function Ancestors(name: string): set<string> {
    set i | 0 <= i < |name| && name[i] == '/' :: name[..i]
  }

  lemma AncestorsAre(p: string, name: string)
    ensures p in Ancestors(name) <==> IsAncestor(p, name)
  {
    if IsAncestor(p, name) { assert name[..|p|] in Ancestors(name); }
  }

  /** Walking up with `Dir` visits exactly the ancestors. */
  lemma WalkingUp(name: string)
    ensures Ancestors(name) ==
            if LastSlash(name) < 0 then {} else {Dir(name)} + Ancestors(Dir(name))
  {
    forall p
      ensures IsAncestor(p, name) <==>
              LastSlash(name) >= 0 && (p == Dir(name) || IsAncestor(p, Dir(name)))
    {
      if LastSlash(name) >= 0 && |p| < LastSlash(name) {
        assert Dir(name)[|p|] == name[|p|] && Dir(name)[..|p|] == name[..|p|];
      }
    }
    forall p
      ensures p in Ancestors(name) <==>
              LastSlash(name) >= 0 && (p == Dir(name) || p in Ancestors(Dir(name)))
    {
      AncestorsAre(p, name);
      AncestorsAre(p, Dir(name));
    }
  }

  /** `fs.ValidPath`: elements between slashes are neither empty nor "." nor "..". */
  predicate ValidPath(name: string) {
    name == "." || ValidElements(name)
  }

  predicate ValidElements(name: string) {
    var i := FirstSlash(name);
    var elem := name[..i];
    elem != "" && elem != "." && elem != ".."
    && (i == |name| || ValidElements(name[i + 1..]))
  }

  function FirstSlash(s: string): (i: nat)
    ensures i <= |s| && (i < |s| ==> s[i] == '/')
    ensures forall k | 0 <= k < i :: s[k] != '/'
  {
    if s == "" || s[0] == '/' then 0 else 1 + FirstSlash(s[1..])
  }

  /** Every ancestor of a valid name is a valid name itself, and never ".". */
  lemma {:induction false} AncestorIsValid(p: string, name: string)
    requires ValidElements(name) && IsAncestor(p, name)
    ensures ValidElements(p) && p != "."
  {
    var i := FirstSlash(name);
    if |p| == i {
      assert FirstSlash(p) == i && p[..i] == name[..i];
    } else {
      var rest := name[i + 1..];
      assert IsAncestor(p[i + 1..], rest) by {
        assert rest[|p| - i - 1] == name[|p|];
        assert rest[..|p| - i - 1] == name[..|p|][i + 1..];
      }
      AncestorIsValid(p[i + 1..], rest);
      assert FirstSlash(p) == i by {
        assert p[i] == name[i] && forall k | 0 <= k < i :: p[k] == name[k];
      }
      assert p[..i] == name[..i];
    }
  }

  /** The longest element between slashes. */
  function LongestElement(name: string): nat
    decreases |name|
  {
    var i := FirstSlash(name);
    var rest := if i == |name| then 0 else LongestElement(name[i + 1..]);
    if i < rest then rest else i
  }

  /** Linux file systems refuse longer elements. */
  const MAX_ELEMENT_BYTES := 255

  predicate Linkable(path: string) {
    LongestElement(path) <= MAX_ELEMENT_BYTES
  }

  lemma {:induction false} AncestorIsLinkable(p: string, name: string)
    requires IsAncestor(p, name)
    ensures LongestElement(p) <= LongestElement(name)
    decreases |name|
  {
    var i := FirstSlash(name);
    if |p| <= i {
      NoSlashNoElement(p, name);
    } else {
      var rest := name[i + 1..];
      assert IsAncestor(p[i + 1..], rest) by {
        assert rest[|p| - i - 1] == name[|p|];
        assert rest[..|p| - i - 1] == name[..|p|][i + 1..];
      }
      AncestorIsLinkable(p[i + 1..], rest);
      assert FirstSlash(p) == i by {
        assert p[i] == name[i] && forall k | 0 <= k < i :: p[k] == name[k];
      }
    }
  }

  lemma ParentIsLinkable(name: string)
    requires ValidPath(name) && Linkable(name) && Dir(name) != "."
    ensures Linkable(Dir(name))
  {
    AncestorsAre(Dir(name), name);
    FirstStep(name);
    AncestorIsLinkable(Dir(name), name);
  }

  lemma NoSlashNoElement(p: string, name: string)
    requires IsAncestor(p, name) && |p| <= FirstSlash(name)
    ensures LongestElement(p) <= FirstSlash(name)
  {
    assert forall k | 0 <= k < |p| :: p[k] == name[k];
    assert FirstSlash(p) == |p|;
  }

  lemma FirstStep(name: string)
    requires ValidPath(name)
    ensures Ancestors(name) == if Dir(name) == "." then {} else {Dir(name)} + Ancestors(Dir(name))
  {
    WalkingUp(name);
    if LastSlash(name) >= 0 {
      AncestorsAre(Dir(name), name);
      AncestorIsValid(Dir(name), name);
    }
  }

  function Names(es: seq<Entry>): set<string> {
    set e | e in es :: e.name
  }

  function Files(es: seq<Entry>): set<string> {
    set e | e in es && !e.dir :: e.name
  }

  /** The directories that entries need to lie in. */
  function Above(es: seq<Entry>): set<string> {
    set e, p | e in es && p in Ancestors(e.name) :: p
  }

  function Closure(es: seq<Entry>): set<string> {
    Names(es) + Above(es)
  }

  ghost predicate Distinct(es: seq<Entry>) {
    forall i, j | 0 <= i < j < |es| :: es[i].name != es[j].name
  }

  /** The entries form a tree of at most `limit` nodes: names are declared once, and no file is an
      ancestor of another entry. */
  ghost predicate IsTree(es: seq<Entry>, limit: int) {
    Distinct(es) && Files(es) !! Above(es) && |Closure(es)| <= limit
  }

  /** What one more entry has to meet, given what is there already. */
  ghost predicate Fits(es: seq<Entry>, e: Entry, limit: int) {
    && e.name !in Names(es)
    && (!e.dir ==> e.name !in Above(es))
    && Ancestors(e.name) !! Files(es)
    && |Closure(es + [e])| <= limit
  }

  lemma OneMoreEntry(es: seq<Entry>, e: Entry)
    ensures Names(es + [e]) == Names(es) + {e.name}
    ensures Files(es + [e]) == Files(es) + if e.dir then {} else {e.name}
    ensures Above(es + [e]) == Above(es) + Ancestors(e.name)
    ensures Closure(es + [e]) == Closure(es) + {e.name} + Ancestors(e.name)
  {
    var more := es + [e];
    assert forall x :: x in more <==> x in es || x == e;
    forall n
      ensures n in Names(more) <==> n in Names(es) + {e.name}
      ensures n in Files(more) <==> n in Files(es) + if e.dir then {} else {e.name}
      ensures n in Above(more) <==> n in Above(es) + Ancestors(e.name)
    {
      if n == e.name { assert e in more; }
      if n in Ancestors(e.name) { assert e in more; }
    }
  }

  lemma OneMoreNode(es: seq<Entry>, e: Entry)
    ensures forall n :: n in Files(es + [e]) <==> n in Files(es) || (n == e.name && !e.dir)
    ensures forall n :: n in Closure(es + [e]) <==> n in Closure(es) || n == e.name || n in Ancestors(e.name)
  {
    OneMoreEntry(es, e);
  }

  lemma NodesOf(es: seq<Entry>)
    ensures Files(es) <= Names(es)
    ensures forall n :: n in Closure(es) <==> n in Names(es) || n in Above(es)
  {
  }

  lemma DistinctOneMore(es: seq<Entry>, e: Entry)
    ensures Distinct(es + [e]) <==> Distinct(es) && e.name !in Names(es)
  {
    var more := es + [e];
    if Distinct(more) {
      forall i, j | 0 <= i < j < |es|
        ensures es[i].name != es[j].name
      {
        assert more[i].name != more[j].name;
      }
      forall x | x in es
        ensures x.name != e.name
      {
        var i :| 0 <= i < |es| && es[i] == x;
        assert more[i].name != more[|es|].name;
      }
    } else if Distinct(es) {
      var i, j :| 0 <= i < j < |more| && more[i].name == more[j].name;
      assert es[i] in es;
    }
  }

  /** Checking entries one at a time accepts exactly the trees. */
  lemma IncrementalCheck(es: seq<Entry>, e: Entry, limit: int)
    ensures IsTree(es + [e], limit) <==> IsTree(es, limit) && Fits(es, e, limit)
  {
    hide Distinct, Names, Files, Above, Ancestors;
    OneMoreEntry(es, e);
    DistinctOneMore(es, e);
    NotItsOwnAncestor(e.name);
    Smaller(Closure(es), Closure(es + [e]));
  }

  lemma NotItsOwnAncestor(name: string)
    ensures name !in Ancestors(name)
  {
  }

  lemma {:induction false} Smaller<T>(a: set<T>, b: set<T>)
    requires a <= b
    ensures |a| <= |b|
  {
    if a != {} {
      var x :| x in a;
      Smaller(a - {x}, b - {x});
    }
  }

  lemma {:induction false} DistinctCount(es: seq<Entry>)
    ensures |Names(es)| <= |es|
    ensures Distinct(es) <==> |Names(es)| == |es|
  {
    if es == [] {
      assert Names(es) == {};
    } else {
      var n := |es| - 1;
      var init, e := es[..n], es[n];
      assert init + [e] == es;
      OneMoreEntry(init, e);
      DistinctCount(init);
      DistinctOneMore(init, e);
    }
  }

  /** The order of the entries does not matter. */
  lemma TreesAreUnordered(es: seq<Entry>, fs: seq<Entry>, limit: int)
    requires multiset(es) == multiset(fs)
    ensures IsTree(es, limit) <==> IsTree(fs, limit)
  {
    SameElements(es, fs);
    assert |es| == |multiset(es)| == |multiset(fs)| == |fs|;
    DistinctCount(es);
    DistinctCount(fs);
  }

  lemma SameElements(es: seq<Entry>, fs: seq<Entry>)
    requires multiset(es) == multiset(fs)
    ensures Names(es) == Names(fs) && Files(es) == Files(fs) && Above(es) == Above(fs)
  {
    forall e
      ensures e in es <==> e in fs
    {
      assert e in es <==> e in multiset(es);
      assert e in fs <==> e in multiset(fs);
    }
  }

  datatype Node = Directory | File(data: Bytes)

  type FileSystem = map<string, Node>

  /** The tree the entries stand for: the declared files with their bytes, and every directory that
      is declared or needed. */
  ghost function TreeOf(es: seq<Entry>): FileSystem {
    map n | n in Closure(es) ::
      if n in Files(es) then File(DataOf(es, n)) else Directory
  }

  ghost function DataOf(es: seq<Entry>, name: string): Bytes
    requires name in Files(es)
  {
    var e :| e in es && !e.dir && e.name == name;
    e.data
  }

  lemma DataIs(es: seq<Entry>, i: nat)
    requires Distinct(es) && i < |es| && !es[i].dir
    ensures es[i].name in Files(es) && DataOf(es, es[i].name) == es[i].data
  {
    var e := es[i];
    assert e in es;
    var x :| x in es && !x.dir && x.name == e.name && x.data == DataOf(es, e.name);
    var j :| 0 <= j < |es| && es[j] == x;
  }

  /** The tree of one more entry extends the tree so far by that entry and its directories. */
  lemma TreeGrows(es: seq<Entry>, e: Entry, limit: int)
    requires IsTree(es + [e], limit)
    ensures TreeOf(es + [e]) == WithDirectories(TreeOf(es), Ancestors(e.name))
              [e.name := if e.dir then Directory else File(e.data)]
    ensures forall p | p in Ancestors(e.name) && p in TreeOf(es) :: TreeOf(es)[p] == Directory
    ensures e.name in TreeOf(es) ==> e.dir && TreeOf(es)[e.name] == Directory
  {
    hide Distinct, Names, Files, Above, Ancestors, DataOf, Closure;
    IncrementalCheck(es, e, limit);
    OneMoreNode(es, e);
    NodesOf(es);
    NotItsOwnAncestor(e.name);
    var before, after := TreeOf(es), TreeOf(es + [e]);
    var built := WithDirectories(before, Ancestors(e.name))[e.name := if e.dir then Directory else File(e.data)];
    forall n
      ensures n in after <==> n in built
      ensures n in after ==> after[n] == built[n]
    {
      if n in Files(es + [e]) {
        DataKept(es, e, n);
      }
    }
  }

  lemma DataKept(es: seq<Entry>, e: Entry, n: string)
    requires Distinct(es + [e]) && n in Files(es + [e])
    ensures n in Files(es) || (n == e.name && !e.dir)
    ensures DataOf(es + [e], n) == if n == e.name && !e.dir then e.data else DataOf(es, n)
  {
    var more := es + [e];
    DistinctOneMore(es, e);
    OneMoreEntry(es, e);
    if n == e.name && !e.dir {
      DataIs(more, |es|);
    } else {
      var i := IndexOf(es, n);
      assert more[i] == es[i];
      DataIs(es, i);
      DataIs(more, i);
    }
  }

  lemma IndexOf(es: seq<Entry>, name: string) returns (i: nat)
    requires name in Files(es)
    ensures i < |es| && es[i].name == name && !es[i].dir
  {
    var e :| e in es && !e.dir && e.name == name;
    i :| i < |es| && es[i] == e;
  }

  function WithDirectories(t: FileSystem, dirs: set<string>): FileSystem {
    map n | n in t.Keys + dirs :: if n in t then t[n] else Directory
  }

  lemma WithItself(t: FileSystem, dirs: set<string>, name: string)
    requires name in t ==> t[name] == Directory
    ensures WithDirectories(t, dirs + {name}) == WithDirectories(t, dirs)[name := Directory]
  {
  }

  /** A directory on disk that archives are extracted into. The map does not contain the root. */
  class Destination {
    var files: FileSystem

    constructor ()
      ensures files == map[]
    {
      files := map[];
    }

    /** Create the directory and every missing one above it. */
    method MkdirAll(path: string) returns (ok: bool)
      modifies this
      ensures path == "." ==> ok && files == old(files)
      ensures path != "." ==>
                (ok <==> Linkable(path) && forall p | p in Ancestors(path) + {path} && p in old(files) :: old(files)[p] == Directory)
      ensures path != "." && ok ==> files == WithDirectories(old(files), Ancestors(path) + {path})
    {
      if path == "." {
        return true;
      }
      ok := Linkable(path) && forall p | p in Ancestors(path) + {path} && p in files :: files[p] == Directory;
      if ok {
        files := WithDirectories(files, Ancestors(path) + {path});
      }
    }

    /** `O_CREATE|O_EXCL`, then write. */
    method CreateFile(path: string, data: Bytes) returns (ok: bool)
      modifies this
      ensures ok <==>
                && path != "." && Linkable(path) && path !in old(files)
                && (Dir(path) == "." || (Dir(path) in old(files) && old(files)[Dir(path)] == Directory))
      ensures ok ==> files == old(files)[path := File(data)]
    {
      ok := path != "." && Linkable(path) && path !in files
            && (Dir(path) == "." || (Dir(path) in files && files[Dir(path)] == Directory));
      if ok {
        files := files[path := File(data)];
      }
    }

    /** Restore one entry, as both extractors do. */
    method Restore(e: Entry) returns (ok: bool)
      modifies this
      requires ValidPath(e.name)
      requires forall p | p in Ancestors(e.name) && p in files :: files[p] == Directory
      requires e.name in files ==> e.dir && files[e.name] == Directory
      ensures ok <==> (e.name != "." || e.dir) && Linkable(e.name)
      ensures ok && e.name != "." ==>
                files == WithDirectories(old(files), Ancestors(e.name))
                           [e.name := if e.dir then Directory else File(e.data)]
    {
      assert Linkable(".") by { assert FirstSlash(".") == 1; }
      hide Ancestors, LongestElement, LastSlash, Dir, ValidPath, WithDirectories;
      FirstStep(e.name);
      NotItsOwnAncestor(e.name);
      if Linkable(e.name) && Dir(e.name) != "." {
        ParentIsLinkable(e.name);
      }
      if e.dir {
        WithItself(files, Ancestors(e.name), e.name);
        ok := MkdirAll(e.name);
      } else {
        ok := MkdirAll(Dir(e.name));
        if ok {
          ok := CreateFile(e.name, e.data);
        }
      }
    }
  }
}
