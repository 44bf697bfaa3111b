/** Resource limits: which of them are accepted, that checking them cannot overflow, and that the
    sizes derived from accepted limits hold whatever archive is accepted. */
module ResourcePolicy {
  import opened ArchiveTree
  import StagingArchive
  import ArtifactArchive

  newtype int64 = x: int | -0x8000_0000_0000_0000 <= x < 0x8000_0000_0000_0000

  const MAX_INT: int64 := 0x7FFF_FFFF_FFFF_FFFF

  datatype Artifact = Artifact(downloadBytes: int64, extractedBytes: int64, files: int64, nodes: int64)

  datatype Staging = Staging(payloadBytes: int64, entries: int64, archiveBytes: int64)

  datatype Container = Container(tmpfsBytes: int64, helperOverhead: int64)

  datatype Limits = Limits(artifact: Artifact, staging: Staging, container: Container)

  /** `validateNumber` for a count or a size. */
  predicate ValidNumber(n: int64) {
    !(n < 1 || n >= MAX_INT)
  }

  predicate ValidNumbers(l: Limits) {
    && ValidNumber(l.artifact.downloadBytes) && ValidNumber(l.artifact.extractedBytes)
    && ValidNumber(l.artifact.files) && ValidNumber(l.artifact.nodes)
    && ValidNumber(l.staging.payloadBytes) && ValidNumber(l.staging.entries) && ValidNumber(l.staging.archiveBytes)
    && ValidNumber(l.container.tmpfsBytes) && ValidNumber(l.container.helperOverhead)
  }

  predicate ValidStaging(s: Staging)
    requires ValidNumber(s.archiveBytes)
  {
    !(s.archiveBytes < 1024 || s.payloadBytes > s.archiveBytes - 1024)
  }

  /** The size, inode count and memory that a stage of these limits needs, over the integers. */
  function StageBytes(bytes: int64, entries: int64, page: int64): int {
    bytes as int + entries as int * page as int
  }

  function StageInodes(entries: int64): int {
    2 * (entries as int + 1)
  }

  predicate Representable(n: int) {
    n <= MAX_INT as int
  }

  predicate StageFits(bytes: int64, entries: int64, overhead: int64, page: int64) {
    && Representable(StageInodes(entries))
    && Representable(StageBytes(bytes, entries, page) + overhead as int)
  }

  /** One round of `validateCapacity`: every operation stays within 64 bits. */
  function ValidStage(bytes: int64, entries: int64, overhead: int64, page: int64): (ok: bool)
    requires ValidNumber(bytes) && ValidNumber(entries) && ValidNumber(overhead) && page >= 1
    ensures ok <==> StageFits(bytes, entries, overhead, page)
  {
    DivisionBounds(entries as int, MAX_INT as int - bytes as int, page as int);
    if entries > (MAX_INT - bytes) / page || entries > (MAX_INT - 2) / 2 then false
    else
      assert entries as int * page as int <= MAX_INT as int - bytes as int;
      var capacity := bytes + entries * page;
      !(capacity > MAX_INT - overhead)
  }

  lemma DivisionBounds(n: int, total: int, page: int)
    requires page >= 1 && total >= 0
    ensures n > total / page <==> n * page > total
  {
    var q := total / page;
    assert total == q * page + total % page;
    if n > q {
      MoreEntries(q + 1, n, page);
      assert (q + 1) * page == q * page + page;
    } else {
      MoreEntries(n, q, page);
    }
  }

  /** `validateCapacity` rejects exactly the limits from which some size would not fit 64 bits. */
  function ValidCapacity(l: Limits, page: int64): (ok: bool)
    requires ValidNumbers(l) && page >= 1
    ensures ok <==>
            && Representable(l.artifact.downloadBytes as int + l.container.tmpfsBytes as int)
            && StageFits(l.staging.payloadBytes, l.staging.entries, l.container.helperOverhead, page)
            && StageFits(l.artifact.extractedBytes, l.artifact.nodes, l.container.helperOverhead, page)
  {
    && !(l.artifact.downloadBytes > MAX_INT - l.container.tmpfsBytes)
    && ValidStage(l.staging.payloadBytes, l.staging.entries, l.container.helperOverhead, page)
    && ValidStage(l.artifact.extractedBytes, l.artifact.nodes, l.container.helperOverhead, page)
  }

  predicate Validate(l: Limits, page: int64)
    requires page >= 1
  {
    && ValidNumbers(l)
    && l.artifact.nodes >= l.artifact.files
    && ValidStaging(l.staging)
    && ValidCapacity(l, page)
  }

  datatype Capacity = Capacity(bytes: int64, entries: int64)

  /** `stageCapacity`: computed without a check, and without need of one for accepted limits. */
  function StageCapacity(l: Limits, readOnly: bool, page: int64): (c: Capacity)
    requires page >= 1 && Validate(l, page)
    ensures c.bytes as int == (if readOnly then StageBytes(l.artifact.extractedBytes, l.artifact.nodes, page)
                               else StageBytes(l.staging.payloadBytes, l.staging.entries, page))
    ensures Representable(c.bytes as int + l.container.helperOverhead as int)
    ensures Representable(StageInodes(c.entries))
  {
    var bytes := if readOnly then l.artifact.extractedBytes else l.staging.payloadBytes;
    var entries := if readOnly then l.artifact.nodes else l.staging.entries;
    Capacity(bytes + entries * page, entries)
  }

  function RoundedUp(n: int, page: int): int
    requires page >= 1
  {
    (n + page - 1) / page * page
  }

  lemma RoundingCost(n: int, page: int)
    requires page >= 1
    ensures n <= RoundedUp(n, page) < n + page
  {
    var m := n + page - 1;
    assert m == m / page * page + m % page;
  }

  /** What the files take on a filesystem that allocates whole pages. */
  function Occupied(es: seq<Entry>, page: int): int
    requires page >= 1
  {
    if es == [] then 0
    else
      var e := es[|es| - 1];
      Occupied(es[..|es| - 1], page) + if e.dir then 0 else RoundedUp(|e.data|, page)
  }

  function Written(es: seq<Entry>): nat {
    if es == [] then 0
    else
      var e := es[|es| - 1];
      Written(es[..|es| - 1]) + if e.dir then 0 else |e.data|
  }

  lemma {:induction false} OccupiedAtMost(es: seq<Entry>, page: int)
    requires page >= 1
    ensures Occupied(es, page) <= Written(es) + |es| * page
  {
    if es != [] {
      var n := |es| - 1;
      OccupiedAtMost(es[..n], page);
      RoundingCost(|es[n].data|, page);
      assert |es| * page == n * page + page;
    }
  }

  /** A tree of at most `limit` nodes with at most `bytes` bytes in its files fits a stage. */
  lemma TreeFitsStage(es: seq<Entry>, bytes: int64, limit: int64, page: int64)
    requires page >= 1 && IsTree(es, limit as int) && Written(es) <= bytes as int
    ensures Occupied(es, page as int) <= StageBytes(bytes, limit, page)
    // One inode each for the root and every node, and as many for security attributes.
    ensures 2 * (|Closure(es)| + 1) <= StageInodes(limit)
  {
    hide IsTree, Closure, Occupied, Written;
    OccupiedAtMost(es, page as int);
    NodeCount(es, limit as int);
    MoreEntries(|es|, limit as int, page as int);
  }

  lemma MoreEntries(n: int, limit: int, page: int)
    requires n <= limit && page >= 1
    ensures n * page <= limit * page
  {
  }

  lemma NodeCount(es: seq<Entry>, limit: int)
    requires IsTree(es, limit)
    ensures |es| <= |Closure(es)| <= limit
  {
    hide Names, Files, Above;
    DistinctCount(es);
    Smaller(Names(es), Closure(es));
  }

  /** Every file of a staging header carries as many bytes as it declares. */
  predicate SizedHeaders(ds: seq<StagingArchive.Header>) {
    forall h | h in ds :: h.kind != StagingArchive.TypeDir ==> h.size == |h.data|
  }

  lemma {:induction false} WrittenIsTotal(ds: seq<StagingArchive.Header>)
    requires SizedHeaders(ds) && forall h | h in ds :: StagingArchive.ValidHeader(h)
    ensures Written(StagingArchive.Entries(ds)) == StagingArchive.Total(ds)
  {
    if ds != [] {
      var n := |ds| - 1;
      assert ds[n] in ds && forall h | h in ds[..n] :: h in ds;
      assert StagingArchive.Entries(ds)[..n] == StagingArchive.Entries(ds[..n]);
      WrittenIsTotal(ds[..n]);
    }
  }

  /** Any accepted staging archive fits the volume it is imported into, each file rounded up to
      whole pages. */
  lemma AcceptedStagingFits(l: Limits, page: int64, ds: seq<StagingArchive.Header>)
    requires page >= 1 && Validate(l, page) && SizedHeaders(ds)
    requires StagingArchive.Acceptable(ds, StagingArchive.Policy(l.staging.payloadBytes as int, l.staging.entries as int))
    ensures Occupied(StagingArchive.Entries(ds), page as int) <= StageCapacity(l, false, page).bytes as int
    ensures 2 * (|Closure(StagingArchive.Entries(ds))| + 1) <= StageInodes(StageCapacity(l, false, page).entries)
  {
    hide IsTree, Closure, Occupied, Written, StagingArchive.ValidHeader;
    WrittenIsTotal(ds);
    TreeFitsStage(StagingArchive.Entries(ds), l.staging.payloadBytes, l.staging.entries, page);
  }

  lemma {:induction false} WrittenIsPayload(zs: seq<ArtifactArchive.ZipEntry>)
    ensures Written(ArtifactArchive.Entries(zs)) == ArtifactArchive.Payload(zs)
  {
    if zs != [] {
      var n := |zs| - 1;
      assert ArtifactArchive.Entries(zs)[..n] == ArtifactArchive.Entries(zs[..n]);
      WrittenIsPayload(zs[..n]);
    }
  }

  /** Any accepted package fits the read-only volume it is handed over in. */
  lemma AcceptedPackageFits(l: Limits, page: int64, zs: seq<ArtifactArchive.ZipEntry>)
    requires page >= 1 && Validate(l, page)
    requires ArtifactArchive.Acceptable(zs, ArtifactArchive.Policy(l.artifact.files as int, l.artifact.nodes as int,
                                                                   l.artifact.extractedBytes as int))
    ensures Occupied(ArtifactArchive.Entries(zs), page as int) <= StageCapacity(l, true, page).bytes as int
    ensures 2 * (|Closure(ArtifactArchive.Entries(zs))| + 1) <= StageInodes(StageCapacity(l, true, page).entries)
  {
    hide IsTree, Closure, Occupied, Written;
    WrittenIsPayload(zs);
    ArtifactArchive.WithinBudget(zs, l.artifact.extractedBytes as int);
    TreeFitsStage(ArtifactArchive.Entries(zs), l.artifact.extractedBytes, l.artifact.nodes, page);
  }
}
