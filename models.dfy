// The relational schema of the analysis store: the six tables, their
// primary keys, foreign keys, enumerated columns, nullable columns and
// cascade-delete rules, as one value `Database` and a predicate `Valid`.
module Models {
  import opened Seqs

  datatype Option<T> = None | Some(value: T)

  /** Outcome of a route handler: a value, or the 404 "not found" failure. */
  datatype Result<T> = Ok(value: T) | NotFound

  /** The closed set of the Detection_method column. */
  datatype DetectionMethod = Text | Oid | Parameter

  /** The closed set of the Severity column. */
  datatype Severity = High | Medium | Low

  /** A row of table `file`; every column is non-null. */
  datatype File = File(fileId: nat, fileName: string, fileType: string, fileSize: int, isDetected: bool)

  /** A row of table `scan`; the server-assigned Scan_at timestamp is not modelled. */
  datatype Scan = Scan(scanId: nat)

  /** A row of table `file-scan`; the pair is the composite primary key. */
  datatype FileScan = FileScan(fileId: nat, scanId: nat)

  /** A row of table `static_analysis`; only the offset is nullable. */
  datatype StaticAnalysis = StaticAnalysis(
    detectionId: nat, fileId: nat, scanId: nat,
    offset: Option<int>, algorithmName: string, matched: string,
    detectionMethod: DetectionMethod, severity: Severity)

  /** A row of table `dynamic_analysis`; all four payload columns are nullable. */
  datatype DynamicAnalysis = DynamicAnalysis(
    detectionId: nat, fileId: nat, scanId: nat,
    parameter: Option<string>, algorithmName: Option<string>,
    api: Option<string>, keyLength: Option<int>)

  /** A row of table `llm`; the four text columns are independently nullable. */
  datatype Llm = Llm(
    analysisId: nat, fileId: nat, scanId: nat,
    fileText: Option<string>, llmAnalysis: Option<string>,
    code: Option<string>, log: Option<string>)

  /** The whole store: the six tables in storage order and the next value of
      each auto-increment counter. */
  datatype Database = Database(
    files: seq<File>, scans: seq<Scan>, links: seq<FileScan>,
    statics: seq<StaticAnalysis>, dynamics: seq<DynamicAnalysis>, llms: seq<Llm>,
    nextFileId: nat, nextScanId: nat, nextStaticId: nat, nextDynamicId: nat, nextLlmId: nat)

  // Primary-key columns of the tables.
  function FileKey(x: File): nat { x.fileId }
  function ScanKey(x: Scan): nat { x.scanId }
  function LinkKey(x: FileScan): FileScan { x }
  function StaticKey(x: StaticAnalysis): nat { x.detectionId }
  function DynamicKey(x: DynamicAnalysis): nat { x.detectionId }
  function LlmKey(x: Llm): nat { x.analysisId }

  predicate HasFile(files: seq<File>, id: nat) {
    exists x :: x in files && x.fileId == id
  }

  predicate HasScan(db: Database, id: nat) {
    Scan(id) in db.scans
  }

  predicate HasLink(db: Database, fileId: nat, scanId: nat) {
    FileScan(fileId, scanId) in db.links
  }

  /** The schema's integrity constraints. The enumerated and non-null columns
      hold by the types above; what remains are the keys and foreign keys. */
  ghost predicate Valid(db: Database)
    // Through its association, every result row references an existing file
    // and an existing scan.
    ensures Valid(db) ==> forall r :: r in db.statics ==> HasFile(db.files, r.fileId) && HasScan(db, r.scanId)
    ensures Valid(db) ==> forall r :: r in db.dynamics ==> HasFile(db.files, r.fileId) && HasScan(db, r.scanId)
    ensures Valid(db) ==> forall r :: r in db.llms ==> HasFile(db.files, r.fileId) && HasScan(db, r.scanId)
  {
    // Primary keys, each generated by its auto-increment counter.
    && 0 < db.nextFileId && KeysUnique(db.files, FileKey) && KeysBelow(db.files, FileKey, db.nextFileId)
    && 0 < db.nextScanId && KeysUnique(db.scans, ScanKey) && KeysBelow(db.scans, ScanKey, db.nextScanId)
    && 0 < db.nextStaticId && KeysUnique(db.statics, StaticKey) && KeysBelow(db.statics, StaticKey, db.nextStaticId)
    && 0 < db.nextDynamicId && KeysUnique(db.dynamics, DynamicKey) && KeysBelow(db.dynamics, DynamicKey, db.nextDynamicId)
    && 0 < db.nextLlmId && KeysUnique(db.llms, LlmKey) && KeysBelow(db.llms, LlmKey, db.nextLlmId)
    // At most one association per (File_id, Scan_id).
    && KeysUnique(db.links, LinkKey)
    // An association references an existing file and an existing scan.
    && (forall l :: l in db.links ==> HasFile(db.files, l.fileId) && HasScan(db, l.scanId))
    // Every result row references an existing association.
    && (forall r :: r in db.statics ==> HasLink(db, r.fileId, r.scanId))
    && (forall r :: r in db.dynamics ==> HasLink(db, r.fileId, r.scanId))
    && (forall r :: r in db.llms ==> HasLink(db, r.fileId, r.scanId))
  }

  /** The freshly created schema: empty tables, every counter at 1. */
  function Empty(): (db: Database)
    ensures Valid(db)
    ensures db.files == [] && db.scans == [] && db.links == []
  {
    Database([], [], [], [], [], [], 1, 1, 1, 1, 1)
  }

  /** Every association's file id was issued by the file counter, so a newly
      issued file id has no association yet. */
  lemma LinkFilesBelow(db: Database)
    requires Valid(db)
    ensures forall l :: l in db.links ==> l.fileId < db.nextFileId
  {
  }

  /** The bulk update `is_detected = true` of the rows whose File_id is `f`. */
  function MarkDetected(files: seq<File>, f: nat): (r: seq<File>)
    ensures |r| == |files|
    ensures forall i :: 0 <= i < |files| ==> r[i].(isDetected := files[i].isDetected) == files[i]
    ensures forall i :: 0 <= i < |files| ==> r[i].isDetected == (files[i].isDetected || files[i].fileId == f)
  {
    seq(|files|, i requires 0 <= i < |files| =>
      if files[i].fileId == f then files[i].(isDetected := true) else files[i])
  }

  /** No file disappears, changes id, or has its flag cleared. */
  predicate DetectedMonotone(before: seq<File>, after: seq<File>) {
    && |before| <= |after|
    && forall i :: 0 <= i < |before| ==>
         after[i].fileId == before[i].fileId && (before[i].isDetected ==> after[i].isDetected)
  }

  lemma MarkDetectedMonotone(files: seq<File>, f: nat)
    ensures DetectedMonotone(files, MarkDetected(files, f))
  {
  }

  /** Marking a file as detected keeps every integrity constraint. */
  lemma MarkDetectedValid(db: Database, f: nat)
    requires Valid(db)
    ensures Valid(db.(files := MarkDetected(db.files, f)))
  {
    var files := MarkDetected(db.files, f);
    var db' := db.(files := files);
    forall i, j | 0 <= i < j < |files| ensures FileKey(files[i]) != FileKey(files[j]) {
      assert files[i].fileId == db.files[i].fileId && files[j].fileId == db.files[j].fileId;
    }
    forall y | y in files ensures 0 < FileKey(y) < db.nextFileId {
      var i :| 0 <= i < |files| && files[i] == y;
      assert db.files[i] in db.files;
    }
    forall l | l in db.links ensures HasFile(files, l.fileId) {
      var x :| x in db.files && x.fileId == l.fileId;
      var i :| 0 <= i < |db.files| && db.files[i] == x;
      assert files[i] in files && files[i].fileId == l.fileId;
    }
    assert Valid(db');
  }

  // ---------------------------------------------------------------------
  // Cascade deletes. Removing an association removes its result rows;
  // removing a file or a scan removes its associations, and through them
  // their result rows.

  function DeleteFileScan(db: Database, f: nat, s: nat): (r: Database)
    ensures !HasLink(r, f, s)
    ensures forall l :: l in r.links <==> l in db.links && l != FileScan(f, s)
    ensures forall x :: x in r.statics <==> x in db.statics && !(x.fileId == f && x.scanId == s)
    ensures forall x :: x in r.dynamics <==> x in db.dynamics && !(x.fileId == f && x.scanId == s)
    ensures forall x :: x in r.llms <==> x in db.llms && !(x.fileId == f && x.scanId == s)
    ensures r.files == db.files && r.scans == db.scans
    ensures r.nextFileId == db.nextFileId && r.nextScanId == db.nextScanId && r.nextStaticId == db.nextStaticId
    ensures r.nextDynamicId == db.nextDynamicId && r.nextLlmId == db.nextLlmId
  {
    db.(links := Filter(db.links, (l: FileScan) => l != FileScan(f, s)),
        statics := Filter(db.statics, (x: StaticAnalysis) => !(x.fileId == f && x.scanId == s)),
        dynamics := Filter(db.dynamics, (x: DynamicAnalysis) => !(x.fileId == f && x.scanId == s)),
        llms := Filter(db.llms, (x: Llm) => !(x.fileId == f && x.scanId == s)))
  }

  function DeleteFile(db: Database, f: nat): (r: Database)
    ensures !HasFile(r.files, f)
    ensures forall x :: x in r.files <==> x in db.files && x.fileId != f
    ensures forall l :: l in r.links <==> l in db.links && l.fileId != f
    ensures forall x :: x in r.statics <==> x in db.statics && x.fileId != f
    ensures forall x :: x in r.dynamics <==> x in db.dynamics && x.fileId != f
    ensures forall x :: x in r.llms <==> x in db.llms && x.fileId != f
    ensures r.scans == db.scans
    ensures r.nextFileId == db.nextFileId && r.nextScanId == db.nextScanId && r.nextStaticId == db.nextStaticId
    ensures r.nextDynamicId == db.nextDynamicId && r.nextLlmId == db.nextLlmId
  {
    db.(files := Filter(db.files, (x: File) => x.fileId != f),
        links := Filter(db.links, (l: FileScan) => l.fileId != f),
        statics := Filter(db.statics, (x: StaticAnalysis) => x.fileId != f),
        dynamics := Filter(db.dynamics, (x: DynamicAnalysis) => x.fileId != f),
        llms := Filter(db.llms, (x: Llm) => x.fileId != f))
  }

  function DeleteScan(db: Database, s: nat): (r: Database)
    ensures !HasScan(r, s)
    ensures forall x :: x in r.scans <==> x in db.scans && x.scanId != s
    ensures forall l :: l in r.links <==> l in db.links && l.scanId != s
    ensures forall x :: x in r.statics <==> x in db.statics && x.scanId != s
    ensures forall x :: x in r.dynamics <==> x in db.dynamics && x.scanId != s
    ensures forall x :: x in r.llms <==> x in db.llms && x.scanId != s
    ensures r.files == db.files
    ensures r.nextFileId == db.nextFileId && r.nextScanId == db.nextScanId && r.nextStaticId == db.nextStaticId
    ensures r.nextDynamicId == db.nextDynamicId && r.nextLlmId == db.nextLlmId
  {
    db.(scans := Filter(db.scans, (x: Scan) => x.scanId != s),
        links := Filter(db.links, (l: FileScan) => l.scanId != s),
        statics := Filter(db.statics, (x: StaticAnalysis) => x.scanId != s),
        dynamics := Filter(db.dynamics, (x: DynamicAnalysis) => x.scanId != s),
        llms := Filter(db.llms, (x: Llm) => x.scanId != s))
  }

  /** The result of a delete keeps the primary keys of `db` when each of its
      tables is a selection of the corresponding table of `db`. */
  lemma SelectionKeepsKeys(db: Database, r: Database)
    requires Valid(db)
    requires r.nextFileId == db.nextFileId && r.nextScanId == db.nextScanId
    requires r.nextStaticId == db.nextStaticId && r.nextDynamicId == db.nextDynamicId
    requires r.nextLlmId == db.nextLlmId
    requires KeysUnique(r.files, FileKey) && KeysUnique(r.scans, ScanKey) && KeysUnique(r.links, LinkKey)
    requires KeysUnique(r.statics, StaticKey) && KeysUnique(r.dynamics, DynamicKey) && KeysUnique(r.llms, LlmKey)
    requires forall x :: x in r.files ==> x in db.files
    requires forall x :: x in r.scans ==> x in db.scans
    requires forall x :: x in r.statics ==> x in db.statics
    requires forall x :: x in r.dynamics ==> x in db.dynamics
    requires forall x :: x in r.llms ==> x in db.llms
    ensures KeysBelow(r.files, FileKey, r.nextFileId) && KeysBelow(r.scans, ScanKey, r.nextScanId)
    ensures KeysBelow(r.statics, StaticKey, r.nextStaticId) && KeysBelow(r.dynamics, DynamicKey, r.nextDynamicId)
    ensures KeysBelow(r.llms, LlmKey, r.nextLlmId)
  {
  }

  lemma DeleteFileScanValid(db: Database, f: nat, s: nat)
    requires Valid(db)
    ensures Valid(DeleteFileScan(db, f, s))
  {
    var r := DeleteFileScan(db, f, s);
    FilterKeysUnique(db.links, (l: FileScan) => l != FileScan(f, s), LinkKey);
    FilterKeysUnique(db.statics, (x: StaticAnalysis) => !(x.fileId == f && x.scanId == s), StaticKey);
    FilterKeysUnique(db.dynamics, (x: DynamicAnalysis) => !(x.fileId == f && x.scanId == s), DynamicKey);
    FilterKeysUnique(db.llms, (x: Llm) => !(x.fileId == f && x.scanId == s), LlmKey);
    SelectionKeepsKeys(db, r);
    assert forall l :: l in r.links ==> HasFile(r.files, l.fileId) && HasScan(r, l.scanId);
    assert forall x :: x in r.statics ==> HasLink(r, x.fileId, x.scanId);
    assert forall x :: x in r.dynamics ==> HasLink(r, x.fileId, x.scanId);
    assert forall x :: x in r.llms ==> HasLink(r, x.fileId, x.scanId);
  }

  lemma DeleteFileValid(db: Database, f: nat)
    requires Valid(db)
    ensures Valid(DeleteFile(db, f))
  {
    var r := DeleteFile(db, f);
    FilterKeysUnique(db.files, (x: File) => x.fileId != f, FileKey);
    FilterKeysUnique(db.links, (l: FileScan) => l.fileId != f, LinkKey);
    FilterKeysUnique(db.statics, (x: StaticAnalysis) => x.fileId != f, StaticKey);
    FilterKeysUnique(db.dynamics, (x: DynamicAnalysis) => x.fileId != f, DynamicKey);
    FilterKeysUnique(db.llms, (x: Llm) => x.fileId != f, LlmKey);
    SelectionKeepsKeys(db, r);
    forall l | l in r.links ensures HasFile(r.files, l.fileId) && HasScan(r, l.scanId) {
      var x :| x in db.files && x.fileId == l.fileId;
      assert x in r.files;
    }
    assert forall x :: x in r.statics ==> HasLink(r, x.fileId, x.scanId);
    assert forall x :: x in r.dynamics ==> HasLink(r, x.fileId, x.scanId);
    assert forall x :: x in r.llms ==> HasLink(r, x.fileId, x.scanId);
  }

  lemma DeleteScanValid(db: Database, s: nat)
    requires Valid(db)
    ensures Valid(DeleteScan(db, s))
  {
    var r := DeleteScan(db, s);
    FilterKeysUnique(db.scans, (x: Scan) => x.scanId != s, ScanKey);
    FilterKeysUnique(db.links, (l: FileScan) => l.scanId != s, LinkKey);
    FilterKeysUnique(db.statics, (x: StaticAnalysis) => x.scanId != s, StaticKey);
    FilterKeysUnique(db.dynamics, (x: DynamicAnalysis) => x.scanId != s, DynamicKey);
    FilterKeysUnique(db.llms, (x: Llm) => x.scanId != s, LlmKey);
    SelectionKeepsKeys(db, r);
    assert forall l :: l in r.links ==> HasFile(r.files, l.fileId) && HasScan(r, l.scanId);
    assert forall x :: x in r.statics ==> HasLink(r, x.fileId, x.scanId);
    assert forall x :: x in r.dynamics ==> HasLink(r, x.fileId, x.scanId);
    assert forall x :: x in r.llms ==> HasLink(r, x.fileId, x.scanId);
  }

  // ---------------------------------------------------------------------
  // The enumerated columns store strings; these are their closed sets.

  function DetectionMethodName(m: DetectionMethod): string {
    match m
    case Text => "text"
    case Oid => "oid"
    case Parameter => "parameter"
  }

  /** What the Detection_method column accepts: exactly the three names. */
  function ParseDetectionMethod(s: string): (r: Option<DetectionMethod>)
    ensures r.Some? <==> s == "text" || s == "oid" || s == "parameter"
    ensures r.Some? ==> DetectionMethodName(r.value) == s
  {
    if s == "text" then Some(Text)
    else if s == "oid" then Some(Oid)
    else if s == "parameter" then Some(Parameter)
    else None
  }

  function SeverityName(v: Severity): string {
    match v
    case High => "high"
    case Medium => "medium"
    case Low => "low"
  }

  /** What the Severity column accepts: exactly the three names. */
  function ParseSeverity(s: string): (r: Option<Severity>)
    ensures r.Some? <==> s == "high" || s == "medium" || s == "low"
    ensures r.Some? ==> SeverityName(r.value) == s
  {
    if s == "high" then Some(High)
    else if s == "medium" then Some(Medium)
    else if s == "low" then Some(Low)
    else None
  }

  lemma EnumNamesRoundTrip(m: DetectionMethod, v: Severity)
    ensures ParseDetectionMethod(DetectionMethodName(m)) == Some(m)
    ensures ParseSeverity(SeverityName(v)) == Some(v)
  {
  }
}
