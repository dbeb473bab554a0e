// The read-only routes that return rows: the three LLM getters and the
// nested detail views of a file and of the files of a scan.
module Views {
  import opened Seqs
  import opened Models

  // ---------------------------------------------------------------------
  // LLM getters: all LLM rows of one (File_id, Scan_id) pair, each projected
  // onto one text column; NotFound when the pair has no row at all.

  /** The LLM rows of one association, in storage order. */
  function LlmRowsOf(db: Database, fileId: nat, scanId: nat): (r: seq<Llm>)
    ensures forall x :: x in r <==> x in db.llms && x.fileId == fileId && x.scanId == scanId
  {
    Filter(db.llms, (x: Llm) => x.fileId == fileId && x.scanId == scanId)
  }

  function FileTextOf(x: Llm): Option<string> { x.fileText }
  function CodeOf(x: Llm): Option<string> { x.code }
  function LogOf(x: Llm): Option<string> { x.log }

  /** The query shared by the three getters, projected onto `column`. Rows whose
      column is null are returned as None, not skipped. */
  function SelectLlmColumn(db: Database, fileId: nat, scanId: nat, column: Llm -> Option<string>)
    : (r: Result<seq<Option<string>>>)
    ensures r.NotFound? <==> forall x :: x in db.llms ==> !(x.fileId == fileId && x.scanId == scanId)
    ensures r.Ok? ==> |r.value| == |LlmRowsOf(db, fileId, scanId)|
    ensures r.Ok? ==> forall i :: 0 <= i < |r.value| ==> r.value[i] == column(LlmRowsOf(db, fileId, scanId)[i])
    ensures r.Ok? ==> forall v :: v in r.value <==>
              exists x :: x in db.llms && x.fileId == fileId && x.scanId == scanId && column(x) == v
  {
    var rows := LlmRowsOf(db, fileId, scanId);
    if rows == [] then NotFound
    else
      var values := seq(|rows|, i requires 0 <= i < |rows| => column(rows[i]));
      assert rows[0] in rows;
      assert forall v :: v in values ==> exists x :: x in rows && column(x) == v by {
        forall v | v in values ensures exists x :: x in rows && column(x) == v {
          var i :| 0 <= i < |values| && values[i] == v;
          assert rows[i] in rows;
        }
      }
      assert forall x :: x in rows ==> column(x) in values by {
        forall x | x in rows ensures column(x) in values {
          var i :| 0 <= i < |rows| && rows[i] == x;
          assert values[i] == column(x);
        }
      }
      Ok(values)
  }

  /** `GET /files/{file_id}/llm/`. */
  function GetLlmAssembly(db: Database, fileId: nat, scanId: nat): (r: Result<seq<Option<string>>>)
    ensures r.NotFound? <==> forall x :: x in db.llms ==> !(x.fileId == fileId && x.scanId == scanId)
    ensures r.Ok? ==> forall v :: v in r.value <==>
              exists x :: x in db.llms && x.fileId == fileId && x.scanId == scanId && x.fileText == v
  {
    SelectLlmColumn(db, fileId, scanId, FileTextOf)
  }

  /** `GET /files/{file_id}/llm_code/`. */
  function GetLlmCode(db: Database, fileId: nat, scanId: nat): (r: Result<seq<Option<string>>>)
    ensures r.NotFound? <==> forall x :: x in db.llms ==> !(x.fileId == fileId && x.scanId == scanId)
    ensures r.Ok? ==> forall v :: v in r.value <==>
              exists x :: x in db.llms && x.fileId == fileId && x.scanId == scanId && x.code == v
  {
    SelectLlmColumn(db, fileId, scanId, CodeOf)
  }

  /** `GET /files/{file_id}/llm_log/`. */
  function GetLlmLog(db: Database, fileId: nat, scanId: nat): (r: Result<seq<Option<string>>>)
    ensures r.NotFound? <==> forall x :: x in db.llms ==> !(x.fileId == fileId && x.scanId == scanId)
    ensures r.Ok? ==> forall v :: v in r.value <==>
              exists x :: x in db.llms && x.fileId == fileId && x.scanId == scanId && x.log == v
  {
    SelectLlmColumn(db, fileId, scanId, LogOf)
  }

  /** The three getters select the same rows: they fail together, and position
      `i` of each answer is a column of the same row. */
  lemma LlmGettersSelectSameRows(db: Database, fileId: nat, scanId: nat)
    ensures GetLlmAssembly(db, fileId, scanId).NotFound? == GetLlmCode(db, fileId, scanId).NotFound?
    ensures GetLlmCode(db, fileId, scanId).NotFound? == GetLlmLog(db, fileId, scanId).NotFound?
    ensures GetLlmAssembly(db, fileId, scanId).Ok? ==>
      var rows := LlmRowsOf(db, fileId, scanId);
      var a, c, l := GetLlmAssembly(db, fileId, scanId).value, GetLlmCode(db, fileId, scanId).value,
                     GetLlmLog(db, fileId, scanId).value;
      |a| == |c| == |l| == |rows| &&
      forall i :: 0 <= i < |rows| ==> a[i] == rows[i].fileText && c[i] == rows[i].code && l[i] == rows[i].log
  {
  }

  // ---------------------------------------------------------------------
  // Detail views: a file with each of its associations, and within each
  // association its static, dynamic and LLM rows.

  /** One association with its result rows, as the nested view shows it. */
  datatype LinkView = LinkView(
    fileId: nat, scanId: nat,
    staticAnalyses: seq<StaticAnalysis>, dynamicAnalyses: seq<DynamicAnalysis>, llmResults: seq<Llm>)

  /** A file with all of its associations. */
  datatype FileDetail = FileDetail(file: File, scans: seq<LinkView>)

  /** The associations of a file, in storage order. */
  function LinksOf(db: Database, fileId: nat): (r: seq<FileScan>)
    ensures forall l :: l in r <==> l in db.links && l.fileId == fileId
  {
    Filter(db.links, (l: FileScan) => l.fileId == fileId)
  }

  function StaticsOf(db: Database, l: FileScan): seq<StaticAnalysis> {
    Filter(db.statics, (x: StaticAnalysis) => x.fileId == l.fileId && x.scanId == l.scanId)
  }

  function DynamicsOf(db: Database, l: FileScan): seq<DynamicAnalysis> {
    Filter(db.dynamics, (x: DynamicAnalysis) => x.fileId == l.fileId && x.scanId == l.scanId)
  }

  /** An association with its three eagerly loaded relationships. */
  function Load(db: Database, l: FileScan): LinkView {
    LinkView(l.fileId, l.scanId, StaticsOf(db, l), DynamicsOf(db, l), LlmRowsOf(db, l.fileId, l.scanId))
  }

  /** The loaded associations of a file. */
  function LoadScans(db: Database, fileId: nat): (r: seq<LinkView>)
    ensures |r| == |LinksOf(db, fileId)|
    ensures forall i :: 0 <= i < |r| ==> r[i] == Load(db, LinksOf(db, fileId)[i])
  {
    var ls := LinksOf(db, fileId);
    seq(|ls|, i requires 0 <= i < |ls| => Load(db, ls[i]))
  }

  function HasAnalysis(x: Llm): bool { x.llmAnalysis.Some? }

  /** The first file whose id is `fileId`. */
  function FindFile(db: Database, fileId: nat): (r: Option<File>)
    ensures r.None? <==> !HasFile(db.files, fileId)
    ensures r.Some? ==> r.value in db.files && r.value.fileId == fileId
  {
    var matching := Filter(db.files, (x: File) => x.fileId == fileId);
    if matching == [] then None
    else
      assert matching[0] in matching;
      Some(matching[0])
  }

  /** `v` shows association `l`: all of its static rows, all of its dynamic
      rows, and those of its LLM rows that carry an analysis text. */
  ghost predicate Presents(db: Database, l: FileScan, v: LinkView) {
    && v.fileId == l.fileId && v.scanId == l.scanId
    && v.staticAnalyses == StaticsOf(db, l)
    && v.dynamicAnalyses == DynamicsOf(db, l)
    && v.llmResults == Filter(LlmRowsOf(db, l.fileId, l.scanId), HasAnalysis)
  }

  /** `d` shows file `x` with each of its associations, in storage order. */
  ghost predicate PresentsFile(db: Database, x: File, d: FileDetail) {
    var ls := LinksOf(db, x.fileId);
    && d.file == x
    && |d.scans| == |ls|
    && forall i :: 0 <= i < |ls| ==> Presents(db, ls[i], d.scans[i])
  }

  /** A detail view lists exactly the scans the file is associated with. */
  lemma PresentsFileCoversLinks(db: Database, x: File, d: FileDetail)
    requires PresentsFile(db, x, d)
    ensures forall s :: HasLink(db, x.fileId, s) <==> exists v :: v in d.scans && v.scanId == s
  {
  }

  /** In a detail view every LLM entry has a non-null analysis text, every
      result row belongs to the association it is listed under, and the LLM
      entries are among the rows the LLM getters return for that association. */
  lemma PresentsFileShowsAnalysedOnly(db: Database, x: File, d: FileDetail)
    requires PresentsFile(db, x, d)
    ensures forall v, y :: v in d.scans && y in v.llmResults ==>
              y.llmAnalysis.Some? && y in db.llms && y.fileId == x.fileId && y.scanId == v.scanId
    ensures forall v, y :: v in d.scans && y in v.staticAnalyses ==>
              y in db.statics && y.fileId == x.fileId && y.scanId == v.scanId
    ensures forall v, y :: v in d.scans && y in v.dynamicAnalyses ==>
              y in db.dynamics && y.fileId == x.fileId && y.scanId == v.scanId
  {
  }

  /** The loop that replaces each association's LLM list by its analysed
      entries; everything else in the views is kept. */
  method StripUnanalysed(views: seq<LinkView>) returns (r: seq<LinkView>)
    ensures |r| == |views|
    ensures forall i :: 0 <= i < |views| ==> r[i].(llmResults := views[i].llmResults) == views[i]
    ensures forall i :: 0 <= i < |views| ==> r[i].llmResults == Filter(views[i].llmResults, HasAnalysis)
  {
    r := views;
    var i := 0;
    while i < |r|
      invariant 0 <= i <= |r| == |views|
      invariant forall k :: 0 <= k < i ==> r[k] == views[k].(llmResults := Filter(views[k].llmResults, HasAnalysis))
      invariant forall k :: i <= k < |r| ==> r[k] == views[k]
    {
      r := r[i := r[i].(llmResults := Filter(r[i].llmResults, HasAnalysis))];
      i := i + 1;
    }
  }

  /** `GET /files/{file_id}`: NotFound exactly when no file has the id;
      otherwise the file with every association and its filtered results. */
  method ReadFileDetails(db: Database, fileId: nat) returns (r: Result<FileDetail>)
    ensures r.NotFound? <==> !HasFile(db.files, fileId)
    ensures r.Ok? ==> r.value.file in db.files && r.value.file.fileId == fileId
    ensures r.Ok? ==> PresentsFile(db, r.value.file, r.value)
    ensures r.Ok? ==> forall s :: HasLink(db, fileId, s) <==> exists v :: v in r.value.scans && v.scanId == s
    ensures r.Ok? ==> forall v, y :: v in r.value.scans && y in v.llmResults ==> y.llmAnalysis.Some?
  {
    var found := FindFile(db, fileId);
    if found.None? {
      return NotFound;
    }
    var loaded := LoadScans(db, fileId);
    var scans := StripUnanalysed(loaded);
    var detail := FileDetail(found.value, scans);
    assert PresentsFile(db, found.value, detail);
    PresentsFileCoversLinks(db, found.value, detail);
    PresentsFileShowsAnalysedOnly(db, found.value, detail);
    r := Ok(detail);
  }

  /** The files associated with a scan, in storage order (the join of `file`
      with `file-scan` on the scan id). */
  function ScanFiles(db: Database, scanId: nat): (r: seq<File>)
    ensures forall x :: x in r <==> x in db.files && HasLink(db, x.fileId, scanId)
  {
    Filter(db.files, (x: File) => HasLink(db, x.fileId, scanId))
  }

  /** `GET /scans/{scan_id}/files`: NotFound exactly when the scan does not
      exist; otherwise one detail view per associated file (possibly none),
      each listing all of that file's associations, not only this scan's. */
  method ReadScanFiles(db: Database, scanId: nat) returns (r: Result<seq<FileDetail>>)
    ensures r.NotFound? <==> !HasScan(db, scanId)
    ensures r.Ok? ==> |r.value| == |ScanFiles(db, scanId)|
    ensures r.Ok? ==> forall i :: 0 <= i < |r.value| ==> PresentsFile(db, ScanFiles(db, scanId)[i], r.value[i])
    ensures r.Ok? ==> forall x :: x in db.files ==>
              (HasLink(db, x.fileId, scanId) <==> exists d :: d in r.value && d.file == x)
    ensures r.Ok? ==> forall d, v, y :: d in r.value && v in d.scans && y in v.llmResults ==> y.llmAnalysis.Some?
  {
    if Scan(scanId) !in db.scans {
      return NotFound;
    }
    var files := ScanFiles(db, scanId);
    var details := seq(|files|, k requires 0 <= k < |files| => FileDetail(files[k], LoadScans(db, files[k].fileId)));
    var i := 0;
    while i < |details|
      invariant 0 <= i <= |details| == |files|
      invariant forall k :: 0 <= k < i ==> PresentsFile(db, files[k], details[k])
      invariant forall k :: i <= k < |details| ==> details[k] == FileDetail(files[k], LoadScans(db, files[k].fileId))
    {
      var scans := StripUnanalysed(details[i].scans);
      details := details[i := details[i].(scans := scans)];
      i := i + 1;
    }
    forall x | x in db.files ensures HasLink(db, x.fileId, scanId) <==> exists d :: d in details && d.file == x {
      if HasLink(db, x.fileId, scanId) {
        var k :| 0 <= k < |files| && files[k] == x;
        assert details[k] in details;
      }
    }
    forall d | d in details ensures forall v, y :: v in d.scans && y in v.llmResults ==> y.llmAnalysis.Some? {
      var k :| 0 <= k < |details| && details[k] == d;
      PresentsFileShowsAnalysedOnly(db, files[k], d);
    }
    r := Ok(details);
  }
}
