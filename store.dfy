// The state-changing routes of the application: opening a scan, registering
// a file into a scan and the five kinds of analysis submission. The database
// session becomes one in-memory store whose fields are the six tables and
// their auto-increment counters; each route is a method that either appends
// exactly the rows the route inserts or fails with NotFound and changes nothing.
module Handlers {
  import opened Seqs
  import opened Models

  class Store {
    var files: seq<File>
    var scans: seq<Scan>
    var links: seq<FileScan>
    var statics: seq<StaticAnalysis>
    var dynamics: seq<DynamicAnalysis>
    var llms: seq<Llm>
    var nextFileId: nat
    var nextScanId: nat
    var nextStaticId: nat
    var nextDynamicId: nat
    var nextLlmId: nat

    /** The store as a value of the schema. */
    function State(): Database
      reads this
    {
      Database(files, scans, links, statics, dynamics, llms,
               nextFileId, nextScanId, nextStaticId, nextDynamicId, nextLlmId)
    }

    ghost predicate Valid()
      reads this
    {
      Models.Valid(State())
    }

    /** A freshly created schema. */
    constructor ()
      ensures Valid() && State() == Empty()
    {
      files, scans, links := [], [], [];
      statics, dynamics, llms := [], [], [];
      nextFileId, nextScanId, nextStaticId, nextDynamicId, nextLlmId := 1, 1, 1, 1, 1;
    }

    /** `POST /scans/`: inserts one scan with the next scan id. */
    method StartScan() returns (scan: Scan)
      requires Valid()
      modifies this
      ensures Valid()
      ensures scan.scanId == old(nextScanId) && !HasScan(old(State()), scan.scanId)
      ensures State() == old(State()).(scans := old(scans) + [scan], nextScanId := old(nextScanId) + 1)
    {
      scan := Scan(nextScanId);
      AppendFresh(scans, ScanKey, nextScanId, scan);
      scans := scans + [scan];
      nextScanId := nextScanId + 1;
    }

    /** `POST /files/`: fails when the scan does not exist; otherwise inserts a
        file with the next file id and `is_detected` false, together with its
        association to the scan. */
    method CreateFile(scanId: nat, fileName: string, fileType: string, fileSize: int) returns (r: Result<File>)
      requires Valid()
      modifies this
      ensures Valid()
      ensures r.NotFound? <==> !HasScan(old(State()), scanId)
      ensures r.NotFound? ==> State() == old(State())
      ensures r.Ok? ==> r.value == File(old(nextFileId), fileName, fileType, fileSize, false)
      ensures r.Ok? ==> !HasFile(old(files), r.value.fileId)
      ensures r.Ok? ==> State() == old(State()).(
                files := old(files) + [r.value],
                links := old(links) + [FileScan(r.value.fileId, scanId)],
                nextFileId := old(nextFileId) + 1)
      ensures DetectedMonotone(old(files), files)
    {
      if Scan(scanId) !in scans {
        return NotFound;
      }
      var file := File(nextFileId, fileName, fileType, fileSize, false);
      var link := FileScan(file.fileId, scanId);
      AppendFresh(files, FileKey, nextFileId, file);
      LinkFilesBelow(State());
      AppendKeysUnique(links, LinkKey, link);
      files := files + [file];
      links := links + [link];
      nextFileId := nextFileId + 1;
      r := Ok(file);
    }

    /** `POST /files/{file_id}/static/`: fails when the association is missing;
        otherwise inserts one static row and marks the file as detected. */
    method CreateStaticAnalysis(
      fileId: nat, scanId: nat, offset: Option<int>, algorithmName: string,
      matched: string, detectionMethod: DetectionMethod, severity: Severity)
      returns (r: Result<StaticAnalysis>)
      requires Valid()
      modifies this
      ensures Valid()
      ensures r.NotFound? <==> !HasLink(old(State()), fileId, scanId)
      ensures r.NotFound? ==> State() == old(State())
      ensures r.Ok? ==> r.value == StaticAnalysis(old(nextStaticId), fileId, scanId, offset,
                                                  algorithmName, matched, detectionMethod, severity)
      ensures r.Ok? ==> forall x :: x in old(statics) ==> x.detectionId != r.value.detectionId
      ensures r.Ok? ==> State() == old(State()).(
                files := MarkDetected(old(files), fileId),
                statics := old(statics) + [r.value],
                nextStaticId := old(nextStaticId) + 1)
      ensures DetectedMonotone(old(files), files)
    {
      if FileScan(fileId, scanId) !in links {
        return NotFound;
      }
      var row := StaticAnalysis(nextStaticId, fileId, scanId, offset, algorithmName, matched, detectionMethod, severity);
      AppendFresh(statics, StaticKey, nextStaticId, row);
      MarkDetectedValid(State(), fileId);
      MarkDetectedMonotone(files, fileId);
      statics := statics + [row];
      nextStaticId := nextStaticId + 1;
      files := MarkDetected(files, fileId);
      r := Ok(row);
    }

    /** `POST /files/{file_id}/dynamic/`: fails when the association is missing;
        otherwise inserts one dynamic row and marks the file as detected. */
    method CreateDynamicAnalysis(
      fileId: nat, scanId: nat, parameter: Option<string>, algorithmName: Option<string>,
      api: Option<string>, keyLength: Option<int>)
      returns (r: Result<DynamicAnalysis>)
      requires Valid()
      modifies this
      ensures Valid()
      ensures r.NotFound? <==> !HasLink(old(State()), fileId, scanId)
      ensures r.NotFound? ==> State() == old(State())
      ensures r.Ok? ==> r.value == DynamicAnalysis(old(nextDynamicId), fileId, scanId,
                                                   parameter, algorithmName, api, keyLength)
      ensures r.Ok? ==> forall x :: x in old(dynamics) ==> x.detectionId != r.value.detectionId
      ensures r.Ok? ==> State() == old(State()).(
                files := MarkDetected(old(files), fileId),
                dynamics := old(dynamics) + [r.value],
                nextDynamicId := old(nextDynamicId) + 1)
      ensures DetectedMonotone(old(files), files)
    {
      if FileScan(fileId, scanId) !in links {
        return NotFound;
      }
      var row := DynamicAnalysis(nextDynamicId, fileId, scanId, parameter, algorithmName, api, keyLength);
      AppendFresh(dynamics, DynamicKey, nextDynamicId, row);
      MarkDetectedValid(State(), fileId);
      MarkDetectedMonotone(files, fileId);
      dynamics := dynamics + [row];
      nextDynamicId := nextDynamicId + 1;
      files := MarkDetected(files, fileId);
      r := Ok(row);
    }

    /** Appends one LLM row for an existing association; shared by the four
        LLM submission routes, which differ only in the column they fill and
        in whether they mark the file as detected. */
    method InsertLlm(row: Llm)
      requires Valid()
      requires row.analysisId == nextLlmId && HasLink(State(), row.fileId, row.scanId)
      modifies this
      ensures Valid()
      ensures forall x :: x in old(llms) ==> x.analysisId != row.analysisId
      ensures State() == old(State()).(llms := old(llms) + [row], nextLlmId := old(nextLlmId) + 1)
    {
      AppendFresh(llms, LlmKey, nextLlmId, row);
      llms := llms + [row];
      nextLlmId := nextLlmId + 1;
    }

    /** `POST /files/{file_id}/llm/`: stores the assembly text in a new LLM row;
        does not touch any `is_detected` flag. */
    method CreateLlmResult(fileId: nat, scanId: nat, fileText: string) returns (r: Result<Llm>)
      requires Valid()
      modifies this
      ensures Valid()
      ensures r.NotFound? <==> !HasLink(old(State()), fileId, scanId)
      ensures r.NotFound? ==> State() == old(State())
      ensures r.Ok? ==> r.value == Llm(old(nextLlmId), fileId, scanId, Some(fileText), None, None, None)
      ensures r.Ok? ==> forall x :: x in old(llms) ==> x.analysisId != r.value.analysisId
      ensures r.Ok? ==> State() == old(State()).(llms := old(llms) + [r.value], nextLlmId := old(nextLlmId) + 1)
      ensures files == old(files)
    {
      if FileScan(fileId, scanId) !in links {
        return NotFound;
      }
      var row := Llm(nextLlmId, fileId, scanId, Some(fileText), None, None, None);
      InsertLlm(row);
      r := Ok(row);
    }

    /** `POST /files/{file_id}/llm_analysis/`: stores the analysis text in a new
        LLM row and marks the file as detected. */
    method CreateLlmAnalysis(fileId: nat, scanId: nat, analysis: string) returns (r: Result<Llm>)
      requires Valid()
      modifies this
      ensures Valid()
      ensures r.NotFound? <==> !HasLink(old(State()), fileId, scanId)
      ensures r.NotFound? ==> State() == old(State())
      ensures r.Ok? ==> r.value == Llm(old(nextLlmId), fileId, scanId, None, Some(analysis), None, None)
      ensures r.Ok? ==> forall x :: x in old(llms) ==> x.analysisId != r.value.analysisId
      ensures r.Ok? ==> State() == old(State()).(
                files := MarkDetected(old(files), fileId),
                llms := old(llms) + [r.value],
                nextLlmId := old(nextLlmId) + 1)
      ensures DetectedMonotone(old(files), files)
    {
      if FileScan(fileId, scanId) !in links {
        return NotFound;
      }
      var row := Llm(nextLlmId, fileId, scanId, None, Some(analysis), None, None);
      InsertLlm(row);
      MarkDetectedValid(State(), fileId);
      MarkDetectedMonotone(files, fileId);
      files := MarkDetected(files, fileId);
      r := Ok(row);
    }

    /** `POST /files/{file_id}/llm_code/`: stores generated code in a new LLM
        row; does not touch any `is_detected` flag. */
    method CreateLlmCode(fileId: nat, scanId: nat, code: string) returns (r: Result<Llm>)
      requires Valid()
      modifies this
      ensures Valid()
      ensures r.NotFound? <==> !HasLink(old(State()), fileId, scanId)
      ensures r.NotFound? ==> State() == old(State())
      ensures r.Ok? ==> r.value == Llm(old(nextLlmId), fileId, scanId, None, None, Some(code), None)
      ensures r.Ok? ==> forall x :: x in old(llms) ==> x.analysisId != r.value.analysisId
      ensures r.Ok? ==> State() == old(State()).(llms := old(llms) + [r.value], nextLlmId := old(nextLlmId) + 1)
      ensures files == old(files)
    {
      if FileScan(fileId, scanId) !in links {
        return NotFound;
      }
      var row := Llm(nextLlmId, fileId, scanId, None, None, Some(code), None);
      InsertLlm(row);
      r := Ok(row);
    }

    /** `POST /files/{file_id}/llm_log/`: stores an execution log in a new LLM
        row; does not touch any `is_detected` flag. */
    method CreateLlmLog(fileId: nat, scanId: nat, log: string) returns (r: Result<Llm>)
      requires Valid()
      modifies this
      ensures Valid()
      ensures r.NotFound? <==> !HasLink(old(State()), fileId, scanId)
      ensures r.NotFound? ==> State() == old(State())
      ensures r.Ok? ==> r.value == Llm(old(nextLlmId), fileId, scanId, None, None, None, Some(log))
      ensures r.Ok? ==> forall x :: x in old(llms) ==> x.analysisId != r.value.analysisId
      ensures r.Ok? ==> State() == old(State()).(llms := old(llms) + [r.value], nextLlmId := old(nextLlmId) + 1)
      ensures files == old(files)
    {
      if FileScan(fileId, scanId) !in links {
        return NotFound;
      }
      var row := Llm(nextLlmId, fileId, scanId, None, None, None, Some(log));
      InsertLlm(row);
      r := Ok(row);
    }
  }
}
