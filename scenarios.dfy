// Client code that drives the routes in sequence and checks, from the
// contracts alone, their expected outcomes.
module Scenarios {
  import opened Seqs
  import opened Models
  import opened Handlers
  import opened Views
  import opened Statistics

  /** One scan, one file, one static finding: the file becomes detected and the
      statistics report one file with findings and one algorithm. A submission
      for a file that was never registered fails and changes nothing. */
  method SingleFindingScenario() {
    var store := new Store();
    var scan := store.StartScan();
    assert scan == Scan(1);
    var file := store.CreateFile(1, "a.exe", "pe", 1024);
    assert file == Ok(File(1, "a.exe", "pe", 1024, false));
    var row := store.CreateStaticAnalysis(1, 1, Some(16), "RC4", "AA BB", Text, High);
    assert row.Ok? && row.value.detectionId == 1;
    assert store.files == [File(1, "a.exe", "pe", 1024, true)];

    var before := store.State();
    var stats := GetScanStatistics(before);
    assert stats.totalFiles == 1;
    assert Filter(before.files, IsDetected) == before.files;
    assert stats.filesWithFindings == 1;
    assert Names(before.statics) == ["RC4"];
    assert CountOf(before.statics, "RC4") == 1;
    assert stats.topAlgorithms == [AlgorithmStat("RC4", 1)];

    var missing := store.CreateStaticAnalysis(99, 1, Some(0), "AES", "00", Oid, Low);
    assert missing.NotFound?;
    assert store.State() == before;
  }

  /** Two scans and one file registered under the first, with a static
      finding: a submission for the file under the second scan fails, and the
      second scan's top list is empty while the global one is not. */
  method SharedFileScenario() {
    var store := new Store();
    var s1 := store.StartScan();
    var s2 := store.StartScan();
    var file := store.CreateFile(1, "b.bin", "elf", 2048);
    assert file.Ok? && file.value.fileId == 1;
    assert store.links == [FileScan(1, 1)];
    var other := store.CreateStaticAnalysis(1, 2, None, "AES", "x", Text, Medium);
    assert other.NotFound?;
    var row := store.CreateStaticAnalysis(1, 1, None, "AES", "x", Text, Medium);
    assert row.Ok?;
    var db := store.State();
    assert db.statics == [row.value];

    var perScan := GetScanStatisticsByScanId(db, 2);
    assert perScan.Ok?;
    assert StaticsInScan(db, 2) == [];
    assert Names(StaticsInScan(db, 2)) == [];
    assert perScan.value.topAlgorithms == [];
    var global := GetScanStatistics(db);
    assert Names(db.statics) == ["AES"];
    assert |global.topAlgorithms| == 1;
  }

  /** A pair whose only LLM row holds generated code: the code getter answers,
      while the file's detail view lists no LLM entry for the pair. */
  method UnanalysedLlmScenario() {
    var store := new Store();
    var scan := store.StartScan();
    var file := store.CreateFile(1, "c.so", "elf", 10);
    assert file.Ok? && file.value.fileId == 1;
    var code := store.CreateLlmCode(1, 1, "int main() {}");
    assert code.Ok?;
    var db := store.State();
    assert db.llms == [code.value];

    var codes := GetLlmCode(db, 1, 1);
    assert db.llms[0] in db.llms;
    assert codes.Ok?;
    var detail := ReadFileDetails(db, 1);
    assert detail.Ok?;
    var views := detail.value.scans;
    assert forall v :: v in views ==> v.llmResults == [];
  }
}
