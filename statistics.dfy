// The statistics routes: file counts and the ten most frequent static
// detection algorithms, over the whole store or one scan.
module Statistics {
  import opened Seqs
  import opened Models
  import opened Views

  /** One group of the GROUP BY Algorithm_name query. */
  datatype AlgorithmStat = AlgorithmStat(algorithmName: string, count: nat)

  datatype Stats = Stats(totalFiles: nat, filesWithFindings: nat, topAlgorithms: seq<AlgorithmStat>)

  /** How many of `rows` carry the algorithm name `name`. */
  function CountOf(rows: seq<StaticAnalysis>, name: string): nat {
    |Filter(rows, (x: StaticAnalysis) => x.algorithmName == name)|
  }

  lemma CountOfPositive(rows: seq<StaticAnalysis>, x: StaticAnalysis)
    requires x in rows
    ensures CountOf(rows, x.algorithmName) > 0
  {
  }

  predicate NamesDistinct(s: seq<string>) {
    forall i, j :: 0 <= i < j < |s| ==> s[i] != s[j]
  }

  /** The distinct algorithm names of `rows`: the groups of the query. */
  function Names(rows: seq<StaticAnalysis>): (r: seq<string>)
    ensures NamesDistinct(r)
    ensures forall n :: n in r <==> exists x :: x in rows && x.algorithmName == n
  {
    if rows == [] then []
    else
      var rest := Names(rows[1..]);
      assert forall x :: x in rows <==> x == rows[0] || x in rows[1..];
      if rows[0].algorithmName in rest then rest
      else
        var r := [rows[0].algorithmName] + rest;
        assert forall i, j :: 0 < i < j < |r| ==> r[i] == rest[i - 1] && r[j] == rest[j - 1];
        assert forall j :: 0 < j < |r| ==> r[j] in rest;
        r
  }

  /** Each group with its size, in the order of `Names`. */
  function Groups(rows: seq<StaticAnalysis>): (r: seq<AlgorithmStat>)
    ensures |r| == |Names(rows)|
    ensures forall i :: 0 <= i < |r| ==> r[i] == AlgorithmStat(Names(rows)[i], CountOf(rows, Names(rows)[i]))
    ensures GroupNamesDistinct(r)
    ensures forall g :: g in r ==> g.count > 0
  {
    var names := Names(rows);
    forall n | n in names ensures CountOf(rows, n) > 0 {
      var x :| x in rows && x.algorithmName == n;
      CountOfPositive(rows, x);
    }
    seq(|names|, i requires 0 <= i < |names| => AlgorithmStat(names[i], CountOf(rows, names[i])))
  }

  predicate NonIncreasing(s: seq<AlgorithmStat>) {
    forall i, j :: 0 <= i < j < |s| ==> s[i].count >= s[j].count
  }

  predicate GroupNamesDistinct(s: seq<AlgorithmStat>) {
    forall i, j :: 0 <= i < j < |s| ==> s[i].algorithmName != s[j].algorithmName
  }

  /** Inserts `x` before the first entry whose count is not larger. */
  function Insert(x: AlgorithmStat, s: seq<AlgorithmStat>): (r: seq<AlgorithmStat>)
    ensures |r| == |s| + 1
    ensures forall y :: y in r <==> y == x || y in s
    ensures multiset(r) == multiset(s) + multiset{x}
  {
    if s == [] then [x]
    else if x.count >= s[0].count then [x] + s
    else
      assert s == [s[0]] + s[1..];
      assert forall y :: y in s <==> y == s[0] || y in s[1..];
      [s[0]] + Insert(x, s[1..])
  }

  lemma {:induction false} InsertNonIncreasing(x: AlgorithmStat, s: seq<AlgorithmStat>)
    requires NonIncreasing(s)
    ensures NonIncreasing(Insert(x, s))
  {
    var r := Insert(x, s);
    if s == [] {
    } else if x.count >= s[0].count {
      forall i, j | 0 <= i < j < |r| ensures r[i].count >= r[j].count {
        assert r[j] == s[j - 1];
        if i > 0 { assert r[i] == s[i - 1]; }
      }
    } else {
      var tail := s[1..];
      assert NonIncreasing(tail) by {
        forall i, j | 0 <= i < j < |tail| ensures tail[i].count >= tail[j].count {
          assert tail[i] == s[i + 1] && tail[j] == s[j + 1];
        }
      }
      InsertNonIncreasing(x, tail);
      var rest := Insert(x, tail);
      assert r == [s[0]] + rest;
      forall i, j | 0 <= i < j < |r| ensures r[i].count >= r[j].count {
        assert r[j] == rest[j - 1];
        if i > 0 {
          assert r[i] == rest[i - 1];
        } else {
          assert rest[j - 1] in rest;
          if rest[j - 1] != x {
            var k :| 0 <= k < |tail| && tail[k] == rest[j - 1];
            assert s[k + 1] == rest[j - 1];
          }
        }
      }
    }
  }

  lemma {:induction false} InsertNamesDistinct(x: AlgorithmStat, s: seq<AlgorithmStat>)
    requires GroupNamesDistinct(s)
    requires forall y :: y in s ==> y.algorithmName != x.algorithmName
    ensures GroupNamesDistinct(Insert(x, s))
  {
    var r := Insert(x, s);
    if s == [] {
    } else if x.count >= s[0].count {
      forall i, j | 0 <= i < j < |r| ensures r[i].algorithmName != r[j].algorithmName {
        assert r[j] == s[j - 1] && s[j - 1] in s;
        if i > 0 { assert r[i] == s[i - 1]; }
      }
    } else {
      var tail := s[1..];
      assert GroupNamesDistinct(tail) by {
        forall i, j | 0 <= i < j < |tail| ensures tail[i].algorithmName != tail[j].algorithmName {
          assert tail[i] == s[i + 1] && tail[j] == s[j + 1];
        }
      }
      assert forall y :: y in tail ==> y in s;
      InsertNamesDistinct(x, tail);
      var rest := Insert(x, tail);
      assert r == [s[0]] + rest;
      forall i, j | 0 <= i < j < |r| ensures r[i].algorithmName != r[j].algorithmName {
        assert r[j] == rest[j - 1];
        if i > 0 {
          assert r[i] == rest[i - 1];
        } else {
          assert rest[j - 1] in rest;
          if rest[j - 1] != x {
            var k :| 0 <= k < |tail| && tail[k] == rest[j - 1];
            assert s[k + 1] == rest[j - 1];
          }
        }
      }
    }
  }

  /** ORDER BY count DESC, as a stable insertion sort. */
  function SortByCount(s: seq<AlgorithmStat>): (r: seq<AlgorithmStat>)
    ensures |r| == |s|
    ensures forall y :: y in r <==> y in s
    ensures multiset(r) == multiset(s)
    ensures NonIncreasing(r)
    ensures GroupNamesDistinct(s) ==> GroupNamesDistinct(r)
  {
    if s == [] then []
    else
      var tail := s[1..];
      assert s == [s[0]] + tail;
      var rest := SortByCount(tail);
      assert forall y :: y in s <==> y == s[0] || y in tail;
      InsertNonIncreasing(s[0], rest);
      if GroupNamesDistinct(s) then
        assert GroupNamesDistinct(tail) by {
          forall i, j | 0 <= i < j < |tail| ensures tail[i].algorithmName != tail[j].algorithmName {
            assert tail[i] == s[i + 1] && tail[j] == s[j + 1];
          }
        }
        assert forall y :: y in rest ==> y.algorithmName != s[0].algorithmName by {
          forall y | y in rest ensures y.algorithmName != s[0].algorithmName {
            var k :| 0 <= k < |tail| && tail[k] == y;
            assert s[k + 1] == y;
          }
        }
        InsertNamesDistinct(s[0], rest);
        Insert(s[0], rest)
      else
        Insert(s[0], rest)
  }

  /** `top` is what the top-10 query may return for `rows`, up to the order of
      equal counts: at most ten distinct names of `rows`, each with its number
      of rows, by non-increasing count, and no name left out that occurs more
      often than the last one listed. */
  ghost predicate IsTopAlgorithms(rows: seq<StaticAnalysis>, top: seq<AlgorithmStat>) {
    && |top| == (if |Names(rows)| < 10 then |Names(rows)| else 10)
    && GroupNamesDistinct(top)
    && NonIncreasing(top)
    && (forall i :: 0 <= i < |top| ==>
          top[i].count == CountOf(rows, top[i].algorithmName) && top[i].count > 0)
    && (forall x :: x in rows && (forall i :: 0 <= i < |top| ==> top[i].algorithmName != x.algorithmName) ==>
          |top| == 10 && CountOf(rows, x.algorithmName) <= top[9].count)
  }

  /** GROUP BY Algorithm_name ORDER BY count DESC LIMIT 10. */
  function TopAlgorithms(rows: seq<StaticAnalysis>): (r: seq<AlgorithmStat>)
    ensures IsTopAlgorithms(rows, r)
  {
    var groups := Groups(rows);
    var sorted := SortByCount(groups);
    var k := if |sorted| < 10 then |sorted| else 10;
    TopOfSorted(rows, groups, sorted, k);
    sorted[..k]
  }

  lemma TopOfSorted(rows: seq<StaticAnalysis>, groups: seq<AlgorithmStat>, sorted: seq<AlgorithmStat>, k: nat)
    requires groups == Groups(rows)
    requires |sorted| == |groups| && (forall y :: y in sorted <==> y in groups)
    requires NonIncreasing(sorted) && GroupNamesDistinct(sorted)
    requires k == if |sorted| < 10 then |sorted| else 10
    ensures IsTopAlgorithms(rows, sorted[..k])
  {
    var names := Names(rows);
    var top := sorted[..k];
    assert forall i :: 0 <= i < k ==> top[i] == sorted[i];
    forall y | y in sorted
      ensures y.count == CountOf(rows, y.algorithmName) && y.count > 0
    {
      assert y in groups;
      var i :| 0 <= i < |groups| && groups[i] == y;
    }
    forall i | 0 <= i < |top|
      ensures top[i].count == CountOf(rows, top[i].algorithmName) && top[i].count > 0
    {
      assert top[i] == sorted[i] && sorted[i] in sorted;
    }
    forall x | x in rows && (forall i :: 0 <= i < |top| ==> top[i].algorithmName != x.algorithmName)
      ensures |top| == 10 && CountOf(rows, x.algorithmName) <= top[9].count
    {
      assert x.algorithmName in names;
      var n :| 0 <= n < |names| && names[n] == x.algorithmName;
      assert groups[n] in groups;
      var j :| 0 <= j < |sorted| && sorted[j] == groups[n];
      assert sorted[9].count >= sorted[j].count;
    }
  }

  function IsDetected(x: File): bool { x.isDetected }

  /** The number of files whose `is_detected` flag is set. */
  function DetectedCount(files: seq<File>): nat {
    if files == [] then 0
    else (if files[0].isDetected then 1 else 0) + DetectedCount(files[1..])
  }

  /** The WHERE is_detected = true count agrees with the reference count. */
  lemma {:induction false} FilterDetectedCount(files: seq<File>)
    ensures |Filter(files, IsDetected)| == DetectedCount(files)
  {
    if files != [] {
      FilterDetectedCount(files[1..]);
    }
  }

  /** `GET /stats/`. */
  function GetScanStatistics(db: Database): (r: Stats)
    ensures r.totalFiles == |db.files|
    ensures r.filesWithFindings == DetectedCount(db.files)
    ensures r.filesWithFindings <= r.totalFiles
    ensures IsTopAlgorithms(db.statics, r.topAlgorithms)
  {
    FilterDetectedCount(db.files);
    Stats(|db.files|, |Filter(db.files, IsDetected)|, TopAlgorithms(db.statics))
  }

  /** The static rows recorded for a scan. */
  function StaticsInScan(db: Database, scanId: nat): (r: seq<StaticAnalysis>)
    ensures forall x :: x in r <==> x in db.statics && x.scanId == scanId
  {
    Filter(db.statics, (x: StaticAnalysis) => x.scanId == scanId)
  }

  /** `GET /stats/{scan_id}/`: NotFound exactly when the scan does not exist.
      The findings count uses each file's global flag, restricted to the files
      associated with the scan; the top list counts only this scan's rows. */
  function GetScanStatisticsByScanId(db: Database, scanId: nat): (r: Result<Stats>)
    ensures r.NotFound? <==> !HasScan(db, scanId)
    ensures r.Ok? ==> r.value.totalFiles == |ScanFiles(db, scanId)|
    ensures r.Ok? ==> r.value.filesWithFindings == DetectedCount(ScanFiles(db, scanId))
    ensures r.Ok? ==> r.value.filesWithFindings <= r.value.totalFiles
    ensures r.Ok? ==> IsTopAlgorithms(StaticsInScan(db, scanId), r.value.topAlgorithms)
  {
    if !HasScan(db, scanId) then NotFound
    else
      var inScan := ScanFiles(db, scanId);
      FilterDetectedCount(inScan);
      Ok(Stats(|inScan|, |Filter(inScan, IsDetected)|, TopAlgorithms(StaticsInScan(db, scanId))))
  }
}
