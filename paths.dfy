/**
 * The output files of `save_results`: where they go and which of them are
 * written. File contents are not modelled.
 */
module Paths {

  /** `RESULTS_DIR`, the directory the reports are written to. */
  const ResultsDir: string := "result/manual/tuning"

  predicate EndsWith(s: string, suffix: string) {
    |suffix| <= |s| && s[|s| - |suffix|..] == suffix
  }

  /**
   * POSIX `os.path.join(a, b)`: an absolute b replaces a, otherwise a
   * separator is inserted unless a is empty or already ends with one.
   */
  function Join(a: string, b: string): (p: string)
    ensures EndsWith(p, b)
    ensures |b| > 0 && b[0] == '/' ==> p == b
    ensures (|b| == 0 || b[0] != '/') ==> p == a + b || p == a + "/" + b
    ensures (|b| == 0 || b[0] != '/') && (a == [] || a[|a| - 1] == '/') ==> p == a + b
    ensures (|b| == 0 || b[0] != '/') && a != [] && a[|a| - 1] != '/' ==> p == a + "/" + b
  {
    if |b| > 0 && b[0] == '/' then b
    else if a == [] || a[|a| - 1] == '/' then a + b
    else a + "/" + b
  }

  /** The file name `f"{ea_name}_tuning.{ext}"`. */
  function TuningName(eaName: string, ext: string): (n: string)
    ensures eaName <= n && EndsWith(n, "_tuning." + ext)
    ensures |n| == |eaName| + 8 + |ext|
  {
    eaName + "_tuning." + ext
  }

  /**
   * The path of one report for `eaName`: inside `RESULTS_DIR` unless the
   * name is absolute, in which case `os.path.join` drops the directory.
   */
  function TuningPath(eaName: string, ext: string): (p: string)
    ensures EndsWith(p, TuningName(eaName, ext))
    ensures (eaName == [] || eaName[0] != '/') ==> p == ResultsDir + "/" + TuningName(eaName, ext)
    ensures |eaName| > 0 && eaName[0] == '/' ==> p == TuningName(eaName, ext)
  {
    assert TuningName(eaName, ext)[0] == (if eaName == [] then '_' else eaName[0]);
    Join(ResultsDir, TuningName(eaName, ext))
  }

  /** The last character of a report path is the last character of its extension. */
  lemma TuningPathLast(eaName: string, ext: string)
    requires ext != []
    ensures var p := TuningPath(eaName, ext); |p| > 0 && p[|p| - 1] == ext[|ext| - 1]
  {
    var p, n := TuningPath(eaName, ext), TuningName(eaName, ext);
    assert p[|p| - |n|..][|n| - 1] == n[|n| - 1];
  }

  /** The markdown, HTML, CSV and JSON reports of one EA never share a path. */
  lemma TuningPathsDistinct(eaName: string)
    ensures TuningPath(eaName, "md") != TuningPath(eaName, "html")
    ensures TuningPath(eaName, "md") != TuningPath(eaName, "csv")
    ensures TuningPath(eaName, "md") != TuningPath(eaName, "json")
    ensures TuningPath(eaName, "html") != TuningPath(eaName, "csv")
    ensures TuningPath(eaName, "html") != TuningPath(eaName, "json")
    ensures TuningPath(eaName, "csv") != TuningPath(eaName, "json")
  {
    TuningPathLast(eaName, "md");
    TuningPathLast(eaName, "html");
    TuningPathLast(eaName, "csv");
    TuningPathLast(eaName, "json");
  }
}
