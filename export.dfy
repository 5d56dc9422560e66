/** The decision part of `RobustCrawler.export_data`: whether there is
    anything to export, and the `(ok, message)` pair it answers with. The
    serialisation itself (pandas writing CSV, JSON or Excel) and the clock are
    outside the model: the timestamp is a parameter, and so is the error, if
    any, that writing the file raises. */
module Export {
  import opened Web
  import opened Extraction
  import opened Links
  import opened Engine

  const NoData: string := "No data to export"

  /** The formats the method knows how to write. Any other format string is
      accepted silently and nothing is written. */
  const Writers: seq<string> := ["csv", "json", "xlsx"]

  /** `pd.DataFrame(results).empty`: no rows, or rows without any column. */
  predicate NoTable(results: seq<Record>) {
    forall i :: 0 <= i < |results| ==> Keys(results[i]) == {}
  }

  /** The output path: `{filename}_{timestamp}.{format}`. */
  function OutputPath(filename: string, timestamp: string, format: string): (p: string)
    ensures |p| == |filename| + |timestamp| + |format| + 2
    ensures p[..|filename|] == filename && p[|filename|] == '_'
    ensures p[|filename| + 1..|filename| + 1 + |timestamp|] == timestamp
    ensures p[|p| - |format| - 1] == '.' && p[|p| - |format|..] == format
  {
    filename + "_" + timestamp + "." + format
  }

  /** `export_data(format, filename)`, where `writeError` is the message of
      the exception the writer raises, if it raises. */
  function ExportData(results: seq<Record>, format: string, filename: string, timestamp: string,
                      writeError: Option<string>): (bool, string)
  {
    if NoTable(results) then (false, NoData)
    else if format in Writers && writeError.Some? then (false, writeError.value)
    else (true, OutputPath(filename, timestamp, format))
  }

  /** Success exactly when there is a table and nothing the writer did raised;
      an unrecognised format counts as success without writing anything. */
  lemma ExportOutcome(results: seq<Record>, format: string, filename: string, timestamp: string,
                      writeError: Option<string>)
    ensures var (ok, msg) := ExportData(results, format, filename, timestamp, writeError);
      && (ok <==> !NoTable(results) && (format !in Writers || writeError.None?))
      && (ok ==> msg == OutputPath(filename, timestamp, format))
      && (NoTable(results) ==> msg == NoData)
      && (!ok && !NoTable(results) ==> msg == writeError.value)
  {
  }

  /** Records produced by the crawler always carry the "url" key, so the
      table is empty, and the export refused, exactly when no record was
      collected. */
  lemma NoTableIff(results: seq<Record>)
    requires Keyed(results)
    ensures NoTable(results) <==> results == []
  {
    if results != [] {
      assert UrlKey in Keys(results[0]);
    }
  }

  /** So for a crawler in any reachable state, `export_data` answers "No data
      to export" exactly when nothing was collected (or, for a known format,
      when the writer's own message happens to be that text). */
  lemma CrawlerExportRefused(cfg: Config, st: State, hist: seq<Entry>, format: string, filename: string,
                             timestamp: string, writeError: Option<string>)
    requires RunInv(cfg, st, hist)
    ensures ExportData(st.results, format, filename, timestamp, writeError).0
        <==> (st.results != [] && (format !in Writers || writeError.None?))
    ensures st.results == [] ==> ExportData(st.results, format, filename, timestamp, writeError) == (false, NoData)
  {
    NoTableIff(st.results);
  }
}
