/**
 * How `main` uses the parser on one transcript file: a fresh `LineParser` per file, one
 * `parse_file` call, then the number of records written and the number excluded.
 */
module Driver {
  import opened Rules
  import opened Parser
  import opened ParserProperties

  /** One file's worth of `main`: the records written and the exclusion count. Every message
      start ends up in exactly one of the two, and no written record is a placeholder. */
  method ParseTranscript(lines: seq<string>) returns (records: seq<Record>, excluded: nat)
    ensures records == Parse(lines).emitted && excluded == Parse(lines).excluded
    ensures |records| + excluded == StartCount(lines)
    ensures AllKept(records)
  {
    var parser := new LineParser();
    parser.ParseFile(lines);
    records, excluded := parser.written, parser.excludedCount;
    Conservation(lines);
    ParseEmitsOnlyKept(lines);
  }
}
