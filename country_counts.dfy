/**
 * CountryCounts.py's `isiParser`: the shared header check and record loop, with the header
 * error exactly as this script raises it.
 */
module CountryCounts {
  import opened Outcome
  import opened Text
  import opened IsiFormat

  /**
   * What `isiParser(isifile)` returns or raises for a file with these lines: the records and
   * whether anything follows `EF`. A file without the version marker in its first two lines
   * fails while building the message, because it concatenates the builtin `file` type with a
   * string, so the error is a `TypeError` and not the intended `BadPaper`.
   */
  function ParseSpec(isifile: string, lines: seq<string>): (r: Result<(seq<Record>, bool), ParseError>)
    ensures HeaderEnd(lines).None? <==> r == Err(TypeError)
  {
    match HeaderEnd(lines)
    case None => Err(TypeError)
    case Some(start) => BodyFrom(isifile, lines[start..])
  }

  /** `isiParser(isifile)` on the file's lines. */
  method IsiParser(isifile: string, lines: seq<string>) returns (r: Result<(seq<Record>, bool), ParseError>)
    ensures r == ParseSpec(isifile, lines)
  {
    var start := HeaderEnd(lines);
    if start.None? {
      return Err(TypeError);
    }
    r := ReadBody(isifile, lines[start.value..]);
  }

  /**
   * The header check as written: a file whose first two lines lack the version marker is
   * never reported with the `BadPaper` message naming the file.
   */
  lemma HeaderlessFileIsTypeError(isifile: string, lines: seq<string>)
    requires !Contains(ReadLine(lines, 0), VERSION_MARKER) && !Contains(ReadLine(lines, 1), VERSION_MARKER)
    ensures ParseSpec(isifile, lines) == Err(TypeError)
    ensures ParseSpec(isifile, lines) != Err(BadPaper(isifile + " Does not have a valid header"))
  {
  }

  /** An input that shows it: a file holding only the `EF` line. */
  lemma EndOnlyFileIsTypeError(isifile: string)
    ensures ParseSpec(isifile, ["EF\n"]) == Err(TypeError)
  {
    assert forall i :: 0 <= i < |"EF\n"| ==> "EF\n"[i] != VERSION_MARKER[0];
    MissingFirstCharNotContained("EF\n", VERSION_MARKER);
    MissingFirstCharNotContained("", VERSION_MARKER);
  }

  /** A file this script accepts is read exactly as the shared record loop reads it. */
  lemma AcceptedFileParsedByRecordLoop(isifile: string, ps: seq<Paper>)
    requires ValidPapers(ps)
    ensures ParseSpec(isifile, FileLines(ps)) == Ok((ParsedAll(ps), false))
  {
    FileRoundTrip(isifile, ps);
  }
}
