/**
 * The ISI field-tagged flat file as `paperParser` and `isiParser` read it. The two scripts that
 * parse these files (CountryCounts.py and contry-country.py) carry the same two functions; they
 * differ only in the exception raised for a missing header, which each script's own module adds.
 *
 * A file is given as the lines its iterator yields, each with its newline. The shared file
 * object is the sequence of lines not yet consumed: `readline()`, `next()` and `for l in f`
 * each take lines off its front, and a parser's result carries the lines it left.
 */
module IsiFormat {
  import opened Outcome
  import opened Text

  /** A record's value under a tag: the tag's lines, or the plain string stored under `PT`. */
  datatype FieldValue = Lines(lines: seq<string>) | Plain(text: string)

  /** A parsed record: the dict `paperParser` builds, with `PT` set by `isiParser`. */
  type Record = map<string, FieldValue>

  /** `paperParser`'s `tdict`: each tag's list of lines. */
  type TagDict = map<string, seq<string>>

  /** The exceptions that escape the parsers. */
  datatype ParseError =
    | BadPaper(message: string)  // the scripts' own `Warning` subclass
    | IndexError                 // `l[2]` on a line shorter than three characters
    | KeyError(key: string)      // a continuation line before any tag line
    | TypeError                  // a message built from the builtin `file` (CountryCounts.py)
    | StopIteration              // the iterator ran out before an `EF` line

  const VERSION_MARKER := "VR 1.0"

  /** `l[3:-1]`: the line without its tag, its separator and its last character (the newline). */
  function Content(l: string): (c: string)
    ensures |l| >= 4 ==> c == l[3..|l| - 1]
    ensures |l| < 4 ==> c == []
  {
    if |l| >= 4 then l[3..|l| - 1] else []
  }

  /** `l[:2]`. */
  function TagOf(l: string): string {
    if |l| >= 2 then l[..2] else l
  }

  /** `'ER' in l[:2]`: the line closes a record. */
  predicate IsRecordEnd(l: string) {
    StartsWith(l, "ER")
  }

  /** `'   ' in l[:3]`: the line continues the current tag. */
  predicate IsContinuation(l: string) {
    StartsWith(l, "   ")
  }

  /** `'EF' in l[:2]`: the line ends the file. */
  predicate IsFileEnd(l: string) {
    StartsWith(l, "EF")
  }


  /** The parts of `a + b` when `a` is not empty: `a`'s first element, then the rest of `a` followed by `b`. */
  lemma HeadTail<T>(a: seq<T>, b: seq<T>)
    requires a != []
    ensures (a + b)[0] == a[0] && (a + b)[1..] == a[1..] + b
  {
    assert (a + b)[1..] == a[1..] + b;
  }

  // ================================================================ paperParser

  /**
   * What `paperParser` does with the lines `rest` not yet consumed, having built `tdict` so far
   * with `currentTag` as the tag continuation lines extend. On success: the dict and the lines
   * left after the first `ER` line, which is the only line it consumed that starts with `ER`.
   */
  function PaperFrom(rest: seq<string>, tdict: TagDict, currentTag: string): (r: Result<(TagDict, seq<string>), ParseError>)
    ensures r.Ok? ==> |r.value.1| < |rest| && r.value.1 == rest[|rest| - |r.value.1|..]
    ensures r.Ok? ==> IsRecordEnd(rest[|rest| - |r.value.1| - 1])
    ensures r.Err? ==> !r.error.TypeError?
    decreases |rest|
  {
    if rest == [] then Err(BadPaper("End of file reached before EF"))
    else
      var l := rest[0];
      if IsRecordEnd(l) then Ok((tdict, rest[1..]))
      else if IsContinuation(l) then
        if currentTag in tdict then
          PaperFrom(rest[1..], tdict[currentTag := tdict[currentTag] + [Content(l)]], currentTag)
        else Err(KeyError(currentTag))
      else if |l| < 3 then Err(IndexError)
      else if l[2] == ' ' then PaperFrom(rest[1..], tdict[l[..2] := [Content(l)]], l[..2])
      else Err(BadPaper("Field tag not formed correctly: " + l))
  }

  /**
   * A record ends at the first `ER` line: on success no line consumed before the terminator
   * starts with `ER`, and input without an `ER` line fails.
   */
  lemma {:induction false} PaperStopsAtFirstTerminator(rest: seq<string>, tdict: TagDict, currentTag: string)
    ensures var r := PaperFrom(rest, tdict, currentTag);
      r.Ok? ==> forall k :: 0 <= k < |rest| - |r.value.1| - 1 ==> !IsRecordEnd(rest[k])
    ensures (forall k :: 0 <= k < |rest| ==> !IsRecordEnd(rest[k])) ==> PaperFrom(rest, tdict, currentTag).Err?
    decreases |rest|
  {
    if rest != [] {
      var l := rest[0];
      if !IsRecordEnd(l) && IsContinuation(l) && currentTag in tdict {
        PaperStopsAtFirstTerminator(rest[1..], tdict[currentTag := tdict[currentTag] + [Content(l)]], currentTag);
      } else if !IsRecordEnd(l) && !IsContinuation(l) && |l| >= 3 && l[2] == ' ' {
        PaperStopsAtFirstTerminator(rest[1..], tdict[l[..2] := [Content(l)]], l[..2]);
      }
    }
  }

  /** `paperParser(f)`: the record's dict and the lines left after its `ER` line. */
  method PaperParser(f: seq<string>) returns (r: Result<(TagDict, seq<string>), ParseError>)
    ensures r == PaperFrom(f, map[], "")
  {
    var tdict: TagDict := map[];
    var currentTag := "";
    var rest := f;
    while rest != []
      invariant PaperFrom(rest, tdict, currentTag) == PaperFrom(f, map[], "")
      decreases |rest|
    {
      var l := rest[0];
      rest := rest[1..];
      if IsRecordEnd(l) {
        return Ok((tdict, rest));
      } else if IsContinuation(l) {
        if currentTag !in tdict {
          return Err(KeyError(currentTag));
        }
        tdict := tdict[currentTag := tdict[currentTag] + [Content(l)]];
      } else if |l| < 3 {
        return Err(IndexError);
      } else if l[2] == ' ' {
        currentTag := l[..2];
        tdict := tdict[currentTag := [Content(l)]];
      } else {
        return Err(BadPaper("Field tag not formed correctly: " + l));
      }
    }
    return Err(BadPaper("End of file reached before EF"));
  }

  // ================================================================ isiParser

  /** `f.readline()` as the `k`-th call: the line, or the empty string past the end. */
  function ReadLine(lines: seq<string>, k: nat): string {
    if k < |lines| then lines[k] else ""
  }

  /**
   * `isiParser`'s header check: how many lines its `readline()` calls consumed when the version
   * marker was found in the first line, or else in the second; `None` when in neither.
   */
  function HeaderEnd(lines: seq<string>): (r: Option<nat>)
    ensures r.Some? <==> Contains(ReadLine(lines, 0), VERSION_MARKER) || Contains(ReadLine(lines, 1), VERSION_MARKER)
    ensures r == Some(1) <==> Contains(ReadLine(lines, 0), VERSION_MARKER)
    ensures r.Some? ==> 1 <= r.value <= 2 && r.value <= |lines|
  {
    if Contains(ReadLine(lines, 0), VERSION_MARKER) then Some(1)
    else if Contains(ReadLine(lines, 1), VERSION_MARKER) then Some(2)
    else None
  }

  /** `paperParser`'s dict as a record, before `PT` is set. */
  function AsRecord(tdict: TagDict): (r: Record)
    ensures forall k :: k in r <==> k in tdict
    ensures forall k :: k in r ==> r[k] == Lines(tdict[k])
  {
    map k | k in tdict :: Lines(tdict[k])
  }

  /** `plst[-1][l[:2]] = l[3:-1]` after `plst.append(paperParser(f))`: the dict with `PT` overwritten by the start line's content. */
  function ToRecord(tdict: TagDict, pt: string): (r: Record)
    ensures "PT" in r && r["PT"] == Plain(pt)
    ensures forall k :: k in r <==> k in tdict || k == "PT"
    ensures forall k :: k in r && k != "PT" ==> r[k] == Lines(tdict[k])
  {
    AsRecord(tdict)["PT" := Plain(pt)]
  }

  /**
   * `isiParser`'s record loop over the lines `rest` not yet consumed, having collected `plst`:
   * blank lines are skipped, an `EF` line ends the loop, every other line must start a `PT`
   * record. On success: the records and the lines left after the `EF` line.
   */
  function RecordsFrom(isifile: string, rest: seq<string>, plst: seq<Record>): (r: Result<(seq<Record>, seq<string>), ParseError>)
    ensures r.Ok? ==> |r.value.1| < |rest| && r.value.1 == rest[|rest| - |r.value.1|..]
    ensures r.Ok? ==> IsFileEnd(rest[|rest| - |r.value.1| - 1])
    decreases |rest|
  {
    if rest == [] then Err(StopIteration)
    else
      var l := rest[0];
      if l == "" then Err(BadPaper("No ER found in " + isifile))
      else if IsBlank(l) then RecordsFrom(isifile, rest[1..], plst)
      else if IsFileEnd(l) then Ok((plst, rest[1..]))
      else if TagOf(l) != "PT" then Err(BadPaper("Paper does not start with PT tag" + "In " + isifile))
      else
        match PaperFrom(rest[1..], map[], "")
        case Err(e) => if e.BadPaper? then Err(BadPaper(e.message + "In " + isifile)) else Err(e)
        case Ok((tdict, more)) => RecordsFrom(isifile, more, plst + [ToRecord(tdict, Content(l))])
  }

  /** The record loop raises no `TypeError`: that exception comes only from a header message. */
  lemma {:induction false} RecordsNeverTypeError(isifile: string, rest: seq<string>, plst: seq<Record>)
    ensures RecordsFrom(isifile, rest, plst) != Err(TypeError)
    decreases |rest|
  {
    if rest != [] {
      var l := rest[0];
      if l != "" && IsBlank(l) {
        RecordsNeverTypeError(isifile, rest[1..], plst);
      } else if l != "" && !IsFileEnd(l) && TagOf(l) == "PT" {
        var paper := PaperFrom(rest[1..], map[], "");
        if paper.Ok? {
          RecordsNeverTypeError(isifile, paper.value.1, plst + [ToRecord(paper.value.0, Content(l))]);
        }
      }
    }
  }

  /**
   * What `isiParser` returns once its header check passed, given the lines after the header:
   * the records, and whether anything follows the `EF` line (which only earns a printed notice).
   */
  function BodyFrom(isifile: string, body: seq<string>): (r: Result<(seq<Record>, bool), ParseError>)
    ensures r.Err? ==> !r.error.TypeError?
  {
    RecordsNeverTypeError(isifile, body, []);
    match RecordsFrom(isifile, body, [])
    case Err(e) => Err(e)
    case Ok((plst, more)) => Ok((plst, more != []))
  }

  /** `isiParser`'s loop and its final `f.next()` probe, on the lines after the header. */
  method ReadBody(isifile: string, f: seq<string>) returns (r: Result<(seq<Record>, bool), ParseError>)
    ensures r == BodyFrom(isifile, f)
  {
    var records := ReadRecords(isifile, f);
    match records {
      case Err(e) => return Err(e);
      case Ok((plst, more)) => return Ok((plst, more != []));
    }
  }

  /** `isiParser`'s `while notEnd` loop: the records and the lines left after the `EF` line. */
  method ReadRecords(isifile: string, f: seq<string>) returns (r: Result<(seq<Record>, seq<string>), ParseError>)
    ensures r == RecordsFrom(isifile, f, [])
  {
    var notEnd := true;
    var plst: seq<Record> := [];
    var rest := f;
    while notEnd
      invariant notEnd ==> RecordsFrom(isifile, rest, plst) == RecordsFrom(isifile, f, [])
      invariant !notEnd ==> RecordsFrom(isifile, f, []) == Ok((plst, rest))
      decreases |rest|, notEnd
    {
      if rest == [] {
        return Err(StopIteration);
      }
      var l := rest[0];
      rest := rest[1..];
      if l == "" {
        return Err(BadPaper("No ER found in " + isifile));
      } else if IsBlank(l) {
        continue;
      } else if IsFileEnd(l) {
        notEnd := false;
        continue;
      }
      var paper := ReadPaper(isifile, l, rest, plst);
      if paper.Err? {
        return Err(paper.error);
      }
      plst := plst + [paper.value.0];
      rest := paper.value.1;
    }
    return Ok((plst, rest));
  }

  /**
   * The loop's `else` branch for the non-blank, non-`EF` line `l` just read, `f` being the lines
   * after it: `l` must start with `PT`; `paperParser` reads the rest of the record, whose `PT`
   * entry is then set to `l`'s content. A `BadPaper` gets the file name appended.
   */
  method ReadPaper(isifile: string, l: string, f: seq<string>, ghost plst: seq<Record>) returns (r: Result<(Record, seq<string>), ParseError>)
    requires l != "" && !IsBlank(l) && !IsFileEnd(l)
    ensures r.Err? ==> RecordsFrom(isifile, [l] + f, plst) == Err(r.error)
    ensures r.Ok? ==> |r.value.1| < |f|
    ensures r.Ok? ==> RecordsFrom(isifile, [l] + f, plst) == RecordsFrom(isifile, r.value.1, plst + [r.value.0])
  {
    HeadTail([l], f);
    if TagOf(l) != "PT" {
      return Err(BadPaper("Paper does not start with PT tag" + "In " + isifile));
    }
    var paper := PaperParser(f);
    match paper {
      case Err(e) =>
        if e.BadPaper? {
          return Err(BadPaper(e.message + "In " + isifile));
        }
        return Err(e);
      case Ok((tdict, more)) =>
        var record := AsRecord(tdict);
        record := record["PT" := Plain(Content(l))];
        assert record == ToRecord(tdict, Content(l));
        return Ok((record, more));
    }
  }

  // ================================================================ the shape of parsed records

  /** Every parsed record holds its `PT` content as a plain string and a list of lines under every other tag. */
  predicate WellShaped(r: Record) {
    "PT" in r && r["PT"].Plain? && forall k :: k in r && k != "PT" ==> r[k].Lines?
  }

  lemma {:induction false} RecordsFromWellShaped(isifile: string, rest: seq<string>, plst: seq<Record>)
    requires forall i :: 0 <= i < |plst| ==> WellShaped(plst[i])
    requires RecordsFrom(isifile, rest, plst).Ok?
    ensures forall i :: 0 <= i < |RecordsFrom(isifile, rest, plst).value.0| ==> WellShaped(RecordsFrom(isifile, rest, plst).value.0[i])
    decreases |rest|
  {
    var l := rest[0];
    if l == "" {
    } else if IsBlank(l) {
      RecordsFromWellShaped(isifile, rest[1..], plst);
    } else if IsFileEnd(l) {
    } else {
      var paper := PaperFrom(rest[1..], map[], "").value;
      var record := ToRecord(paper.0, Content(l));
      assert WellShaped(record);
      assert RecordsFrom(isifile, rest, plst) == RecordsFrom(isifile, paper.1, plst + [record]);
      RecordsFromWellShaped(isifile, paper.1, plst + [record]);
    }
  }

  /** Whatever file the parser accepts, its records are well shaped (what `graphAdder` relies on). */
  lemma BodyWellShaped(isifile: string, body: seq<string>)
    requires BodyFrom(isifile, body).Ok?
    ensures forall i :: 0 <= i < |BodyFrom(isifile, body).value.0| ==> WellShaped(BodyFrom(isifile, body).value.0[i])
  {
    RecordsFromWellShaped(isifile, body, []);
  }

  // ================================================================ writing records back out

  /** A field as an export writes it: a tag and its lines, the first on the tag line and the rest as continuations. */
  datatype Field = Field(tag: string, lines: seq<string>)

  /** A tag the parser can read back: two characters, not the record terminator, not three spaces once followed by the separator. */
  predicate ValidField(f: Field) {
    |f.tag| == 2 && f.tag != "ER" && f.tag != "  " && |f.lines| >= 1
  }

  predicate ValidFields(fs: seq<Field>) {
    forall i :: 0 <= i < |fs| ==> ValidField(fs[i])
  }

  function ContinuationLines(ls: seq<string>): (r: seq<string>)
    ensures |r| == |ls|
  {
    seq(|ls|, k requires 0 <= k < |ls| => "   " + ls[k] + "\n")
  }

  /** `TT first` followed by one `   line` per further line, each ending in a newline. */
  function FieldLines(f: Field): (r: seq<string>)
    requires |f.lines| >= 1
    ensures |r| == |f.lines|
  {
    [f.tag + " " + f.lines[0] + "\n"] + ContinuationLines(f.lines[1..])
  }

  function Serialize(fs: seq<Field>): seq<string>
    requires ValidFields(fs)
  {
    if fs == [] then [] else FieldLines(fs[0]) + Serialize(fs[1..])
  }

  /** The dict the fields denote: each tag bound to its lines, a later field with the same tag replacing an earlier one. */
  function Fold(m: TagDict, fs: seq<Field>): TagDict
    decreases |fs|
  {
    if fs == [] then m else Fold(m[fs[0].tag := fs[0].lines], fs[1..])
  }

  /** The tag a continuation line would extend after the fields. */
  function LastTag(current: string, fs: seq<Field>): string
    decreases |fs|
  {
    if fs == [] then current else LastTag(fs[0].tag, fs[1..])
  }

  /** A line `tag + " " + rest`: how the parser classifies it, and the content it keeps. */
  lemma TaggedLine(tag: string, rest: string)
    requires |tag| == 2 && |rest| >= 1
    ensures var l := tag + " " + rest;
      |l| >= 4 && l[..2] == tag && l[2] == ' ' && TagOf(l) == tag && Content(l) == rest[..|rest| - 1]
      && (IsRecordEnd(l) <==> tag == "ER") && (IsFileEnd(l) <==> tag == "EF")
      && (IsContinuation(l) <==> tag == "  ")
  {
    var l := tag + " " + rest;
    assert l[..2] == tag;
    assert l[..3] == tag + " ";
    if IsContinuation(l) {
      assert tag == l[..3][..2] == "  ";
    }
    assert l[3..|l| - 1] == rest[..|rest| - 1];
  }

  /** One continuation line `   line`: the current tag's lines get `line` appended. */
  lemma ContinuationLineStep(line: string, more: seq<string>, tdict: TagDict, tag: string)
    requires tag in tdict
    ensures PaperFrom(["   " + line + "\n"] + more, tdict, tag) == PaperFrom(more, tdict[tag := tdict[tag] + [line]], tag)
  {
    var rest := line + "\n";
    HeadTail(["   " + line + "\n"], more);
    assert "   " + line + "\n" == "  " + " " + rest;
    TaggedLine("  ", rest);
    assert rest[..|rest| - 1] == line;
  }

  /** One tag line `TT first`: the tag becomes current, bound to `[first]`. */
  lemma TagLineStep(tag: string, first: string, more: seq<string>, tdict: TagDict, current: string)
    requires |tag| == 2 && tag != "ER" && tag != "  "
    ensures PaperFrom([tag + " " + first + "\n"] + more, tdict, current) == PaperFrom(more, tdict[tag := [first]], tag)
  {
    var rest := first + "\n";
    HeadTail([tag + " " + first + "\n"], more);
    assert tag + " " + first + "\n" == tag + " " + rest;
    TaggedLine(tag, rest);
    assert rest[..|rest| - 1] == first;
  }

  /** The continuation lines of a non-empty list: the first one, then the rest's. */
  lemma ContinuationLinesCons(ls: seq<string>)
    requires ls != []
    ensures ContinuationLines(ls) == ["   " + ls[0] + "\n"] + ContinuationLines(ls[1..])
  {
  }

  /** Appending `[x]` and then `rest` to a bound list is appending `[x] + rest`. */
  lemma UpdateAppend<K, T>(m: map<K, seq<T>>, k: K, ls: seq<T>)
    requires k in m && ls != []
    ensures m[k := m[k] + [ls[0]]][k := (m[k] + [ls[0]]) + ls[1..]] == m[k := m[k] + ls]
  {
    assert m[k] + [ls[0]] + ls[1..] == m[k] + ls;
  }

  /** A run of continuation lines: the current tag's lines get all of them appended. */
  lemma {:induction false} ContinuationSteps(ls: seq<string>, more: seq<string>, tdict: TagDict, tag: string)
    requires tag in tdict
    ensures PaperFrom(ContinuationLines(ls) + more, tdict, tag) == PaperFrom(more, tdict[tag := tdict[tag] + ls], tag)
    decreases |ls|
  {
    if ls == [] {
      assert ContinuationLines(ls) + more == more;
      assert tdict[tag] + ls == tdict[tag];
      assert tdict[tag := tdict[tag] + ls] == tdict;
    } else {
      var tail := ContinuationLines(ls[1..]) + more;
      ContinuationLinesCons(ls);
      assert ContinuationLines(ls) + more == ["   " + ls[0] + "\n"] + tail;
      ContinuationLineStep(ls[0], tail, tdict, tag);
      ContinuationSteps(ls[1..], more, tdict[tag := tdict[tag] + [ls[0]]], tag);
      UpdateAppend(tdict, tag, ls);
    }
  }

  /** One field: its tag becomes current, bound to its lines. */
  lemma FieldStep(f: Field, more: seq<string>, tdict: TagDict, current: string)
    requires ValidField(f)
    ensures PaperFrom(FieldLines(f) + more, tdict, current) == PaperFrom(more, tdict[f.tag := f.lines], f.tag)
  {
    var tail := ContinuationLines(f.lines[1..]) + more;
    ConsAppend(f.tag + " " + f.lines[0] + "\n", ContinuationLines(f.lines[1..]), more);
    TagLineStep(f.tag, f.lines[0], tail, tdict, current);
    ContinuationSteps(f.lines[1..], more, tdict[f.tag := [f.lines[0]]], f.tag);
    BindThenAppend(tdict, f.tag, f.lines);
  }

  /** `([x] + a) + b` regrouped as `[x] + (a + b)`. */
  lemma ConsAppend<T>(x: T, a: seq<T>, b: seq<T>)
    ensures ([x] + a) + b == [x] + (a + b)
  {
  }

  /** Binding `[ls[0]]` and then appending `ls[1..]` binds `ls`. */
  lemma BindThenAppend<K, T>(m: map<K, seq<T>>, k: K, ls: seq<T>)
    requires ls != []
    ensures m[k := [ls[0]]][k := m[k := [ls[0]]][k] + ls[1..]] == m[k := ls]
  {
    assert [ls[0]] + ls[1..] == ls;
  }

  /** The fields after the first are still valid, and the lines of a non-empty run are the first field's, then the rest's. */
  lemma FieldsCons(fs: seq<Field>, more: seq<string>)
    requires ValidFields(fs) && fs != []
    ensures ValidField(fs[0]) && ValidFields(fs[1..])
    ensures Serialize(fs) + more == FieldLines(fs[0]) + (Serialize(fs[1..]) + more)
  {
    forall i | 0 <= i < |fs[1..]|
      ensures ValidField(fs[1..][i])
    {
      assert fs[1..][i] == fs[i + 1];
    }
  }

  /** A run of fields: the dict the fields denote, with the last field's tag current. */
  lemma {:induction false} FieldsSteps(fs: seq<Field>, more: seq<string>, tdict: TagDict, current: string)
    requires ValidFields(fs)
    ensures PaperFrom(Serialize(fs) + more, tdict, current) == PaperFrom(more, Fold(tdict, fs), LastTag(current, fs))
    decreases |fs|
  {
    if fs == [] {
      assert Serialize(fs) + more == more;
    } else {
      var f := fs[0];
      FieldsCons(fs, more);
      FieldStep(f, Serialize(fs[1..]) + more, tdict, current);
      FieldsSteps(fs[1..], more, tdict[f.tag := f.lines], f.tag);
    }
  }

  /**
   * Round trip: written out with its terminator, a record's fields are read back as the dict
   * they denote, and the parser leaves exactly the lines after the terminator.
   */
  lemma PaperRoundTrip(fs: seq<Field>, er: string, more: seq<string>)
    requires ValidFields(fs) && IsRecordEnd(er)
    ensures PaperFrom(Serialize(fs) + [er] + more, map[], "") == Ok((Fold(map[], fs), more))
  {
    assert Serialize(fs) + [er] + more == Serialize(fs) + ([er] + more);
    FieldsSteps(fs, [er] + more, map[], "");
    HeadTail([er], more);
  }

  /** A line that is neither a terminator, a continuation nor a tag line fails the record, quoting the line. */
  lemma MalformedLineRejected(fs: seq<Field>, bad: string, more: seq<string>)
    requires ValidFields(fs)
    requires !IsRecordEnd(bad) && !IsContinuation(bad) && |bad| >= 3 && bad[2] != ' '
    ensures PaperFrom(Serialize(fs) + [bad] + more, map[], "") == Err(BadPaper("Field tag not formed correctly: " + bad))
  {
    assert Serialize(fs) + [bad] + more == Serialize(fs) + ([bad] + more);
    FieldsSteps(fs, [bad] + more, map[], "");
    HeadTail([bad], more);
  }

  /** Input that runs out before a terminator fails the record. */
  lemma MissingTerminatorRejected(fs: seq<Field>)
    requires ValidFields(fs)
    ensures PaperFrom(Serialize(fs), map[], "") == Err(BadPaper("End of file reached before EF"))
  {
    assert Serialize(fs) + [] == Serialize(fs);
    FieldsSteps(fs, [], map[], "");
  }

  /**
   * A repeated tag replaces its earlier lines: in the dict the fields denote, a tag is bound to
   * the lines of the last field carrying it, or keeps its earlier binding if no field carries it.
   */
  /** `fs[i]` is the last field with that tag. */
  predicate IsLastWith(fs: seq<Field>, tag: string, i: int) {
    0 <= i < |fs| && fs[i].tag == tag && forall j :: i < j < |fs| ==> fs[j].tag != tag
  }

  lemma {:induction false} LastFieldWins(m: TagDict, fs: seq<Field>, tag: string)
    ensures (exists i :: 0 <= i < |fs| && fs[i].tag == tag) ==>
      tag in Fold(m, fs) && exists i :: IsLastWith(fs, tag, i) && Fold(m, fs)[tag] == fs[i].lines
    ensures (forall i :: 0 <= i < |fs| ==> fs[i].tag != tag) ==>
      (tag in Fold(m, fs) <==> tag in m) && (tag in m ==> Fold(m, fs)[tag] == m[tag])
    decreases |fs|
  {
    if fs != [] {
      var m' := m[fs[0].tag := fs[0].lines];
      LastFieldWins(m', fs[1..], tag);
      if exists i :: 0 <= i < |fs[1..]| && fs[1..][i].tag == tag {
        var i :| IsLastWith(fs[1..], tag, i) && Fold(m', fs[1..])[tag] == fs[1..][i].lines;
        assert fs[i + 1].tag == tag && Fold(m, fs)[tag] == fs[i + 1].lines;
        forall j | i + 1 < j < |fs|
          ensures fs[j].tag != tag
        {
          assert fs[j] == fs[1..][j - 1];
        }
        assert IsLastWith(fs, tag, i + 1);
      } else if fs[0].tag == tag {
        forall j | 0 < j < |fs|
          ensures fs[j].tag != tag
        {
          assert fs[j] == fs[1..][j - 1];
        }
        assert IsLastWith(fs, tag, 0);
      } else {
        forall i | 0 <= i < |fs[1..]|
          ensures fs[1..][i].tag != tag
        {
        }
      }
    }
  }

  /** A record as an export writes it: the `PT` line's content and the fields after it. */
  datatype Paper = Paper(pt: string, fields: seq<Field>)

  predicate ValidPapers(ps: seq<Paper>) {
    forall i :: 0 <= i < |ps| ==> ValidFields(ps[i].fields)
  }

  /** `PT ...`, the fields, `ER`, then the blank line exports put between records. */
  function PaperLines(p: Paper): seq<string>
    requires ValidFields(p.fields)
  {
    ["PT " + p.pt + "\n"] + Serialize(p.fields) + ["ER\n", "\n"]
  }

  function PapersLines(ps: seq<Paper>): seq<string>
    requires ValidPapers(ps)
  {
    if ps == [] then [] else PaperLines(ps[0]) + PapersLines(ps[1..])
  }

  /** A whole export: the `FN` and `VR 1.0` header lines, the records, and the `EF` line. */
  function FileLines(ps: seq<Paper>): seq<string>
    requires ValidPapers(ps)
  {
    ["FN Thomson Reuters Web of Science\n", "VR 1.0\n"] + PapersLines(ps) + ["EF\n"]
  }

  /** The record the parser should produce for a written paper. */
  function Parsed(p: Paper): Record {
    ToRecord(Fold(map[], p.fields), p.pt)
  }

  function ParsedAll(ps: seq<Paper>): (rs: seq<Record>)
    ensures |rs| == |ps|
  {
    seq(|ps|, i requires 0 <= i < |ps| => Parsed(ps[i]))
  }

  lemma ParsedAllCons(ps: seq<Paper>)
    requires |ps| > 0
    ensures ParsedAll(ps) == [Parsed(ps[0])] + ParsedAll(ps[1..])
  {
    var a := ParsedAll(ps);
    var b := [Parsed(ps[0])] + ParsedAll(ps[1..]);
    forall i | 0 <= i < |a|
      ensures a[i] == b[i]
    {
      if i > 0 {
        assert b[i] == ParsedAll(ps[1..])[i - 1] == Parsed(ps[1..][i - 1]);
      }
    }
  }

  /** The `PT` line of a written paper: it starts a record, is not blank, and holds the paper's `PT` content. */
  lemma PtLine(pt: string)
    ensures var l := "PT " + pt + "\n";
      l != "" && !IsBlank(l) && !IsFileEnd(l) && TagOf(l) == "PT" && Content(l) == pt
  {
    var l := "PT " + pt + "\n";
    TaggedLine("PT", pt + "\n");
    assert (pt + "\n")[..|pt + "\n"| - 1] == pt;
    assert l[0] == 'P' && !IsAsciiSpace(l[0]);
  }

  /** A blank line, such as the one after a record, is skipped. */
  lemma BlankLineStep(isifile: string, l: string, more: seq<string>, plst: seq<Record>)
    requires IsBlank(l)
    ensures RecordsFrom(isifile, [l] + more, plst) == RecordsFrom(isifile, more, plst)
  {
    HeadTail([l], more);
  }

  /** An `EF` line ends the loop with the records so far, leaving the lines after it. */
  lemma FileEndStep(isifile: string, l: string, more: seq<string>, plst: seq<Record>)
    requires IsFileEnd(l)
    ensures RecordsFrom(isifile, [l] + more, plst) == Ok((plst, more))
  {
    HeadTail([l], more);
    assert l[..2] == "EF";
    assert l[0] == 'E' && !IsAsciiSpace(l[0]);
  }

  /** One written paper: the record loop collects the record it denotes and moves past its blank line. */
  lemma PaperRecordStep(isifile: string, p: Paper, more: seq<string>, plst: seq<Record>)
    requires ValidFields(p.fields)
    ensures RecordsFrom(isifile, PaperLines(p) + more, plst) == RecordsFrom(isifile, more, plst + [Parsed(p)])
  {
    var l := "PT " + p.pt + "\n";
    var body := Serialize(p.fields) + ["ER\n"] + (["\n"] + more);
    assert PaperLines(p) + more == [l] + body;
    HeadTail([l], body);
    PtLine(p.pt);
    assert IsRecordEnd("ER\n");
    PaperRoundTrip(p.fields, "ER\n", ["\n"] + more);
    assert IsAsciiSpace("\n"[0]);
    BlankLineStep(isifile, "\n", more, plst + [Parsed(p)]);
  }

  /** A run of written papers: the record loop collects their records in order. */
  lemma {:induction false} RecordsSteps(isifile: string, ps: seq<Paper>, more: seq<string>, plst: seq<Record>)
    requires ValidPapers(ps)
    ensures RecordsFrom(isifile, PapersLines(ps) + more, plst) == RecordsFrom(isifile, more, plst + ParsedAll(ps))
    decreases |ps|
  {
    if ps == [] {
      assert PapersLines(ps) + more == more;
      assert plst + ParsedAll(ps) == plst;
    } else {
      ValidPapersTail(ps);
      assert PapersLines(ps) + more == PaperLines(ps[0]) + (PapersLines(ps[1..]) + more);
      PaperRecordStep(isifile, ps[0], PapersLines(ps[1..]) + more, plst);
      RecordsSteps(isifile, ps[1..], more, plst + [Parsed(ps[0])]);
      ParsedAllCons(ps);
      assert plst + [Parsed(ps[0])] + ParsedAll(ps[1..]) == plst + ParsedAll(ps);
    }
  }

  /** The papers after the first are still well formed. */
  lemma ValidPapersTail(ps: seq<Paper>)
    requires ValidPapers(ps) && ps != []
    ensures ValidFields(ps[0].fields) && ValidPapers(ps[1..])
  {
    forall i | 0 <= i < |ps[1..]|
      ensures ValidFields(ps[1..][i].fields)
    {
      assert ps[1..][i] == ps[i + 1];
    }
  }

  /** The `FN` line of an export does not carry the version marker; the `VR` line does. */
  lemma ExportHeaderFound(ps: seq<Paper>)
    requires ValidPapers(ps)
    ensures HeaderEnd(FileLines(ps)) == Some(2)
  {
    var lines := FileLines(ps);
    var fn := "FN Thomson Reuters Web of Science\n";
    assert lines[0] == fn && lines[1] == "VR 1.0\n";
    assert forall i :: 0 <= i < |fn| ==> fn[i] != 'V';
    MissingFirstCharNotContained(fn, VERSION_MARKER);
    StartsWithContains(lines[1], VERSION_MARKER);
  }

  /** The records and the `EF` line: every paper is read back, and nothing is left after `EF`. */
  lemma BodyRoundTrip(isifile: string, ps: seq<Paper>)
    requires ValidPapers(ps)
    ensures BodyFrom(isifile, PapersLines(ps) + ["EF\n"]) == Ok((ParsedAll(ps), false))
  {
    RecordsSteps(isifile, ps, ["EF\n"], []);
    assert "EF\n"[..2] == "EF";
    FileEndStep(isifile, "EF\n", [], ParsedAll(ps));
    assert ["EF\n"] + [] == ["EF\n"];
    assert [] + ParsedAll(ps) == ParsedAll(ps);
  }

  /**
   * Round trip for whole files: the header is found on the second line, every written paper is
   * read back in file order as the record it denotes, and nothing is reported after `EF`.
   */
  lemma FileRoundTrip(isifile: string, ps: seq<Paper>)
    requires ValidPapers(ps)
    ensures HeaderEnd(FileLines(ps)) == Some(2)
    ensures BodyFrom(isifile, FileLines(ps)[2..]) == Ok((ParsedAll(ps), false))
  {
    ExportHeaderFound(ps);
    assert FileLines(ps)[2..] == PapersLines(ps) + ["EF\n"];
    BodyRoundTrip(isifile, ps);
  }

  // ================================================================ content after EF

  /** Lines appended after a record's terminator are left unread. */
  lemma {:induction false} PaperFromExtended(rest: seq<string>, extra: seq<string>, tdict: TagDict, current: string)
    requires PaperFrom(rest, tdict, current).Ok?
    ensures PaperFrom(rest + extra, tdict, current)
         == Ok((PaperFrom(rest, tdict, current).value.0, PaperFrom(rest, tdict, current).value.1 + extra))
    decreases |rest|
  {
    HeadTail(rest, extra);
    var l := rest[0];
    if !IsRecordEnd(l) {
      if IsContinuation(l) {
        PaperFromExtended(rest[1..], extra, tdict[current := tdict[current] + [Content(l)]], current);
      } else {
        PaperFromExtended(rest[1..], extra, tdict[l[..2] := [Content(l)]], l[..2]);
      }
    }
  }

  /** Lines appended after the `EF` line are left unread. */
  lemma {:induction false} RecordsFromExtended(isifile: string, rest: seq<string>, extra: seq<string>, plst: seq<Record>)
    requires RecordsFrom(isifile, rest, plst).Ok?
    ensures RecordsFrom(isifile, rest + extra, plst)
         == Ok((RecordsFrom(isifile, rest, plst).value.0, RecordsFrom(isifile, rest, plst).value.1 + extra))
    decreases |rest|
  {
    HeadTail(rest, extra);
    var l := rest[0];
    if l != "" {
      if IsBlank(l) {
        RecordsFromExtended(isifile, rest[1..], extra, plst);
      } else if !IsFileEnd(l) {
        PaperFromExtended(rest[1..], extra, map[], "");
        var paper := PaperFrom(rest[1..], map[], "").value;
        RecordsFromExtended(isifile, paper.1, extra, plst + [ToRecord(paper.0, Content(l))]);
      }
    }
  }

  /**
   * Lines after the `EF` line change nothing but the notice: a body that parses with `EF` as
   * its last line yields the same records with anything appended, flagged exactly when
   * something was appended.
   */
  lemma TrailingContentOnlyNoticed(isifile: string, body: seq<string>, extra: seq<string>)
    requires BodyFrom(isifile, body).Ok? && !BodyFrom(isifile, body).value.1
    ensures BodyFrom(isifile, body + extra) == Ok((BodyFrom(isifile, body).value.0, extra != []))
  {
    RecordsFromExtended(isifile, body, extra, []);
    assert [] + extra == extra;
  }

  /** A non-blank line before `EF` that does not start with `PT` fails the file. */
  lemma NonPaperLineRejected(isifile: string, rest: seq<string>, plst: seq<Record>)
    requires rest != [] && rest[0] != "" && !IsBlank(rest[0]) && !IsFileEnd(rest[0])
    requires !StartsWith(rest[0], "PT")
    ensures RecordsFrom(isifile, rest, plst) == Err(BadPaper("Paper does not start with PT tag" + "In " + isifile))
  {
    assert TagOf(rest[0]) != "PT";
  }
}
