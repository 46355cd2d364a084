/**
 * isi_rip.py: the earlier copy of the scraper. Its relay session, `list_ret`, `export` and `rip`
 * are the same code as in isi_scrape.py and util.py (modelled there as `IsiScrape.UWProxy`,
 * `Util.ListRet`, `IsiScrape.Export` and `IsiScrape.Rip`); what differs is how `generalSearch`
 * builds its form: a cruft section that also carries `max_field_count` and `period`, a term
 * loop `fields2isi` that numbers term `i` as `i + 1` and posts no operators, and a query section
 * with the years given as plain keyword arguments.
 */
module IsiRip {
  import opened Outcome
  import opened Text
  import opened Http
  import Util
  import opened IsiScrape

  /** `form_cruft`: the seventeen constant pairs of this copy, in the order its dict lists them. */
  const RIP_CRUFT: Form := [
    ("max_field_count", Str("25")),
    ("input_invalid_notice", Str("Search Error: Please enter a search term.")),
    ("exp_notice", Str("Search Error: Patent search term could be found in more than one family (unique patent number required for Expand option) ")),
    ("max_field_notice", Str("Notice: You cannot add another field.")),
    ("input_invalid_notice_limits", Str(" <br/>Note: Fields displayed in scrolling boxes must be combined with at least one other search field.")),
    ("x", Str("0")),
    ("y", Str("0")),
    ("ss_query_language", Str("auto")),
    ("ss_showsuggestions", Str("ON")),
    ("ss_numDefaultGeneralSearchFields", Str("1")),
    ("ss_lemmatization", Str("On")),
    ("period", Str("Range Selection")),
    ("limitStatus", Str("collapsed")),
    ("update_back2search_link_param", Str("yes")),
    ("ss_spellchecking", Str("Suggest")),
    ("ssStatus", Str("display:none")),
    ("formUpdated", Str("true"))
  ]

  /** A query string as this copy posts it: a list is handed to `requests` as is, which repeats the key. */
  function RipQueryValue(q: QueryString): FormValue {
    match q
    case Single(s) => Str(s)
    case OneOf(items) => Many(items)
  }

  /** The three pairs `fields2isi` yields for the term numbered `t`. */
  function RipTermPairs(t: int, field: string, q: QueryString): Form {
    [(Key("select", t), Str(field)), (Key("input", t), RipQueryValue(q)), (Key("hidInput", t), Str(""))]
  }

  /**
   * The loop of `fields2isi` from argument index `i` (even) on: the pair at `i` becomes the term
   * numbered `i + 1`; an argument after it must be an operator, which is checked and not posted.
   */
  function Fields2IsiFrom(args: seq<Arg>, i: nat): (r: Result<Form, ScrapeError>)
    ensures r.Err? ==> r.error == ValueError || r.error == AssertionError
    decreases |args| - i
  {
    if i >= |args| then Ok([])
    else match Unpack(args[i])
      case None => Err(ValueError)
      case Some(fq) =>
        if i + 1 < |args| && !IsOperator(args[i + 1]) then Err(AssertionError)
        else match Fields2IsiFrom(args, i + 2)
          case Err(e) => Err(e)
          case Ok(rest) => Ok(RipTermPairs(i + 1, fq.0, fq.1) + rest)
  }

  /**
   * `fields2isi()`: the pairs it yields, and the `t` it returns, the number of the last term.
   * With no arguments `t` is never bound and the `return t` raises.
   */
  function Fields2Isi(args: seq<Arg>): (r: Result<(Form, int), ScrapeError>)
    ensures r.Err? ==> r.error == ValueError || r.error == AssertionError || r.error == NameError
    ensures r.Ok? ==> |args| >= 1 && r.value.1 >= 1 && r.value.1 % 2 == 1
  {
    match Fields2IsiFrom(args, 0)
    case Err(e) => Err(e)
    case Ok(body) => if |args| == 0 then Err(NameError) else Ok((body, 2 * ((|args| - 1) / 2) + 1))
  }

  /** The loop from `i` succeeds exactly on well-placed arguments, a trailing operator included. */
  lemma {:induction false} Fields2IsiFromOk(args: seq<Arg>, i: nat)
    requires i <= |args| && i % 2 == 0
    ensures Fields2IsiFrom(args, i).Ok? <==> WellFormedFrom(args, i)
    decreases |args| - i
  {
    if i < |args| {
      WellFormedStep(args, i);
      if i + 1 < |args| {
        Fields2IsiFromOk(args, i + 2);
      }
    }
  }

  /** The loop from `2h` on posts three pairs per remaining term. */
  lemma {:induction false} Fields2IsiFromLength(args: seq<Arg>, h: nat)
    requires 2 * h <= |args| + 1
    requires Fields2IsiFrom(args, 2 * h).Ok?
    ensures |Fields2IsiFrom(args, 2 * h).value| == 3 * ((|args| + 1 - 2 * h) / 2)
    decreases |args| - 2 * h
  {
    if 2 * h < |args| {
      assert 2 * h + 2 == 2 * (h + 1);
      Fields2IsiFromLength(args, h + 1);
    }
  }

  /** A term of the loop: its three pairs, then the loop from the next term. */
  lemma Fields2IsiFromCons(args: seq<Arg>, h: nat)
    requires 2 * h < |args|
    requires Fields2IsiFrom(args, 2 * h).Ok?
    ensures TermAt(args, h).Some? && Fields2IsiFrom(args, 2 * (h + 1)).Ok?
    ensures Fields2IsiFrom(args, 2 * h).value
      == RipTermPairs(2 * h + 1, TermAt(args, h).value.0, TermAt(args, h).value.1) + Fields2IsiFrom(args, 2 * (h + 1)).value
  {
    assert 2 * h + 2 == 2 * (h + 1);
  }

  /** The three pairs of term `k` (counting from 0) in this copy's layout. */
  function Triple(r: Form, k: nat): Form
    requires 3 * k + 3 <= |r|
  {
    r[3 * k..3 * k + 3]
  }

  /** Term `h` opens the loop's output from `2h` on. */
  lemma Fields2IsiFromFirstTerm(args: seq<Arg>, h: nat)
    requires 2 * h < |args|
    requires Fields2IsiFrom(args, 2 * h).Ok?
    ensures TermAt(args, h).Some? && 3 <= |Fields2IsiFrom(args, 2 * h).value|
    ensures Triple(Fields2IsiFrom(args, 2 * h).value, 0) == RipTermPairs(2 * h + 1, TermAt(args, h).value.0, TermAt(args, h).value.1)
  {
    Fields2IsiFromCons(args, h);
    var fq := TermAt(args, h).value;
    var head := RipTermPairs(2 * h + 1, fq.0, fq.1);
    assert (head + Fields2IsiFrom(args, 2 * (h + 1)).value)[..3] == head;
  }

  /** Past a term, the loop's output is the loop's from the next term. */
  lemma Fields2IsiFromDrop(args: seq<Arg>, h: nat)
    requires 2 * h < |args|
    requires Fields2IsiFrom(args, 2 * h).Ok?
    ensures Fields2IsiFrom(args, 2 * (h + 1)).Ok? && 3 <= |Fields2IsiFrom(args, 2 * h).value|
    ensures Fields2IsiFrom(args, 2 * h).value[3..] == Fields2IsiFrom(args, 2 * (h + 1)).value
  {
    Fields2IsiFromCons(args, h);
    var fq := TermAt(args, h).value;
    var head := RipTermPairs(2 * h + 1, fq.0, fq.1);
    assert (head + Fields2IsiFrom(args, 2 * (h + 1)).value)[3..] == Fields2IsiFrom(args, 2 * (h + 1)).value;
  }

  /** Past terms `h` to `j - 1`, the loop's output is the loop's from term `j`. */
  lemma {:induction false} Fields2IsiFromDropMany(args: seq<Arg>, h: nat, j: nat)
    requires h <= j && 2 * j < |args|
    requires Fields2IsiFrom(args, 2 * h).Ok?
    ensures Fields2IsiFrom(args, 2 * j).Ok? && 3 * (j - h) <= |Fields2IsiFrom(args, 2 * h).value|
    ensures Fields2IsiFrom(args, 2 * h).value[3 * (j - h)..] == Fields2IsiFrom(args, 2 * j).value
    decreases j - h
  {
    if h < j {
      Fields2IsiFromDrop(args, h);
      Fields2IsiFromDropMany(args, h + 1, j);
      var r := Fields2IsiFrom(args, 2 * h).value;
      assert r[3 * (j - h)..] == r[3..][3 * (j - (h + 1))..];
    }
  }

  /** Term `h + k` sits in slot `k` of the loop's output from `2h` on, numbered `2(h + k) + 1`. */
  lemma Fields2IsiFromTerm(args: seq<Arg>, h: nat, k: nat)
    requires 2 * (h + k) < |args|
    requires Fields2IsiFrom(args, 2 * h).Ok?
    ensures TermAt(args, h + k).Some?
    ensures 3 * k + 3 <= |Fields2IsiFrom(args, 2 * h).value|
    ensures Triple(Fields2IsiFrom(args, 2 * h).value, k)
      == RipTermPairs(2 * (h + k) + 1, TermAt(args, h + k).value.0, TermAt(args, h + k).value.1)
  {
    var j := h + k;
    Fields2IsiFromDropMany(args, h, j);
    Fields2IsiFromFirstTerm(args, j);
    var r := Fields2IsiFrom(args, 2 * h).value;
    assert r[3 * k..] == r[3 * (j - h)..];
    assert Triple(r, k) == Triple(r[3 * k..], 0);
  }

  /** Every key the loop posts is one of a term's three keys: no operator reaches the form. */
  lemma {:induction false} Fields2IsiFromKeys(args: seq<Arg>, i: nat)
    requires Fields2IsiFrom(args, i).Ok?
    ensures forall j :: 0 <= j < |Fields2IsiFrom(args, i).value| ==>
      exists t :: Fields2IsiFrom(args, i).value[j].0 in {Key("select", t), Key("input", t), Key("hidInput", t)}
    decreases |args| - i
  {
    if i < |args| {
      Fields2IsiFromKeys(args, i + 2);
      var r := Fields2IsiFrom(args, i).value;
      var fq := Unpack(args[i]).value;
      var head := RipTermPairs(i + 1, fq.0, fq.1);
      var rest := Fields2IsiFrom(args, i + 2).value;
      assert r == head + rest;
      forall j | 0 <= j < |r|
        ensures exists t :: r[j].0 in {Key("select", t), Key("input", t), Key("hidInput", t)}
      {
        if j < 3 {
          assert r[j] == head[j];
          assert r[j].0 in {Key("select", i + 1), Key("input", i + 1), Key("hidInput", i + 1)};
        } else {
          assert r[j] == rest[j - 3];
        }
      }
    }
  }

  /**
   * What `fields2isi` yields for `n` terms: it completes exactly on a non-empty, well-placed
   * argument list; it posts three pairs per term, term `k` (from 0) numbered `2k + 1`; and it
   * returns `2n - 1`, which is the argument count for an odd-length list. So the number of terms
   * is never what it reports.
   */
  lemma Fields2IsiLayout(args: seq<Arg>)
    ensures Fields2Isi(args).Ok? <==> 0 < |args| && WellFormedFrom(args, 0)
    ensures Fields2Isi(args).Ok? ==>
      var (body, t) := Fields2Isi(args).value; var n := (|args| + 1) / 2;
      t == 2 * n - 1
      && (|args| % 2 == 1 ==> t == |args|)
      && |body| == 3 * n
      && forall k :: 0 <= k < n ==>
           TermAt(args, k).Some? && Triple(body, k) == RipTermPairs(2 * k + 1, TermAt(args, k).value.0, TermAt(args, k).value.1)
  {
    Fields2IsiFromOk(args, 0);
    if Fields2Isi(args).Ok? {
      var body := Fields2IsiFrom(args, 0).value;
      var n := (|args| + 1) / 2;
      Fields2IsiFromLength(args, 0);
      forall k | 0 <= k < n
        ensures TermAt(args, k).Some? && Triple(body, k) == RipTermPairs(2 * k + 1, TermAt(args, k).value.0, TermAt(args, k).value.1)
      {
        Fields2IsiFromTerm(args, 0, k);
      }
    }
  }

  /**
   * `form_query`: the term pairs, then `fieldCount` (the returned `t`), the two years, the sort
   * order and the fixed `range`, then one `editions` pair per edition.
   */
  function RipQuery(body: Form, fieldCount: int, startYear: int, endYear: int, sort: string, editions: seq<string>): Form {
    body
    + [("fieldCount", Str(IntToString(fieldCount))), ("startYear", Str(IntToString(startYear))),
       ("endYear", Str(IntToString(endYear))), ("rs_sort_by", Str(sort)), ("range", Str("ALL"))]
    + Editions(editions)
  }

  /** The form of this copy's `generalSearch`: target, cruft and query sections, in that order. */
  function RipSearchForm(sid: string, args: seq<Arg>, startYear: int, endYear: int, sort: string, editions: seq<string>)
    : (r: Result<Form, ScrapeError>)
    ensures r.Ok? <==> Fields2Isi(args).Ok?
    ensures r.Err? ==> r == Err(Fields2Isi(args).error)
    ensures r.Ok? ==>
      var f := r.value; var (body, t) := Fields2Isi(args).value; var m := 4 + 17 + |body|;
      |f| == m + 5 + |editions|
      && f[..4] == Target(sid) && f[4..21] == RIP_CRUFT && f[21..m] == body
      && f[m] == ("fieldCount", Str(IntToString(t)))
      && f[m + 1] == ("startYear", Str(IntToString(startYear)))
      && f[m + 2] == ("endYear", Str(IntToString(endYear)))
      && f[m + 3] == ("rs_sort_by", Str(sort))
      && f[m + 4] == ("range", Str("ALL"))
      && f[m + 5..] == Editions(editions)
  {
    match Fields2Isi(args)
    case Err(e) => Err(e)
    case Ok((body, t)) =>
      var f := Target(sid) + RIP_CRUFT + RipQuery(body, t, startYear, endYear, sort, editions);
      assert f[..4] == Target(sid);
      assert f[4..21] == RIP_CRUFT;
      assert f[21..21 + |body|] == body;
      assert f[21 + |body| + 5..] == Editions(editions);
      Ok(f)
  }

  /**
   * `form_query, fieldCount = list_ret(fields2isi())` and the concatenation of the sections:
   * the generator is drained by `list_ret`, whose return value becomes `fieldCount`.
   */
  method AssembleRipForm(sid: string, args: seq<Arg>, startYear: int, endYear: int, sort: string, editions: seq<string>)
    returns (r: Result<Form, ScrapeError>)
    ensures r == RipSearchForm(sid, args, startYear, endYear, sort, editions)
  {
    var formTarget := Target(sid);
    var formCruft := RIP_CRUFT;
    var fields := Fields2Isi(args);
    if fields.Err? {
      return Err(fields.error);
    }
    var g := new Util.Generator(fields.value.0, fields.value.1);
    var formQuery, fieldCount := Util.ListRet(g);
    formQuery := formQuery + [("fieldCount", Str(IntToString(fieldCount))), ("startYear", Str(IntToString(startYear))),
                              ("endYear", Str(IntToString(endYear))), ("rs_sort_by", Str(sort)), ("range", Str("ALL"))];
    formQuery := formQuery + Editions(editions);
    return Ok(formTarget + formCruft + formQuery);
  }

  // ---------------------------------------------------------------- the numbering, against isi_scrape.py

  /** The two-term search `TS=cats OR PY=2007`. */
  const CATS_OR_2007: seq<Arg> := [Term("TS", Single("cats")), Word("OR"), Term("PY", Single("2007"))]

  /**
   * On `TS=cats OR PY=2007` this copy posts the second term as `value(select3)`, sends no
   * `value(bool_1_2)` operator, and reports `fieldCount` 3 for two terms.
   */
  lemma RipNumberingSkipsTerms()
    ensures Fields2Isi(CATS_OR_2007).Ok?
    ensures var (body, t) := Fields2Isi(CATS_OR_2007).value;
      t == 3 && |body| == 6 && body[3].0 == Key("select", 3)
      && forall j :: 0 <= j < |body| ==> body[j].0 != BoolKey(1)
  {
    var args := CATS_OR_2007;
    assert WellFormedFrom(args, 0) by {
      assert Placed(args, 0) && Placed(args, 1) && Placed(args, 2);
    }
    Fields2IsiLayout(args);
    var body := Fields2Isi(args).value.0;
    Fields2IsiFromKeys(args, 0);
    forall j | 0 <= j < |body|
      ensures body[j].0 != BoolKey(1)
    {
      var t :| body[j].0 in {Key("select", t), Key("input", t), Key("hidInput", t)};
      KeyIsNotBoolKey(t);
    }
    assert body[3..6] == RipTermPairs(3, "PY", Single("2007"));
  }

  /** A term key is never an operator key: they differ in the letter after `value(`. */
  lemma KeyIsNotBoolKey(t: int)
    ensures BoolKey(1) !in {Key("select", t), Key("input", t), Key("hidInput", t)}
  {
    assert BoolKey(1)[6] == 'b';
    assert Key("select", t)[6] == 's';
    assert Key("input", t)[6] == 'i';
    assert Key("hidInput", t)[6] == 'h';
  }

  /**
   * The same search as isi_scrape.py posts it: the second term is `value(select2)`, the operator
   * travels as `value(bool_1_2)`, and `fieldCount` is 2.
   */
  lemma ScrapeNumberingCountsTerms()
    ensures FieldsSection(CATS_OR_2007).Ok?
    ensures var r := FieldsSection(CATS_OR_2007).value;
      |r| == 9 && r[4..7] == TermPairs(2, "PY", Single("2007"))
      && r[3] == (BoolKey(1), Str("OR")) && r[7] == ("fieldCount", Num(2))
  {
    var args := CATS_OR_2007;
    assert WellFormedFrom(args, 0) by {
      assert Placed(args, 0) && Placed(args, 1) && Placed(args, 2);
    }
    FieldsSectionOk(args);
    FieldsLayout(args);
    assert TermAt(args, 1) == Some(("PY", Single("2007")));
    assert OpAt(args, 0) == "OR";
  }
}
