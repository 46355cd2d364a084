/**
 * isi_scrape.py: the Web of Science scraper. It logs in through the Waterloo library relay,
 * posts the general-search form (assembled from ordered sections), reads the hit count off
 * the result page, and exports the result set 500 records at a time into numbered files.
 */
module IsiScrape {
  import opened Outcome
  import opened Text
  import opened Http
  import EzProxy

  /** The exceptions the scraper's modelled code lets escape. */
  datatype ScrapeError =
    | AssertionError          // a failed `assert`: unknown operator or timespan, bad export range, request while logged out
    | NameError               // a name read before it is bound: `t` with no terms, `fieldCount` in the >25 warning
    | ValueError              // a search argument that does not unpack into a pair; `int()` on a non-number
    | IndexError              // `count.split()[-1]` on a blank count
    | HTTPError(redirected: bool)  // `raise_for_status()` (false), or the export's error redirect (true)
    | LoginFailed             // anything going wrong inside `UWProxy.login`

  // ---------------------------------------------------------------- flatten

  /** `flatten(L)`: the inner lists, concatenated in order. */
  function Flatten<T>(L: seq<seq<T>>): seq<T> {
    if |L| == 0 then [] else L[0] + Flatten(L[1..])
  }

  /** Flattening distributes over concatenation of the outer list. */
  lemma {:induction false} FlattenAppend<T>(a: seq<seq<T>>, b: seq<seq<T>>)
    ensures Flatten(a + b) == Flatten(a) + Flatten(b)
  {
    if |a| > 0 {
      assert (a + b)[1..] == a[1..] + b;
      FlattenAppend(a[1..], b);
    } else {
      assert a + b == b;
    }
  }

  /** When every inner list is a pair, element `2k` and `2k+1` of the flat list are pair `k`'s halves. */
  lemma {:induction false} FlattenPairsAt<T>(L: seq<seq<T>>, k: nat)
    requires forall i :: 0 <= i < |L| ==> |L[i]| == 2
    requires k < |L|
    ensures |Flatten(L)| == 2 * |L|
    ensures Flatten(L)[2 * k] == L[k][0] && Flatten(L)[2 * k + 1] == L[k][1]
  {
    if k == 0 {
      FlattenPairsLength(L[1..]);
    } else {
      FlattenPairsAt(L[1..], k - 1);
    }
  }

  lemma {:induction false} FlattenPairsLength<T>(L: seq<seq<T>>)
    requires forall i :: 0 <= i < |L| ==> |L[i]| == 2
    ensures |Flatten(L)| == 2 * |L|
  {
    if |L| > 0 {
      FlattenPairsLength(L[1..]);
    }
  }

  // ---------------------------------------------------------------- the search arguments

  /** A term's query string: plain text, or a list the form joins with `###` (an OR'd enumeration). */
  datatype QueryString = Single(s: string) | OneOf(items: seq<string>)

  /** One positional argument of `generalSearch`: a `(field, querystring)` pair or a bare string. */
  datatype Arg = Term(field: string, query: QueryString) | Word(w: string)

  /**
   * `(field, querystring) = fields[i]`: a pair unpacks; so does a two-character string, one
   * character per side; anything else does not.
   */
  function Unpack(a: Arg): Option<(string, QueryString)> {
    match a
    case Term(f, q) => Some((f, q))
    case Word(w) => if |w| == 2 then Some(([w[0]], Single([w[1]]))) else None
  }

  /** The operators the search form accepts between terms. */
  predicate IsOperator(a: Arg) {
    a.Word? && a.w in {"AND", "OR", "NOT", "SAME", "NEAR"}
  }

  /** `sep.join(items)`. */
  function Join(items: seq<string>, sep: string): string {
    if |items| == 0 then "" else if |items| == 1 then items[0] else items[0] + sep + Join(items[1..], sep)
  }

  /** The text posted for a term's query: a list is joined with `###`. */
  function QueryText(q: QueryString): string {
    match q
    case Single(s) => s
    case OneOf(items) => Join(items, "###")
  }

  /** `"value(<name><t>)"`. */
  function Key(name: string, t: int): string {
    "value(" + name + IntToString(t) + ")"
  }

  /** `"value(bool_<t>_<t+1>)"`. */
  function BoolKey(t: int): string {
    "value(bool_" + IntToString(t) + "_" + IntToString(t + 1) + ")"
  }

  /** The three pairs that post term number `t`. */
  function TermPairs(t: int, field: string, q: QueryString): Form {
    [(Key("select", t), Str(field)), (Key("input", t), Str(QueryText(q))), (Key("hidInput", t), Str(""))]
  }

  /** The most terms ISI's form admits. */
  const MAX_FIELD_COUNT := 25

  /** Whether every argument from `i` on sits where it belongs: pairs at even indices, operators at odd ones. */
  predicate WellFormedFrom(args: seq<Arg>, i: nat) {
    forall j :: i <= j < |args| ==> Placed(args, j)
  }

  /** Argument `j` is of the kind its index calls for: a pair at an even index, an operator at an odd one. */
  predicate Placed(args: seq<Arg>, j: nat)
    requires j < |args|
  {
    if j % 2 == 0 then Unpack(args[j]).Some? else IsOperator(args[j])
  }

  // ---------------------------------------------------------------- the form sections

  /** `_target`: the header pairs that route the POST to the general search of this session. */
  function Target(sid: string): Form {
    [("product", Str("WOS")), ("action", Str("search")), ("search_mode", Str("GeneralSearch")), ("SID", Str(sid))]
  }

  /** `_cruft`: fifteen constant pairs a browser sends along. */
  const CRUFT: Form := [
    ("input_invalid_notice", Str("Search Error: Please enter a search term.")),
    ("exp_notice", Str("Search Error: Patent search term could be found in more than one family (unique patent number required for Expand option) ")),
    ("max_field_notice", Str("Notice: You cannot add another field.")),
    ("input_invalid_notice_limits", Str(" <br/>Note: Fields displayed in scrolling boxes must be combined with at least one other search field.")),
    ("x", Str("0")),
    ("y", Str("0")),
    ("ss_query_language", Str("auto")),
    ("ss_showsuggestions", Str("ON")),
    ("ss_numDefaultGeneralSearchFields", Str("1")),
    ("ss_lemmatization", Str("On")),
    ("limitStatus", Str("collapsed")),
    ("update_back2search_link_param", Str("yes")),
    ("ss_spellchecking", Str("Suggest")),
    ("ssStatus", Str("display:none")),
    ("formUpdated", Str("true"))
  ]

  /**
   * The loop of `_fields` from argument index `i` (even) on: each pair becomes term number
   * `i/2 + 1`, and an argument after it must be an operator, posted between this term and the next.
   */
  function FieldsFrom(args: seq<Arg>, i: nat): (r: Result<Form, ScrapeError>)
    requires i <= |args|
    ensures r.Err? ==> r.error == ValueError || r.error == AssertionError
    decreases |args| - i
  {
    if i == |args| then Ok([])
    else match Unpack(args[i])
      case None => Err(ValueError)
      case Some(fq) =>
        var t := i / 2 + 1;
        if i + 1 == |args| then Ok(TermPairs(t, fq.0, fq.1))
        else if !IsOperator(args[i + 1]) then Err(AssertionError)
        else match FieldsFrom(args, i + 2)
          case Err(e) => Err(e)
          case Ok(rest) => Ok(TermPairs(t, fq.0, fq.1) + [(BoolKey(t), Str(args[i + 1].w))] + rest)
  }

  /**
   * `_fields`: the term and operator pairs, then `fieldCount` (the last term's number) and
   * `max_field_count`. With no terms `t` is never bound, and with more than 25 the warning's
   * format names the undefined `fieldCount`: both raise `NameError`.
   */
  function FieldsSection(args: seq<Arg>): (r: Result<Form, ScrapeError>)
    ensures r.Err? ==> r.error == ValueError || r.error == AssertionError || r.error == NameError
    ensures r.Ok? ==> 1 <= |args| && (|args| + 1) / 2 <= MAX_FIELD_COUNT
  {
    match FieldsFrom(args, 0)
    case Err(e) => Err(e)
    case Ok(body) =>
      if |args| == 0 then Err(NameError)
      else
        var t := (|args| + 1) / 2;
        if t > MAX_FIELD_COUNT then Err(NameError)
        else Ok(body + [("fieldCount", Num(t)), ("max_field_count", Num(MAX_FIELD_COUNT))])
  }

  /** One step of the term loop: it succeeds at `i` when the pair and the operator after it are right and the rest succeeds. */
  lemma FieldsFromStep(args: seq<Arg>, i: nat)
    requires i < |args|
    ensures FieldsFrom(args, i).Ok? <==>
      Unpack(args[i]).Some? && (i + 1 == |args| || (IsOperator(args[i + 1]) && FieldsFrom(args, i + 2).Ok?))
  {
  }

  /** One step of the placement predicate, at an even index. */
  lemma WellFormedStep(args: seq<Arg>, i: nat)
    requires i < |args| && i % 2 == 0
    ensures WellFormedFrom(args, i) <==>
      Unpack(args[i]).Some? && (i + 1 == |args| || (IsOperator(args[i + 1]) && WellFormedFrom(args, i + 2)))
  {
    if Unpack(args[i]).Some? && (i + 1 == |args| || (IsOperator(args[i + 1]) && WellFormedFrom(args, i + 2))) {
      forall j | i <= j < |args|
        ensures Placed(args, j)
      {
        if j >= i + 2 {
          assert i + 2 <= j < |args|;
        } else if j == i + 1 {
          assert (i + 1) % 2 == 1;
        }
      }
    }
    if WellFormedFrom(args, i) {
      assert Placed(args, i);
      if i + 1 < |args| {
        assert (i + 1) % 2 == 1;
        assert Placed(args, i + 1);
      }
    }
  }

  /** The term and operator loop succeeds exactly on well-placed arguments. */
  lemma {:induction false} FieldsFromOk(args: seq<Arg>, i: nat)
    requires i <= |args| && i % 2 == 0
    ensures FieldsFrom(args, i).Ok? <==> WellFormedFrom(args, i)
    decreases |args| - i
  {
    if i < |args| {
      FieldsFromStep(args, i);
      WellFormedStep(args, i);
      if i + 1 < |args| {
        FieldsFromOk(args, i + 2);
      }
    }
  }

  /**
   * `_fields` completes exactly when the arguments alternate pair, operator, pair, ... (a
   * trailing operator included), there is at least one and at most 25 terms.
   */
  lemma FieldsSectionOk(args: seq<Arg>)
    ensures FieldsSection(args).Ok? <==>
      0 < |args| && (|args| + 1) / 2 <= MAX_FIELD_COUNT && WellFormedFrom(args, 0)
  {
    FieldsFromOk(args, 0);
  }

  /** The three pairs of term `k` (counting from 0) in a laid-out form. */
  function Slot(r: Form, k: nat): Form
    requires 4 * k + 3 <= |r|
  {
    r[4 * k..4 * k + 3]
  }

  /** The operator pair after term `k` (counting from 0). */
  function OpSlot(r: Form, k: nat): (string, FormValue)
    requires 4 * k + 3 < |r|
  {
    r[4 * k + 3]
  }

  /** Argument `2k`, term `k` of the search, unpacked. */
  function TermAt(args: seq<Arg>, k: nat): Option<(string, QueryString)> {
    if 2 * k < |args| then Unpack(args[2 * k]) else None
  }

  /** Argument `2k+1`, the operator after term `k`. */
  function OpAt(args: seq<Arg>, k: nat): string {
    if 2 * k + 1 < |args| && args[2 * k + 1].Word? then args[2 * k + 1].w else ""
  }

  /** Term `h` of the loop: its three pairs, then (unless it is last) its operator pair and the rest of the loop. */
  lemma FieldsFromHead(args: seq<Arg>, h: nat)
    requires 2 * h < |args|
    requires FieldsFrom(args, 2 * h).Ok?
    ensures TermAt(args, h).Some?
    ensures 2 * h + 1 == |args| ==> FieldsFrom(args, 2 * h).value == TermPairs(h + 1, TermAt(args, h).value.0, TermAt(args, h).value.1)
  {
    assert (2 * h) / 2 + 1 == h + 1;
  }

  /** A term that is not last: its pairs, its operator pair, then the loop from the next term. */
  lemma FieldsFromCons(args: seq<Arg>, h: nat)
    requires 2 * h + 1 < |args|
    requires FieldsFrom(args, 2 * h).Ok?
    ensures TermAt(args, h).Some? && FieldsFrom(args, 2 * (h + 1)).Ok?
    ensures FieldsFrom(args, 2 * h).value ==
      TermPairs(h + 1, TermAt(args, h).value.0, TermAt(args, h).value.1) + [(BoolKey(h + 1), Str(OpAt(args, h)))]
      + FieldsFrom(args, 2 * (h + 1)).value
  {
    assert (2 * h) / 2 + 1 == h + 1;
    assert 2 * h + 2 == 2 * (h + 1);
  }

  /** The loop from pair `2h` on, for an odd number of arguments, posts four pairs per term but the last. */
  lemma {:induction false} FieldsFromLength(args: seq<Arg>, h: nat)
    requires 2 * h < |args| && |args| % 2 == 1
    requires FieldsFrom(args, 2 * h).Ok?
    ensures |FieldsFrom(args, 2 * h).value| == 4 * ((|args| + 1) / 2 - h) - 1
    decreases |args| - 2 * h
  {
    FieldsFromHead(args, h);
    if 2 * h + 1 < |args| {
      FieldsFromCons(args, h);
      FieldsFromLength(args, h + 1);
    }
  }

  /** Term `h` opens the loop's output from pair `2h` on. */
  lemma FieldsFromFirstTerm(args: seq<Arg>, h: nat)
    requires 2 * h < |args|
    requires FieldsFrom(args, 2 * h).Ok?
    ensures TermAt(args, h).Some?
    ensures 3 <= |FieldsFrom(args, 2 * h).value|
    ensures Slot(FieldsFrom(args, 2 * h).value, 0) == TermPairs(h + 1, TermAt(args, h).value.0, TermAt(args, h).value.1)
  {
    FieldsFromHead(args, h);
    var fq := TermAt(args, h).value;
    var term := TermPairs(h + 1, fq.0, fq.1);
    if 2 * h + 1 < |args| {
      FieldsFromCons(args, h);
      SlotOfPrefix(term, [(BoolKey(h + 1), Str(OpAt(args, h)))] + FieldsFrom(args, 2 * (h + 1)).value);
    } else {
      SlotOfPrefix(term, []);
    }
  }

  /** Slot 0 of a form is its first three pairs. */
  lemma SlotOfPrefix(head: Form, tail: Form)
    requires |head| == 3
    ensures Slot(head + tail, 0) == head
  {
    assert (head + tail)[..3] == head;
  }

  /** Term `h + k` sits in slot `k` of the loop's output from pair `2h` on, with its own number. */
  lemma FieldsFromTerm(args: seq<Arg>, h: nat, k: nat)
    requires 2 * (h + k) < |args|
    requires FieldsFrom(args, 2 * h).Ok?
    ensures TermAt(args, h + k).Some?
    ensures 4 * k + 3 <= |FieldsFrom(args, 2 * h).value|
    ensures Slot(FieldsFrom(args, 2 * h).value, k) == TermPairs(h + k + 1, TermAt(args, h + k).value.0, TermAt(args, h + k).value.1)
  {
    var j := h + k;
    FieldsFromDropMany(args, h, j);
    FieldsFromFirstTerm(args, j);
    var r := FieldsFrom(args, 2 * h).value;
    assert r[4 * k..] == r[4 * ((h + k) - h)..];
    assert Slot(r, k) == Slot(r[4 * k..], 0);
  }

  /** The operator after term `j` sits right after slot `j - h` of the loop's output from pair `2h` on, numbered between its two terms. */
  lemma FieldsFromOp(args: seq<Arg>, h: nat, j: nat)
    requires h <= j && 2 * j + 1 < |args|
    requires FieldsFrom(args, 2 * h).Ok?
    ensures 4 * (j - h) + 3 < |FieldsFrom(args, 2 * h).value|
    ensures OpSlot(FieldsFrom(args, 2 * h).value, j - h) == (BoolKey(j + 1), Str(OpAt(args, j)))
  {
    FieldsFromDropMany(args, h, j);
    FieldsFromFirstOp(args, j);
    var r := FieldsFrom(args, 2 * h).value;
    assert r[4 * (j - h) + 3] == r[4 * (j - h)..][3];
  }

  /** Past terms `h` to `j - 1` and their operators, the loop's output is the loop's from term `j`. */
  lemma {:induction false} FieldsFromDropMany(args: seq<Arg>, h: nat, j: nat)
    requires h <= j && 2 * j < |args|
    requires FieldsFrom(args, 2 * h).Ok?
    ensures FieldsFrom(args, 2 * j).Ok? && 4 * (j - h) <= |FieldsFrom(args, 2 * h).value|
    ensures FieldsFrom(args, 2 * h).value[4 * (j - h)..] == FieldsFrom(args, 2 * j).value
    decreases j - h
  {
    if h < j {
      FieldsFromDrop(args, h);
      FieldsFromDropMany(args, h + 1, j);
      var r := FieldsFrom(args, 2 * h).value;
      assert r[4 * (j - h)..] == r[4..][4 * (j - (h + 1))..];
    }
  }

  /** The operator after term `h` is the fourth pair of the loop's output from pair `2h` on. */
  lemma FieldsFromFirstOp(args: seq<Arg>, h: nat)
    requires 2 * h + 1 < |args|
    requires FieldsFrom(args, 2 * h).Ok?
    ensures 3 < |FieldsFrom(args, 2 * h).value|
    ensures FieldsFrom(args, 2 * h).value[3] == (BoolKey(h + 1), Str(OpAt(args, h)))
  {
    FieldsFromCons(args, h);
  }

  /** Past a term that is not last and its operator, the loop's output is the loop's from the next term. */
  lemma FieldsFromDrop(args: seq<Arg>, h: nat)
    requires 2 * h + 1 < |args|
    requires FieldsFrom(args, 2 * h).Ok?
    ensures FieldsFrom(args, 2 * (h + 1)).Ok? && 4 <= |FieldsFrom(args, 2 * h).value|
    ensures FieldsFrom(args, 2 * h).value[4..] == FieldsFrom(args, 2 * (h + 1)).value
  {
    FieldsFromCons(args, h);
    var fq := TermAt(args, h).value;
    var head := TermPairs(h + 1, fq.0, fq.1) + [(BoolKey(h + 1), Str(OpAt(args, h)))];
    assert (head + FieldsFrom(args, 2 * (h + 1)).value)[4..] == FieldsFrom(args, 2 * (h + 1)).value;
  }

  /**
   * The layout `_fields` posts for `n` terms: term `k` (from 1) as its select, input and
   * hidden-input pairs numbered `k`, exactly one `bool_k_k+1` pair carrying the operator between
   * terms `k` and `k+1`, then `fieldCount = n` and `max_field_count = 25`.
   */
  lemma FieldsLayout(args: seq<Arg>)
    requires |args| % 2 == 1
    requires FieldsSection(args).Ok?
    ensures var r := FieldsSection(args).value; var n := (|args| + 1) / 2;
      |r| == 4 * n + 1
      && (forall k :: 0 <= k < n ==>
            (TermAt(args, k).Some? && Slot(r, k) == TermPairs(k + 1, TermAt(args, k).value.0, TermAt(args, k).value.1)))
      && (forall k :: 0 <= k < n - 1 ==> OpSlot(r, k) == (BoolKey(k + 1), Str(OpAt(args, k))))
      && r[4 * n - 1] == ("fieldCount", Num(n))
      && r[4 * n] == ("max_field_count", Num(MAX_FIELD_COUNT))
  {
    var body := FieldsFrom(args, 0).value;
    var r := FieldsSection(args).value;
    var n := (|args| + 1) / 2;
    FieldsFromLength(args, 0);
    assert r == body + [("fieldCount", Num(n)), ("max_field_count", Num(MAX_FIELD_COUNT))];
    forall k | 0 <= k < n
      ensures TermAt(args, k).Some? && Slot(r, k) == TermPairs(k + 1, TermAt(args, k).value.0, TermAt(args, k).value.1)
    {
      FieldsFromTerm(args, 0, k);
      assert Slot(r, k) == Slot(body, k);
    }
    forall k | 0 <= k < n - 1
      ensures OpSlot(r, k) == (BoolKey(k + 1), Str(OpAt(args, k)))
    {
      FieldsFromOp(args, 0, k);
      assert OpSlot(r, k) == OpSlot(body, k);
    }
  }

  /** Every key the term loop posts is a `value(...)` key. */
  lemma {:induction false} FieldsFromKeys(args: seq<Arg>, i: nat)
    requires i <= |args|
    requires FieldsFrom(args, i).Ok?
    ensures forall j :: 0 <= j < |FieldsFrom(args, i).value| ==> StartsWith(FieldsFrom(args, i).value[j].0, "value(")
    decreases |args| - i
  {
    if i < |args| {
      var r := FieldsFrom(args, i).value;
      var fq := Unpack(args[i]).value;
      var t := i / 2 + 1;
      var term := TermPairs(t, fq.0, fq.1);
      TermPairsKeys(t, fq.0, fq.1);
      if i + 1 < |args| {
        FieldsFromKeys(args, i + 2);
        KeyPrefix("bool_", t);
        var rest := FieldsFrom(args, i + 2).value;
        assert r == term + [(BoolKey(t), Str(args[i + 1].w))] + rest;
        forall j | 0 <= j < |r|
          ensures StartsWith(r[j].0, "value(")
        {
          if j < 3 {
            assert r[j] == term[j];
          } else if j > 3 {
            assert r[j] == rest[j - 4];
          }
        }
      }
    }
  }

  /** Every `value(...)`-style key starts with `value(`. */
  lemma KeyPrefix(name: string, t: int)
    ensures StartsWith(Key(name, t), "value(") && StartsWith(BoolKey(t), "value(")
  {
    assert Key(name, t)[..6] == "value(";
    assert BoolKey(t)[..6] == "value(";
  }

  /** A term's three pairs have `value(...)` keys. */
  lemma TermPairsKeys(t: int, field: string, q: QueryString)
    ensures forall j :: 0 <= j < 3 ==> StartsWith(TermPairs(t, field, q)[j].0, "value(")
  {
    KeyPrefix("select", t);
    KeyPrefix("input", t);
    KeyPrefix("hidInput", t);
  }

  // ---------------------------------------------------------------- the timespan

  /** `timespan`: none, a `(start, end)` pair, a single year, or a string. */
  datatype Timespan = NoTimespan | YearPair(start: int, end: int) | Year(year: int) | Named(name: string)

  /** The preset ranges ISI's range drop-down offers. */
  predicate IsPreset(s: string) {
    s in {"ALL", "Latest5Years", "YearToDate", "4week", "2week", "1week"}
  }

  /**
   * `_period`: the timespan as the four pairs `period`, `startYear`, `endYear`, `range`. Only a
   * value that unpacks into two years selects the year drop-downs, and a two-character string
   * unpacks too, one character per year.
   */
  function Period(ts: Timespan): (r: Result<Form, ScrapeError>)
    ensures r.Err? <==> ts.Named? && |ts.name| != 2 && !IsPreset(ts.name)
    ensures r.Err? ==> r.error == AssertionError
    ensures r.Ok? ==> |r.value| == 4 && r.value[0].0 == "period" && r.value[1].0 == "startYear"
                      && r.value[2].0 == "endYear" && r.value[3].0 == "range"
    ensures r.Ok? ==> (r.value[0].1 == Str("Year Range") <==> !ts.NoTimespan? && !(ts.Named? && |ts.name| != 2))
    ensures r.Ok? ==> r.value[3].1 == Str(if ts.Named? && |ts.name| != 2 then ts.name else "ALL")
    ensures ts.YearPair? ==> r.Ok? && r.value[1].1 == Num(ts.start) && r.value[2].1 == Num(ts.end)
    ensures ts.Year? ==> r.Ok? && r.value[1].1 == Num(ts.year) && r.value[2].1 == Num(ts.year)
    ensures ts.Named? && |ts.name| == 2 ==> r.Ok? && r.value[1].1 == Str([ts.name[0]]) && r.value[2].1 == Str([ts.name[1]])
    ensures r.Ok? && r.value[0].1 == Str("Range Selection") ==> r.value[1].1 == Num(1900) && r.value[2].1 == Num(2000)
  {
    match ts
    case NoTimespan => PeriodPairs("Range Selection", Num(1900), Num(2000), "ALL")
    case YearPair(a, b) => PeriodPairs("Year Range", Num(a), Num(b), "ALL")
    case Year(y) => PeriodPairs("Year Range", Num(y), Num(y), "ALL")
    case Named(s) =>
      if |s| == 2 then PeriodPairs("Year Range", Str([s[0]]), Str([s[1]]), "ALL")
      else if IsPreset(s) then PeriodPairs("Range Selection", Num(1900), Num(2000), s)
      else Err(AssertionError)
  }

  function PeriodPairs(period: string, startYear: FormValue, endYear: FormValue, range: string): Result<Form, ScrapeError> {
    Ok([("period", Str(period)), ("startYear", startYear), ("endYear", endYear), ("range", Str(range))])
  }

  /** A single year is the range from that year to itself; no timespan is the browser's default range. */
  lemma {:induction false} PeriodDefaults(y: int)
    ensures Period(Year(y)) == Period(YearPair(y, y))
    ensures Period(NoTimespan) == Period(Named("ALL"))
    ensures Period(NoTimespan).value[1].1 == Num(1900) && Period(NoTimespan).value[2].1 == Num(2000)
  {
    assert |"ALL"| == 3 && IsPreset("ALL");
  }

  // ---------------------------------------------------------------- form assembly

  /** `_sort_order`. */
  function SortOrder(sort: string): Form {
    [("rs_sort_by", Str(sort))]
  }

  /** `_editions`: one `editions` pair per edition, in order (ISI reads the repeated key as a list). */
  function Editions(editions: seq<string>): (r: Form)
    ensures |r| == |editions| && forall i :: 0 <= i < |r| ==> r[i] == ("editions", Str(editions[i]))
  {
    seq(|editions|, i requires 0 <= i < |editions| => ("editions", Str(editions[i])))
  }

  /**
   * The general-search form: target, cruft, fields, sort order and editions, in that order. The
   * timespan's `_period` section is never added, so the timespan does not reach the form.
   */
  function GeneralSearchForm(sid: string, args: seq<Arg>, editions: seq<string>, sort: string): (r: Result<Form, ScrapeError>)
    ensures r.Ok? <==> FieldsSection(args).Ok?
    ensures r.Err? ==> r == Err(FieldsSection(args).error)
    ensures r.Ok? ==> var f := r.value; var n := |FieldsSection(args).value|;
      |f| == 19 + n + 1 + |editions|
      && f[..4] == Target(sid) && f[4..19] == CRUFT && f[19..19 + n] == FieldsSection(args).value
      && f[19 + n] == ("rs_sort_by", Str(sort)) && f[20 + n..] == Editions(editions)
  {
    match FieldsSection(args)
    case Err(e) => Err(e)
    case Ok(fields) =>
      var f := Target(sid) + CRUFT + fields + SortOrder(sort) + Editions(editions);
      ConcatParts(Target(sid), CRUFT, fields, SortOrder(sort), Editions(editions));
      Ok(f)
  }

  /** The five parts of a concatenation are its slices at the running lengths. */
  lemma ConcatParts<T>(a: seq<T>, b: seq<T>, c: seq<T>, d: seq<T>, e: seq<T>)
    ensures var f := a + b + c + d + e;
      |f| == |a| + |b| + |c| + |d| + |e|
      && f[..|a|] == a && f[|a|..|a| + |b|] == b && f[|a| + |b|..|a| + |b| + |c|] == c
      && f[|a| + |b| + |c|..|a| + |b| + |c| + |d|] == d && f[|a| + |b| + |c| + |d|..] == e
  {
    var f := a + b + c + d + e;
    assert f[..|a|] == a;
    assert f[|a|..|a| + |b|] == b;
    assert f[|a| + |b|..|a| + |b| + |c|] == c;
    assert f[|a| + |b| + |c|..|a| + |b| + |c| + |d|] == d;
    assert f[|a| + |b| + |c| + |d|..] == e;
  }

  /** No key of the posted form is one of `_period`'s: whatever the timespan, it is not sent. */
  lemma TimespanNotPosted(sid: string, args: seq<Arg>, editions: seq<string>, sort: string)
    requires GeneralSearchForm(sid, args, editions, sort).Ok?
    ensures forall j :: 0 <= j < |GeneralSearchForm(sid, args, editions, sort).value| ==>
      GeneralSearchForm(sid, args, editions, sort).value[j].0 !in {"period", "startYear", "endYear", "range"}
  {
    var f := GeneralSearchForm(sid, args, editions, sort).value;
    var fields := FieldsSection(args).value;
    var n := |fields|;
    FieldsSectionNoPeriod(args);
    forall j | 0 <= j < |f|
      ensures f[j].0 !in {"period", "startYear", "endYear", "range"}
    {
      if j < 4 {
        assert f[j] == Target(sid)[j];
      } else if j < 19 {
        assert f[j] == CRUFT[j - 4];
      } else if j < 19 + n {
        assert f[j] == fields[j - 19];
      } else if j > 19 + n {
        assert f[j] == Editions(editions)[j - 20 - n];
      }
    }
  }

  /** No key of `_fields` is one of `_period`'s. */
  lemma FieldsSectionNoPeriod(args: seq<Arg>)
    requires FieldsSection(args).Ok?
    ensures forall j :: 0 <= j < |FieldsSection(args).value| ==>
      FieldsSection(args).value[j].0 !in {"period", "startYear", "endYear", "range"}
  {
    var fields := FieldsSection(args).value;
    var body := FieldsFrom(args, 0).value;
    FieldsFromKeys(args, 0);
    assert fields == body + [("fieldCount", Num((|args| + 1) / 2)), ("max_field_count", Num(MAX_FIELD_COUNT))];
    forall j | 0 <= j < |fields|
      ensures fields[j].0 !in {"period", "startYear", "endYear", "range"}
    {
      if j < |body| {
        assert fields[j] == body[j];
        assert StartsWith(fields[j].0, "value(");
        assert fields[j].0[0] == 'v';
      }
    }
  }

  /** The section-by-section `form += ...` of `generalSearch`. */
  method AssembleForm(sid: string, args: seq<Arg>, editions: seq<string>, sort: string) returns (r: Result<Form, ScrapeError>)
    ensures r == GeneralSearchForm(sid, args, editions, sort)
  {
    var form: Form := [];
    form := form + Target(sid);
    form := form + CRUFT;
    var fields := FieldsSection(args);
    if fields.Err? {
      return Err(fields.error);
    }
    form := form + fields.value;
    form := form + SortOrder(sort);
    form := form + Editions(editions);
    assert form == Target(sid) + CRUFT + fields.value + SortOrder(sort) + Editions(editions);
    return Ok(form);
  }

  /**
   * The command line's query: each `FIELD=filter` pair followed by `AND` (the
   * `flatten(zip(query, cycle(["AND"])))` line), with the straggling last `AND` cut off.
   */
  function AndQuery(terms: seq<Arg>): seq<Arg> {
    var flat := Flatten(seq(|terms|, i requires 0 <= i < |terms| => [terms[i], Word("AND")]));
    if |flat| == 0 then [] else flat[..|flat| - 1]
  }

  /** Between one and 25 command-line pairs always make a form the fields section accepts, counting one field per pair. */
  lemma AndQueryAccepted(terms: seq<Arg>)
    requires 0 < |terms| <= MAX_FIELD_COUNT
    requires forall i :: 0 <= i < |terms| ==> terms[i].Term?
    ensures |AndQuery(terms)| == 2 * |terms| - 1
    ensures FieldsSection(AndQuery(terms)).Ok? && |FieldsSection(AndQuery(terms)).value| == 4 * |terms| + 1
    ensures FieldsSection(AndQuery(terms)).value[4 * |terms| - 1] == ("fieldCount", Num(|terms|))
  {
    var L := seq(|terms|, i requires 0 <= i < |terms| => [terms[i], Word("AND")]);
    var q := AndQuery(terms);
    FlattenPairsLength(L);
    forall j | 0 <= j < |q|
      ensures Placed(q, j)
    {
      FlattenPairsAt(L, j / 2);
      if j % 2 == 0 {
        assert q[j] == Flatten(L)[2 * (j / 2)] == terms[j / 2];
      } else {
        assert q[j] == Flatten(L)[2 * (j / 2) + 1] == Word("AND");
      }
    }
    FieldsSectionOk(q);
    FieldsLayout(q);
  }

  // ---------------------------------------------------------------- the hit count

  /** `"".join` of a number's digits in groups of three, separated by commas (`1,234,567`). */
  function Grouped(n: nat): string
    decreases n
  {
    if n < 1000 then NatToString(n) else Grouped(n / 1000) + "," + ZeroPad(NatToString(n % 1000), 3)
  }

  /**
   * The count read off the result footer: `estimated` when `approximately` occurs in the
   * lower-cased text, the number being the last whitespace-separated word with its commas
   * removed and read by `int()`.
   */
  function ParseCount(text: string): (r: Result<(int, bool), ScrapeError>)
    ensures r.Err? <==> r == Err(IndexError) || r == Err(ValueError)
    ensures r == Err(IndexError) <==> forall i :: 0 <= i < |text| ==> IsUnicodeSpace(text[i])
    ensures r.Ok? ==> r.value.1 == Contains(Lower(text), "approximately")
  {
    var estimated := Contains(Lower(text), "approximately");
    match LastWord(text)
    case None => Err(IndexError)
    case Some(word) =>
      match ParseInt(RemoveAll(word, ','))
      case None => Err(ValueError)
      case Some(n) => Ok((n, estimated))
  }

  /** Dropping the commas of a grouped number leaves its decimal digits, which read back as the number. */
  lemma {:induction false} GroupedDigits(n: nat)
    ensures AllDigits(RemoveAll(Grouped(n), ',')) && |RemoveAll(Grouped(n), ',')| > 0
    ensures DigitsValue(RemoveAll(Grouped(n), ',')) == n
    ensures forall i :: 0 <= i < |Grouped(n)| ==> IsDigit(Grouped(n)[i]) || Grouped(n)[i] == ','
    decreases n
  {
    GroupedChars(n);
    if n < 1000 {
      RemoveAllAbsent(NatToString(n), ',');
      NatToStringValue(n);
    } else {
      var hi := RemoveAll(Grouped(n / 1000), ',');
      var lo := ZeroPad(NatToString(n % 1000), 3);
      GroupedDigits(n / 1000);
      GroupLow(n % 1000);
      GroupedSplit(n);
      DigitsValueAppend(hi, lo);
      assert Pow10(3) == 1000;
      assert DigitsValue(hi + lo) == (n / 1000) * 1000 + n % 1000;
    }
  }

  /** Every character of a grouped number is a digit or a comma. */
  lemma {:induction false} GroupedChars(n: nat)
    ensures forall i :: 0 <= i < |Grouped(n)| ==> IsDigit(Grouped(n)[i]) || Grouped(n)[i] == ','
    decreases n
  {
    if n >= 1000 {
      var hi := Grouped(n / 1000);
      var lo := ZeroPad(NatToString(n % 1000), 3);
      GroupedChars(n / 1000);
      GroupLow(n % 1000);
      assert Grouped(n) == hi + "," + lo;
      forall i | 0 <= i < |Grouped(n)|
        ensures IsDigit(Grouped(n)[i]) || Grouped(n)[i] == ','
      {
        if i < |hi| {
          assert Grouped(n)[i] == hi[i];
        } else if i > |hi| {
          assert Grouped(n)[i] == lo[i - |hi| - 1];
        }
      }
    }
  }

  /** One group below the top: three digits, no comma, reading back as `m`. */
  lemma GroupLow(m: nat)
    requires m < 1000
    ensures |ZeroPad(NatToString(m), 3)| == 3 && AllDigits(ZeroPad(NatToString(m), 3))
    ensures DigitsValue(ZeroPad(NatToString(m), 3)) == m
    ensures RemoveAll(ZeroPad(NatToString(m), 3), ',') == ZeroPad(NatToString(m), 3)
  {
    var lo := ZeroPad(NatToString(m), 3);
    ZeroPadValue(NatToString(m), 3);
    NatToStringValue(m);
    assert Pow10(3) == 1000;
    NatToStringLength(m, 3);
    RemoveAllAbsent(lo, ',');
  }

  /** Dropping the commas of `hi,lo` leaves the digits of `hi` followed by `lo`. */
  lemma GroupedSplit(n: nat)
    requires n >= 1000
    ensures RemoveAll(Grouped(n), ',') == RemoveAll(Grouped(n / 1000), ',') + ZeroPad(NatToString(n % 1000), 3)
  {
    var hi := Grouped(n / 1000);
    var lo := ZeroPad(NatToString(n % 1000), 3);
    GroupLow(n % 1000);
    assert Grouped(n) == hi + "," + lo;
    RemoveAllAppend(hi + ",", lo, ',');
    RemoveAllAppend(hi, ",", ',');
    assert RemoveAll(",", ',') == [];
    assert RemoveAll(hi, ',') + [] == RemoveAll(hi, ',');
  }

  /** A grouped number is one word: it has no whitespace and no letter `a`. */
  lemma GroupedIsWord(n: nat)
    ensures |Grouped(n)| > 0 && NoUnicodeSpace(Grouped(n))
    ensures forall i :: 0 <= i < |Grouped(n)| ==> Grouped(n)[i] != 'a' && LowerChar(Grouped(n)[i]) != 'a'
  {
    var g := Grouped(n);
    GroupedDigits(n);
    assert |RemoveAll(g, ',')| <= |g|;
    forall i | 0 <= i < |g|
      ensures !IsUnicodeSpace(g[i]) && g[i] != 'a' && LowerChar(g[i]) != 'a'
    {
      assert IsDigit(g[i]) || g[i] == ',';
    }
  }

  /** The footer's `1,234` reads back as the exact count. */
  lemma CountRoundTrip(n: nat)
    ensures ParseCount(Grouped(n)) == Ok((n, false))
  {
    var g := Grouped(n);
    GroupedDigits(n);
    GroupedIsWord(n);
    LastWordOfWord(g);
    assert forall i :: 0 <= i < |Lower(g)| ==> Lower(g)[i] != 'a';
    MissingFirstCharNotContained(Lower(g), "approximately");
  }

  /** The footer's `approximately 1,234` reads back as the estimated count. */
  lemma EstimatedCountRoundTrip(n: nat)
    ensures ParseCount("approximately " + Grouped(n)) == Ok((n, true))
  {
    var text := "approximately " + Grouped(n);
    EstimatedLastWord(n);
    EstimatedMarked(Grouped(n));
    GroupedParses(n);
    assert ParseCount(text) == Ok((n, Contains(Lower(text), "approximately")));
  }

  /** The last word of `approximately 1,234` is the grouped number. */
  lemma EstimatedLastWord(n: nat)
    ensures LastWord("approximately " + Grouped(n)) == Some(Grouped(n))
  {
    var g := Grouped(n);
    GroupedIsWord(n);
    assert "approximately " + g == "approximately" + [' '] + g;
    LastWordAfterSeparator("approximately", ' ', g);
  }

  /** A text opening with `approximately ` is marked as an estimate. */
  lemma EstimatedMarked(g: string)
    ensures Contains(Lower("approximately " + g), "approximately")
  {
    LowerKeepsPrefix("approximately", " " + g);
    assert "approximately " + g == "approximately" + (" " + g);
    StartsWithContains(Lower("approximately " + g), "approximately");
  }

  /** Dropping the commas of a grouped number leaves a string `int()` reads as the number. */
  lemma GroupedParses(n: nat)
    ensures ParseInt(RemoveAll(Grouped(n), ',')) == Some(n)
  {
    GroupedDigits(n);
  }

  /** Lower-casing a text that opens with a lower-case word keeps that word at its head. */
  lemma LowerKeepsPrefix(w: string, rest: string)
    requires forall i :: 0 <= i < |w| ==> !('A' <= w[i] <= 'Z')
    ensures StartsWith(Lower(w + rest), w)
  {
    var l := Lower(w + rest);
    forall i | 0 <= i < |w|
      ensures l[i] == w[i]
    {
      assert (w + rest)[i] == w[i];
    }
    assert l[..|w|] == w;
  }

  // ---------------------------------------------------------------- queries and export

  /** An `ISIQuery`: the session's `SID`, the cached result set's `qid`, its size and whether that is an estimate. */
  datatype IsiQuery = IsiQuery(sid: string, qid: string, size: int, estimated: bool)

  /**
   * `generalSearch` after the POST: the form must build, the response must pass
   * `raise_for_status()`, and the footer's count must parse. The `qid` and the footer text are
   * what the HTML scraping hands over.
   */
  function GeneralSearch(sid: string, args: seq<Arg>, editions: seq<string>, sort: string,
                         response: Response, qid: string, countText: string): (r: Result<IsiQuery, ScrapeError>)
    ensures r.Ok? <==> GeneralSearchForm(sid, args, editions, sort).Ok? && response.statusOk && ParseCount(countText).Ok?
    ensures GeneralSearchForm(sid, args, editions, sort).Ok? && !response.statusOk ==> r == Err(HTTPError(false))
    ensures r.Ok? ==> r.value.sid == sid && r.value.qid == qid
                      && (r.value.size, r.value.estimated) == ParseCount(countText).value
  {
    match GeneralSearchForm(sid, args, editions, sort)
    case Err(e) => Err(e)
    case Ok(_) =>
      if !response.statusOk then Err(HTTPError(false))
      else match ParseCount(countText)
        case Err(e) => Err(e)
        case Ok(c) => Ok(IsiQuery(sid, qid, c.0, c.1))
  }

  /** The export service's `save_options` for ISI's flat field-tagged format. */
  const FIELD_TAGGED := "fieldtagged"

  /** The export fields requested: every field ISI offers. */
  const EXPORT_FIELDS := "PMID USAGEIND AUTHORSIDENTIFIERS ACCESSION_NUM FUNDING SUBJECT_CATEGORY JCR_CATEGORY LANG IDS PAGEC SABBR CITREFC ISSN PUBINFO KEYWORDS CITTIMES ADDRS CONFERENCE_SPONSORS DOCTYPE CITREF ABSTRACT CONFERENCE_INFO SOURCE TITLE AUTHORS  "

  /** The range `export` accepts: non-negative, non-empty, at most 500 records. */
  predicate ValidRange(start: int, end: int) {
    start >= 0 && end >= 0 && start < end && end - start <= 500
  }

  /** The POST body of `export`, in the order the dict lists it; the range is sent twice under two spellings. */
  function ExportForm(q: IsiQuery, start: int, end: int, format: string): Form {
    ExportOptions(format) + Marks(start, end) + ExportIdentity(q)
  }

  /** The field selection, output-service and locale pairs that open the export form. */
  function ExportOptions(format: string): (r: Form)
    ensures |r| == 10
  {
    [("IncitesEntitled", Str("no")), ("count_new_items_marked", Str("0")),
     ("displayCitedRefs", Str("true")), ("displayTimesCited", Str("true")),
     ("fields_selection", Str(EXPORT_FIELDS)), ("filters", Str(EXPORT_FIELDS)),
     ("format", Str("saveToFile")), ("mode", Str("OpenOutputService")), ("save_options", Str(format)),
     ("locale", Str("en_US"))]
  }

  /** The range, each bound under both of the spellings the service reads. */
  function Marks(start: int, end: int): Form {
    [("markFrom", Str(IntToString(start))), ("mark_from", Str(IntToString(start))),
     ("markTo", Str(IntToString(end))), ("mark_to", Str(IntToString(end)))]
  }

  /** The product, session, result set, sort and view pairs that close the export form. */
  function ExportIdentity(q: IsiQuery): Form {
    [("product", Str("WOS")), ("mark_id", Str("WOS")), ("colName", Str("WOS")),
     ("SID", Str(q.sid)), ("qid", Str(q.qid)),
     ("sortBy", Str("PY.A;LD.D;SO.A;VL.D;PG.A;AU.A")), ("value(record_select_type)", Str("range")),
     ("viewType", Str("summary")), ("view_name", Str("WOS-summary"))]
  }

  /** The first value posted under `key`, as a server reading a form into a dict by first occurrence would see it. */
  function Lookup(form: Form, key: string): Option<FormValue> {
    if |form| == 0 then None else if form[0].0 == key then Some(form[0].1) else Lookup(form[1..], key)
  }

  /** Pairs whose key differs from `key` are passed over by the lookup. */
  lemma {:induction false} LookupSkip(a: Form, b: Form, key: string)
    requires forall i :: 0 <= i < |a| ==> a[i].0 != key
    ensures Lookup(a + b, key) == Lookup(b, key)
  {
    if |a| > 0 {
      assert (a + b)[1..] == a[1..] + b;
      LookupSkip(a[1..], b, key);
    } else {
      assert a + b == b;
    }
  }

  /** No key of the export's opening pairs is a spelling of a range bound. */
  lemma ExportOptionsKeys(format: string)
    ensures forall i :: 0 <= i < 10 ==> ExportOptions(format)[i].0 !in {"markFrom", "mark_from", "markTo", "mark_to"}
  {
    var o := ExportOptions(format);
    forall i | 0 <= i < 10
      ensures o[i].0 !in {"markFrom", "mark_from", "markTo", "mark_to"}
    {
      assert |o[i].0| in {4, 6, 7, 12, 15, 16, 17, 22};
      if |o[i].0| in {6, 7} {
        assert o[i].0[0] in {'f', 'l'};
      }
    }
  }

  /** The first occurrence of each spelling of the bounds, in the range pairs followed by anything. */
  lemma MarksLookup(start: nat, end: nat, tail: Form)
    ensures var f := Marks(start, end) + tail;
      Lookup(f, "markFrom") == Lookup(f, "mark_from") == Some(Str(NatToString(start)))
      && Lookup(f, "markTo") == Lookup(f, "mark_to") == Some(Str(NatToString(end)))
  {
    var f := Marks(start, end) + tail;
    assert f[0] == ("markFrom", Str(NatToString(start)));
    assert f[1..][0] == ("mark_from", Str(NatToString(start)));
    assert f[1..][1..][0] == ("markTo", Str(NatToString(end)));
    assert f[1..][1..][1..][0] == ("mark_to", Str(NatToString(end)));
    assert Lookup(f, "markTo") == Lookup(f[1..], "markTo") == Lookup(f[1..][1..], "markTo");
    assert Lookup(f, "mark_to") == Lookup(f[1..], "mark_to") == Lookup(f[1..][1..], "mark_to")
      == Lookup(f[1..][1..][1..], "mark_to");
  }

  /** Both spellings of each range bound carry the same decimal text, and it reads back as the bound. */
  lemma ExportMarksReadBack(q: IsiQuery, start: int, end: int, format: string)
    requires ValidRange(start, end)
    ensures var f := ExportForm(q, start, end, format);
      Lookup(f, "markFrom") == Lookup(f, "mark_from") == Some(Str(NatToString(start)))
      && Lookup(f, "markTo") == Lookup(f, "mark_to") == Some(Str(NatToString(end)))
    ensures ParseInt(NatToString(start)) == Some(start) && ParseInt(NatToString(end)) == Some(end)
  {
    NatToStringValue(start);
    NatToStringValue(end);
    var head, marks, tail := ExportOptions(format), Marks(start, end), ExportIdentity(q);
    assert ExportForm(q, start, end, format) == head + (marks + tail);
    ExportOptionsKeys(format);
    MarksLookup(start, end, tail);
    LookupSkip(head, marks + tail, "markFrom");
    LookupSkip(head, marks + tail, "mark_from");
    LookupSkip(head, marks + tail, "markTo");
    LookupSkip(head, marks + tail, "mark_to");
  }

  /**
   * `export(start, end)` given the service's response: the range assertions come first, then
   * `raise_for_status()`, then the redirect ISI uses to report a range past the result set.
   */
  function Export(start: int, end: int, response: Response): Result<Response, ScrapeError> {
    if !ValidRange(start, end) then Err(AssertionError)
    else if !response.statusOk then Err(HTTPError(false))
    else if QueryHasKey(response.finalQuery, "error_display_redirect") then Err(HTTPError(true))
    else Ok(response)
  }

  /**
   * What `export` promises: the response comes back exactly when the range is valid, the status
   * is good and ISI did not redirect to its error display; a bad range is an assertion failure,
   * and every other failure is an `HTTPError`.
   */
  lemma ExportOutcome(start: int, end: int, response: Response)
    ensures Export(start, end, response).Ok? <==>
      ValidRange(start, end) && response.statusOk && !QueryHasKey(response.finalQuery, "error_display_redirect")
    ensures Export(start, end, response).Ok? ==> Export(start, end, response).value == response
    ensures !ValidRange(start, end) <==> Export(start, end, response) == Err(AssertionError)
    ensures ValidRange(start, end) && Export(start, end, response).Err? ==>
      Export(start, end, response).error == HTTPError(response.statusOk)
  {
  }

  /** Whatever the server answers, a range the assertions reject is rejected before anything is sent. */
  lemma InvalidRangeIndependentOfServer(start: int, end: int, a: Response, b: Response)
    requires !ValidRange(start, end)
    ensures Export(start, end, a) == Export(start, end, b) == Err(AssertionError)
  {
  }

  // ---------------------------------------------------------------- rip

  /** The first record of block `k`: ISI numbers records from 1. */
  function Block(k: nat): (b: nat)
    ensures b >= 1 && b % 500 == 1
  {
    500 * k + 1
  }

  /** `"%s_%04d%s" % (base_name, block, ext)`. */
  function BlockFileName(base: string, ext: string, block: nat): string {
    base + "_" + Pad4(block) + ext
  }

  /** Distinct blocks go to distinct files, so no block overwrites another. */
  lemma BlockFileNameInjective(base: string, ext: string, a: nat, b: nat)
    requires BlockFileName(base, ext, a) == BlockFileName(base, ext, b)
    ensures a == b
  {
    var x := BlockFileName(base, ext, a);
    assert |Pad4(a)| == |Pad4(b)|;
    assert Pad4(a) == x[|base| + 1..|x| - |ext|] == Pad4(b);
    Pad4Injective(a, b);
  }

  /** The files left by `n` numbered writes, write `k` putting `content(k)` under `name(k)`. */
  function Written(name: nat -> string, content: nat -> string, n: nat): map<string, string> {
    if n == 0 then map[] else Written(name, content, n - 1)[name(n - 1) := content(n - 1)]
  }

  /** With distinct names, every write survives the later ones, and nothing else is written. */
  lemma {:induction false} WrittenContents(name: nat -> string, content: nat -> string, n: nat)
    requires forall j: nat, k: nat :: j != k ==> name(j) != name(k)
    ensures forall k: nat :: k < n ==> name(k) in Written(name, content, n) && Written(name, content, n)[name(k)] == content(k)
    ensures forall f :: f in Written(name, content, n) ==> exists k: nat :: k < n && f == name(k)
  {
    if n > 0 {
      WrittenContents(name, content, n - 1);
      var prev := Written(name, content, n - 1);
      forall f | f in Written(name, content, n)
        ensures exists k: nat :: k < n && f == name(k)
      {
        if f != name(n - 1) {
          assert f in prev;
        }
      }
    }
  }

  /** Block `k`'s file name. */
  function BlockName(base: string, ext: string): nat -> string {
    (k: nat) => BlockFileName(base, ext, Block(k))
  }

  /** Block `k`'s exported text. */
  function BlockText(server: nat -> Response): nat -> string {
    (k: nat) => server(k).text
  }

  /** The files written for the first `n` blocks: block `k`'s response text under its numbered name. */
  function Exported(base: string, ext: string, server: nat -> Response, n: nat): map<string, string> {
    Written(BlockName(base, ext), BlockText(server), n)
  }

  /** After `n` blocks, each block's file holds exactly that block's text, and there is no other file. */
  lemma ExportedContents(base: string, ext: string, server: nat -> Response, n: nat)
    ensures forall k :: 0 <= k < n ==>
      (BlockFileName(base, ext, Block(k)) in Exported(base, ext, server, n)
       && Exported(base, ext, server, n)[BlockFileName(base, ext, Block(k))] == server(k).text)
    ensures forall name :: name in Exported(base, ext, server, n) ==>
      exists k :: 0 <= k < n && name == BlockFileName(base, ext, Block(k))
  {
    var name := BlockName(base, ext);
    forall j: nat, k: nat | j != k
      ensures name(j) != name(k)
    {
      BlockFileNamesDiffer(base, ext, j, k);
    }
    WrittenContents(name, BlockText(server), n);
    var files := Exported(base, ext, server, n);
    forall k | 0 <= k < n
      ensures BlockFileName(base, ext, Block(k)) in files && files[BlockFileName(base, ext, Block(k))] == server(k).text
    {
      assert name(k) == BlockFileName(base, ext, Block(k));
    }
    forall f | f in files
      ensures exists k :: 0 <= k < n && f == BlockFileName(base, ext, Block(k))
    {
      var k: nat :| k < n && f == name(k);
      assert f == BlockFileName(base, ext, Block(k));
    }
  }

  /** Two different blocks are written to two different files. */
  lemma BlockFileNamesDiffer(base: string, ext: string, j: nat, k: nat)
    requires j != k
    ensures BlockFileName(base, ext, Block(j)) != BlockFileName(base, ext, Block(k))
  {
    if BlockFileName(base, ext, Block(j)) == BlockFileName(base, ext, Block(k)) {
      BlockFileNameInjective(base, ext, Block(j), Block(k));
    }
  }

  /** Writing block `k`'s file on top of the directory and the first `k` blocks' files gives the first `k + 1`. */
  lemma ExportedNext(dir: map<string, string>, base: string, ext: string, server: nat -> Response, k: nat)
    ensures (dir + Exported(base, ext, server, k))[BlockFileName(base, ext, Block(k)) := server(k).text]
         == dir + Exported(base, ext, server, k + 1)
  {
    ExportedUnfold(base, ext, server, k);
    UnionUpdate(dir, Exported(base, ext, server, k), BlockFileName(base, ext, Block(k)), server(k).text);
  }

  /** Block `k`'s file is the last one written among the first `k + 1`. */
  lemma ExportedUnfold(base: string, ext: string, server: nat -> Response, k: nat)
    ensures Exported(base, ext, server, k + 1) == Exported(base, ext, server, k)[BlockFileName(base, ext, Block(k)) := server(k).text]
  {
    assert BlockName(base, ext)(k) == BlockFileName(base, ext, Block(k));
    assert BlockText(server)(k) == server(k).text;
  }

  /** A union with an empty directory is the directory. */
  lemma UnionEmpty<K, V>(a: map<K, V>, b: map<K, V>)
    requires b == map[]
    ensures a + b == a
  {
  }

  /** Writing over a union of directories is writing over its right-hand side. */
  lemma UnionUpdate<K, V>(a: map<K, V>, b: map<K, V>, key: K, v: V)
    ensures (a + b)[key := v] == a + b[key := v]
  {
  }

  /** None of the first `n` blocks failed or lay past the limit. */
  predicate Unblocked(server: nat -> Response, upperLimit: int, n: nat) {
    forall k :: 0 <= k < n ==> !BlockFails(server, k) && !PastLimit(upperLimit, k)
  }

  /** One more block that neither failed nor lay past the limit. */
  lemma UnblockedNext(server: nat -> Response, upperLimit: int, n: nat)
    requires Unblocked(server, upperLimit, n) && !BlockFails(server, n) && !PastLimit(upperLimit, n)
    ensures Unblocked(server, upperLimit, n + 1)
  {
  }

  /** The starts of the first `n` requested blocks: `1, 501, 1001, ...`. */
  function Requested(n: nat): (r: seq<nat>)
    ensures |r| == n && forall k :: 0 <= k < n ==> r[k] == Block(k)
  {
    if n == 0 then [] else Requested(n - 1) + [Block(n - 1)]
  }

  /** `open(..., 'w').write(text)` for block `k`: the directory then holds the first `k + 1` blocks' files. */
  method SaveBlock(dir: map<string, string>, base: string, ext: string, server: nat -> Response, k: nat,
                   files: map<string, string>, text: string) returns (saved: map<string, string>)
    requires files == dir + Exported(base, ext, server, k) && text == server(k).text
    ensures saved == dir + Exported(base, ext, server, k + 1)
  {
    ExportedNext(dir, base, ext, server, k);
    saved := files[BlockFileName(base, ext, Block(k)) := text];
  }

  /** `self.export(block, block + 500)` for block `k`: whether it returned, and the text it returned. */
  method ExportBlock(server: nat -> Response, k: nat) returns (ok: bool, text: string)
    ensures ok <==> !BlockFails(server, k)
    ensures ok ==> text == server(k).text
  {
    var r := Export(Block(k), Block(k) + 500, server(k));
    ok := r.Ok?;
    text := if r.Ok? then r.value.text else "";
  }

  /** The export of block `k` raises. */
  predicate BlockFails(server: nat -> Response, k: nat) {
    Export(Block(k), Block(k) + 500, server(k)).Err?
  }

  /** The walk does not go past block `k`: it lies past a non-zero upper limit. */
  predicate PastLimit(upperLimit: int, k: nat) {
    upperLimit != 0 && Block(k) > upperLimit
  }

  /** Every block's range passes `export`'s assertions, so a failing block fails with an `HTTPError`. */
  lemma BlockFailureIsHttp(server: nat -> Response, k: nat)
    requires BlockFails(server, k)
    ensures Export(Block(k), Block(k) + 500, server(k)).error.HTTPError?
  {
  }

  /**
   * `ISIQuery.rip(fname, upper_limit)`: export blocks 1, 501, 1001, ... each as
   * `export(b, b + 500)`, writing each response's text to `base_%04d.ext`, until a block lies past
   * a non-zero upper limit or an export raises `HTTPError`. `server(k)` is the response to block
   * `k`'s export; `requested` lists the blocks asked for, in order. With no upper limit the walk
   * ends only at a failing block, which `stop` names.
   */
  method Rip(fname: string, upperLimit: int, server: nat -> Response, dir: map<string, string>, ghost stop: nat)
    returns (files: map<string, string>, blocks: nat, requested: seq<nat>)
    requires upperLimit != 0 || BlockFails(server, stop)
    ensures files == dir + Exported(SplitExt(fname).0, SplitExt(fname).1, server, blocks)
    ensures forall k :: 0 <= k < blocks ==> !BlockFails(server, k) && !PastLimit(upperLimit, k)
    ensures PastLimit(upperLimit, blocks) || BlockFails(server, blocks)
    ensures |requested| == if PastLimit(upperLimit, blocks) then blocks else blocks + 1
    ensures forall k :: 0 <= k < |requested| ==> requested[k] == Block(k)
  {
    var base, ext := SplitExt(fname).0, SplitExt(fname).1;
    files := dir;
    blocks := 0;
    requested := [];
    UnionEmpty(dir, Exported(base, ext, server, 0));
    while true
      invariant files == dir + Exported(base, ext, server, blocks)
      invariant Unblocked(server, upperLimit, blocks)
      invariant upperLimit == 0 ==> blocks <= stop
      invariant requested == Requested(blocks)
      decreases if upperLimit != 0 then upperLimit - 500 * blocks else stop - blocks
    {
      var block: nat := Block(blocks);
      if upperLimit != 0 && block > upperLimit {
        break;
      }
      requested := requested + [block];
      assert requested == Requested(blocks + 1);
      var ok, text := ExportBlock(server, blocks);
      if !ok {
        break;
      }
      UnblockedNext(server, upperLimit, blocks);
      files := SaveBlock(dir, base, ext, server, blocks, files, text);
      blocks := blocks + 1;
    }
  }

  // ---------------------------------------------------------------- the relay session

  /** The relay suffix this copy appends to every host. */
  const UW_SUFFIX := "." + EzProxy.UW_ADDRESS

  /** `proxyify` of this file: the suffix is appended unconditionally. */
  function ProxyifyUW(url: Url): Url {
    url.(host := url.host + UW_SUFFIX)
  }

  /** Unlike the relay-aware rewrite, this one is not idempotent: a rewritten URL gets a second suffix. */
  lemma ProxyifyUWNotIdempotent(url: Url)
    ensures ProxyifyUW(ProxyifyUW(url)) != ProxyifyUW(url)
    ensures ProxyifyUW(ProxyifyUW(url)).host == url.host + UW_SUFFIX + UW_SUFFIX
  {
    assert |ProxyifyUW(ProxyifyUW(url)).host| > |ProxyifyUW(url).host|;
  }

  /** On a host not yet routed through the relay, both rewrites agree. */
  lemma ProxyifyUWAgreesOnFreshHosts(url: Url)
    requires !EndsWith(url.host, EzProxy.UW_ADDRESS)
    ensures ProxyifyUW(url) == EzProxy.Proxyify(EzProxy.UW_ADDRESS, url)
  {
  }

  /** The deliberately host-less login URL `http://login/login`. */
  const LOGIN_URL := Url("http", "login", "/login", "", "", "")

  /**
   * This file's `UWProxy` session: a login flag and account like `EzProxy`'s, but the login
   * neither checks the starting state nor rolls back on failure.
   */
  class UWProxy {
    var loggedIn: LoginState
    var user: Option<string>
    var cookies: map<string, string>

    constructor ()
      ensures loggedIn == LoggedOut && user == None && cookies == map[]
    {
      loggedIn := LoggedOut;
      user := None;
      cookies := map[];
    }

    /**
     * `UWProxy.request`: refuse while logged out; otherwise send to the suffixed host, suffix any
     * `Referer` in the caller's dict, and turn certificate checks off unless `verify` was given.
     */
    method Request(verb: string, url: Url, headers: HeaderDict?, verify: Option<Verify>, data: Form, response: Response)
      returns (r: Result<Sent, ScrapeError>)
      modifies this`cookies, headers
      ensures headers != null ==> headers.others == old(headers.others)
      ensures old(loggedIn) == LoggedOut ==>
        r == Err(AssertionError) && cookies == old(cookies)
        && (headers != null ==> headers.referer == old(headers.referer))
      ensures old(loggedIn) != LoggedOut ==>
        r.Ok? && r.value.verb == verb && r.value.url == ProxyifyUW(url) && r.value.data == data
        && r.value.verify == EzProxy.DefaultVerifyOff(verify)
        && cookies == old(cookies) + response.setCookies
        && (headers == null ==> r.value.referer == None)
        && (headers != null ==>
              r.value.referer == headers.referer
              && headers.referer == (if old(headers.referer).Some? then Some(ProxyifyUW(old(headers.referer).value)) else None))
    {
      if loggedIn == LoggedOut {
        return Err(AssertionError);
      }
      var referer: Option<Url> := None;
      if headers != null {
        if headers.referer.Some? {
          headers.referer := Some(ProxyifyUW(headers.referer.value));
        }
        referer := headers.referer;
      }
      cookies := cookies + response.setCookies;
      return Ok(Sent(verb, ProxyifyUW(url), referer, EzProxy.DefaultVerifyOff(verify), data));
    }

    /**
     * `UWProxy.login`: enter `"logging_in"`, post the last name as the relay's password and the
     * barcode as its user, and succeed on a 200 that leaves the `ezproxy` cookie in the jar.
     * Any failure becomes the one login exception and leaves the flag at `"logging_in"`.
     */
    method Login(lastName: string, barcode: string, response: Response) returns (sent: Sent, r: Result<(), ScrapeError>)
      modifies this`loggedIn, this`user, this`cookies
      ensures sent == Sent("POST", ProxyifyUW(LOGIN_URL), None, Some(VerifyFlag(false)),
                           [("pass", Str(lastName)), ("user", Str(barcode))])
      ensures cookies == old(cookies) + response.setCookies
      ensures r.Ok? <==> response.statusOk && "ezproxy" in cookies
      ensures r.Ok? ==> loggedIn == LoggedIn && user == Some(lastName)
      ensures r.Err? ==> r.error == LoginFailed && loggedIn == LoggingIn && user == old(user)
    {
      loggedIn := LoggingIn;
      var post := Request("POST", LOGIN_URL, null, None, [("pass", Str(lastName)), ("user", Str(barcode))], response);
      sent := post.value;
      if !response.statusOk || "ezproxy" !in cookies {
        return sent, Err(LoginFailed);
      }
      loggedIn := LoggedIn;
      user := Some(lastName);
      return sent, Ok(());
    }
  }

  /**
   * Without the rollback, a session whose login was rejected still passes the login assertion:
   * its next request goes out through the relay instead of being refused.
   */
  method FailedLoginStillRelays(lastName: string, barcode: string, response: Response, url: Url)
    returns (login: Result<(), ScrapeError>, next: Result<Sent, ScrapeError>)
    requires !response.statusOk || "ezproxy" !in response.setCookies
    ensures login == Err(LoginFailed)
    ensures next.Ok? && next.value.url == ProxyifyUW(url)
  {
    var s := new UWProxy();
    var sent;
    sent, login := s.Login(lastName, barcode, response);
    next := s.Request("GET", url, null, None, [], response);
  }
}
