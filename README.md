# isi: a verified model of the Web of Science scraper's core

The isi scripts do four things:

- search the Web of Science through a university library's EzProxy relay;
- export the results in 500-record blocks of the ISI field-tagged flat format;
- parse those files back into records;
- build a graph of how often countries appear together on a paper.

This project models the deterministic core of the scripts in Dafny. The core is:

- **The flat-file parser.** `paperParser` and `isiParser` exist in two copies (CountryCounts.py and contry-country.py).
  - The shared logic is in module `IsiFormat`.
  - Each copy's header check is in its own module, `CountryCounts` and `ContryCountry`.
  - `IsiFormat` also has a serializer for the format and round-trip proofs against it.
- **The country co-occurrence graph.** `graphAdder` (module `ContryCountry`) is specified as a fold over a node set and a multiset of unordered country pairs. The multiplicity of a pair is its edge weight. A `Graph` class holds the networkx graph, which the method updates in place.
- **The EzProxy session** (ezproxy.py, module `EzProxy`).
  - `proxyify`, the host rewrite. Its idempotence is proved.
  - The three-valued login flag (`False`, `"logging_in"`, `True`) as a class with a rollback on failure.
  - The `Referer` rewrite.
  - `UWProxy`'s `verify=False` default.
- **The scraper** (isi_scrape.py, module `IsiScrape`):
  - the older `UWProxy`, whose rewrite is not idempotent and which has no rollback;
  - the `generalSearch` form sections: target, cruft, fields, period, sort order and editions;
  - the `"approximately 1,234"` hit-count parser;
  - `export`'s range checks and payload;
  - the `rip` block loop, run against an abstract export oracle. Files are modelled as a filename-to-content map.
- **The older ripper** (isi_rip.py, module `IsiRip`). This covers its `fields2isi` numbering, which differs from the scraper's, and its dict-based form.
  - Its `list_ret`, `UWProxy`, `export` and `rip` are the same as util.py's and isi_scrape.py's, and are modelled once: by `Util.ListRet` and by the `IsiScrape` members.
  - Its count parsing (isi_rip.py:327-332) is the same code as `IsiScrape.ParseCount`.
- **util.py** (module `Util`). `chomp`, and `list_ret`, which drains a generator (a small class) and keeps its return value.

Supporting modules:

- `Outcome` (Option and Result);
- `Http` (URL components, the parts of a response the scripts inspect, form payloads and the login flag);
- `Text` (Python string operations: `in`, `endswith`, `split()[-1]`, `lower`, `replace`, `int`, `str`, `%04d` and `os.path.splitext`).

Python exceptions are modelled as error values (`Err(...)`). Where the code crashes on a path it did not mean to take, the model returns that crash as written. Examples:

- a `NameError` from the undefined `fieldCount` in `_fields`' warning;
- an `IndexError` on a short line in `paperParser`;
- a `KeyError('')` on a continuation before any tag;
- a `StopIteration` when a file has no `EF` line;
- an `UnboundLocalError` (as `NameError`) from `fields2isi` on an empty argument list.

The model does not put preconditions on these inputs.

## Model

| member | source | states |
|---|---|---|
| Util.Chomp | util.py:18-22 | the result is a prefix of `s` that is at most one character shorter. With a trailing newline, the result plus `"\n"` is `s`; without one, the result is `s` unchanged |
| Util.ChompAppendedNewline | util.py:21 | `chomp(s + "\n") == s` |
| Util.Generator.Next | util.py:12-13 | `next(g)` yields the next item and advances, or, once the items are exhausted, raises `StopIteration` carrying the return value and stays put |
| Util.ListRet | util.py:2-14 | returns every value the generator still yields, in yield order, with one entry per yield, together with the value its `StopIteration` carries. The generator is left exhausted |
| IsiFormat.Content | CountryCounts.py:29-32 | `l[3:-1]`: the line without its tag, separator and last character, and empty for lines shorter than four characters |
| IsiFormat.TagOf | CountryCounts.py:58 | definition of `l[:2]`: the first two characters, or the whole line when shorter; the lemmas TaggedLine and PtLine state it for written lines |
| IsiFormat.IsRecordEnd | CountryCounts.py:26 | definition of `'ER' in l[:2]`, as a prefix test; PaperStopsAtFirstTerminator states what the parser does with it |
| IsiFormat.IsContinuation | CountryCounts.py:28 | definition of `'   ' in l[:3]`, as a prefix test; ContinuationLineStep states what the parser does with it |
| IsiFormat.IsFileEnd | CountryCounts.py:53 | definition of `'EF' in l[:2]`, as a prefix test; FileEndStep states what the loop does with it |
| IsiFormat.PaperFrom | CountryCounts.py:17-35 | on success, the lines left are a proper suffix of the input, and the line consumed just before them has `ER` in its first two characters. It never raises `TypeError` |
| IsiFormat.PaperStopsAtFirstTerminator | CountryCounts.py:25-27 | no line consumed before the terminator starts with `ER`, so the parser stops at the first one. Input with no `ER` line fails |
| IsiFormat.PaperParser | CountryCounts.py:17-35 | the `for l in paper` loop that mutates `tdict` and `currentTag` computes the record specification, starting from `{}` and tag `''`, and leaves the file after the `ER` line |
| IsiFormat.ContinuationLineStep | CountryCounts.py:28-29 | one `   line` appends `line` to the current tag's list |
| IsiFormat.TagLineStep | CountryCounts.py:30-32 | one `TT first` line makes `TT` current and binds it to `[first]` |
| IsiFormat.ContinuationSteps | CountryCounts.py:28-29 | three-space lines append their `l[3:-1]` to the current tag's list, in line order |
| IsiFormat.FieldStep | CountryCounts.py:30-32 | a `TT ` line makes `TT` the current tag and sets its list to `[l[3:-1]]` |
| IsiFormat.FieldsSteps | CountryCounts.py:25-32 | a run of serialized fields leaves the dict those fields denote, and leaves the last field's tag current |
| IsiFormat.LastFieldWins | CountryCounts.py:30-32 | a repeated tag keeps only the lines of its last field. A tag that no field carries keeps its earlier binding |
| IsiFormat.PaperRoundTrip | CountryCounts.py:17-35 | serialized fields followed by an `ER` line read back as the dict they denote, and exactly the lines after the terminator are left |
| IsiFormat.MalformedLineRejected | CountryCounts.py:33-34 | a line that is not a terminator, a continuation or a tag line raises `BadPaper("Field tag not formed correctly: " + l)` |
| IsiFormat.MissingTerminatorRejected | CountryCounts.py:35 | running out of lines before `ER` raises `BadPaper("End of file reached before EF")` |
| IsiFormat.ReadLine | CountryCounts.py:43 | definition of the k-th `readline()` call: the line, or `''` past the end; HeaderEnd states the header check over it |
| IsiFormat.HeaderEnd | CountryCounts.py:43 | the header is accepted iff `"VR 1.0"` occurs in line 1 or in line 2. Exactly one line is consumed when line 1 has it, so line 2 is not read |
| IsiFormat.ToRecord | CountryCounts.py:60-61 | the record is `paperParser`'s dict with `PT` set to the start line's `l[3:-1]` as a plain string. Every other tag keeps its list |
| IsiFormat.RecordsFrom | CountryCounts.py:45-65 | on success, the lines left are a proper suffix of the input, and the line consumed just before them starts with `EF` |
| IsiFormat.RecordsNeverTypeError | CountryCounts.py:45-65 | the record loop never raises `TypeError` |
| IsiFormat.NonPaperLineRejected | CountryCounts.py:57-63 | a non-blank line before `EF` that does not start with `PT` raises `BadPaper("Paper does not start with PT tag" + "In " + isifile)` |
| IsiFormat.PtLine | CountryCounts.py:49-61 | a written `PT` line is not empty, not blank and not `EF`; its tag is `PT` and its `l[3:-1]` is the paper's `PT` content |
| IsiFormat.BlankLineStep | CountryCounts.py:51-52 | any line that `isspace()` accepts is skipped, with the records unchanged |
| IsiFormat.FileEndStep | CountryCounts.py:49-55 | any line starting with `EF` (never empty, never blank) ends the loop with the records so far, and leaves the lines after it |
| IsiFormat.PaperRecordStep | CountryCounts.py:57-61 | a written paper is parsed into the record it denotes and appended. The blank line after it is skipped |
| IsiFormat.RecordsSteps | CountryCounts.py:47-61 | written papers are appended to `plst` in file order |
| IsiFormat.BodyFrom | CountryCounts.py:45-72 | after the header, the body yields the records and the "content after EF" flag, or an error that is never `TypeError` |
| IsiFormat.ReadBody | CountryCounts.py:45-72 | the `while notEnd` loop and the final `f.next()` probe compute the body specification |
| IsiFormat.ReadRecords | CountryCounts.py:45-65 | the `while notEnd` loop, consuming the file line by line, computes the record loop's specification |
| IsiFormat.ReadPaper | CountryCounts.py:56-65 | the loop's `else` branch: a `PT` line's record is parsed and appended, or the loop fails with the error the specification gives; the file only moves forward |
| IsiFormat.RecordsFromWellShaped | CountryCounts.py:60-61 | every record the loop collects holds `PT` as a plain string and a list of lines under every other tag |
| IsiFormat.BodyWellShaped | CountryCounts.py:45-72 | every record of an accepted file is well shaped |
| IsiFormat.ExportHeaderFound | CountryCounts.py:43 | a written export's header is found on its second line |
| IsiFormat.BodyRoundTrip | CountryCounts.py:45-72 | written papers followed by `EF` read back as their records, in order, with nothing after `EF` |
| IsiFormat.FileRoundTrip | CountryCounts.py:37-72 | a whole written file (header, papers, `EF`) reads back as its records, in file order |
| IsiFormat.PaperFromExtended | CountryCounts.py:25-27 | lines appended after a record's terminator do not change how that record is parsed; they are left unread |
| IsiFormat.RecordsFromExtended | CountryCounts.py:53-55 | lines appended after the `EF` line do not change the records; they are left unread |
| IsiFormat.TrailingContentOnlyNoticed | CountryCounts.py:66-72 | content after `EF` yields the same records and sets only the notice flag, exactly when something follows |
| CountryCounts.ParseSpec | CountryCounts.py:37-72 | the script fails with `TypeError` exactly when neither of the first two lines has the version marker |
| CountryCounts.IsiParser | CountryCounts.py:37-72 | `isiParser` computes the script's parse specification |
| CountryCounts.HeaderlessFileIsTypeError | CountryCounts.py:43-44 | a headerless file raises `TypeError` and never the `BadPaper` message naming the file |
| CountryCounts.EndOnlyFileIsTypeError | CountryCounts.py:44 | the file `["EF\n"]` raises `TypeError` |
| CountryCounts.AcceptedFileParsedByRecordLoop | CountryCounts.py:37-72 | a written export is parsed into its records by this script |
| ContryCountry.ParseSpec | contry-country.py:32-67 | a headerless file raises `BadPaper(isifile + " Does not have a valid header")`; otherwise the body is parsed from where the header ended |
| ContryCountry.IsiParser | contry-country.py:32-67 | `isiParser` computes this script's parse specification |
| ContryCountry.LastSegment | contry-country.py:73 | definition of `loc.split(',')[-1]` through the last comma's position; LastSegmentShape states its shape |
| ContryCountry.Country | contry-country.py:73-75 | definition of the country of an address: the last segment without its last character, collapsed to `USA` when it ends in `USA`; CountryOfAddress and CountryUSA state it |
| ContryCountry.AddNode | contry-country.py:76-77 | `add_node(c)`: `c` becomes a node, no other node is added or removed, and the edges and weights are unchanged |
| ContryCountry.AddPairsFrom | contry-country.py:78-86 | definition of the inner loop as a fold of AddEdge over the later addresses' countries; PairsWeight, PairsGrow and PairEdge state it |
| ContryCountry.LocStep | contry-country.py:73-86 | definition of one pass of the address loop: AddNode, then AddPairsFrom from the first occurrence on; LocStepGrows states it |
| ContryCountry.AddLocsFrom | contry-country.py:72-86 | definition of the address loop as a fold of LocStep; LocsWeight, LocsGrow and LocsPairEdges state it |
| ContryCountry.AddPapersFrom | contry-country.py:69-89 | definition of `graphAdder` as a fold of AddPaper over the papers; PapersGrow and GraphAdder state it |
| ContryCountry.LastSegmentShape | contry-country.py:73 | `loc.split(',')[-1]` is a comma-free suffix of the address. Unless it is the whole address, a comma precedes it |
| ContryCountry.DropLast | contry-country.py:73 | `s[:-1]` plus the last character is `s`, and the empty string stays empty |
| ContryCountry.CountryOfAddress | contry-country.py:73-75 | an address `…,Name.` names country `Name`, or `USA` when `Name` ends in `USA` |
| ContryCountry.CountryUSA | contry-country.py:74-75 | a country ending in `USA` is exactly `USA` |
| ContryCountry.AddEdge | contry-country.py:82-86 | the pair's weight rises by one. The pair's endpoints become nodes when the edge is new, and the node set is unchanged otherwise |
| ContryCountry.IndexOf | contry-country.py:78 | `list.index` gives the first position holding the value |
| ContryCountry.PairsWeight | contry-country.py:78-86 | the inner loop adds one unit of weight per later address |
| ContryCountry.PairsGrow | contry-country.py:78-86 | the inner loop never removes a node or any weight |
| ContryCountry.PairEdge | contry-country.py:78-86 | the inner loop joins `c1` to the country of every address it walks over |
| ContryCountry.LocsWeight | contry-country.py:72-86 | the address loop adds, for each address, one unit of weight per address after that address's first occurrence |
| ContryCountry.LocStepGrows | contry-country.py:72-86 | one address pass keeps the graph, makes its country a node, and joins it to every later address |
| ContryCountry.LocsGrow | contry-country.py:72-86 | the address loop only adds, and every address's country becomes a node |
| ContryCountry.LocsPairEdges | contry-country.py:78-86 | every address is joined to every address after its first occurrence |
| ContryCountry.Items | contry-country.py:72 | iterating over a list of lines yields those lines |
| ContryCountry.Countries | contry-country.py:73-81 | one country per address, in order |
| ContryCountry.AddPaper | contry-country.py:71-89 | a paper without `C1` leaves the graph unchanged (the `KeyError` is caught) |
| ContryCountry.PaperWeight | contry-country.py:71-86 | a paper with `C1` raises the total weight by its pair count |
| ContryCountry.PapersGrow | contry-country.py:69-89 | `graphAdder` only adds nodes and weight |
| ContryCountry.CountriesBecomeNodes | contry-country.py:76-77 | after a paper is added, the country of each of its `C1` entries is a node |
| ContryCountry.PairsBecomeEdges | contry-country.py:78-86 | an edge joins each `C1` entry to every entry after its first occurrence |
| ContryCountry.DistinctPairCount | contry-country.py:72-86 | with pairwise-distinct addresses, the pair count is n(n−1)/2 |
| ContryCountry.DistinctAddressesAddTriangle | contry-country.py:72-86 | a paper with n pairwise-distinct `C1` entries raises the total edge weight by exactly n(n−1)/2 |
| ContryCountry.RepeatedAddressSelfLoop | contry-country.py:78-86 | a repeated `C1` entry gives its country a self-loop, because `index` finds the first occurrence |
| ContryCountry.LocsSelfLoop | contry-country.py:78-86 | a repeated address joins its country to itself |
| ContryCountry.Graph.constructor | contry-country.py:105 | `nx.Graph()` is empty |
| ContryCountry.Graph.AddNodeTo | contry-country.py:76-77 | `add_node` adds the node and leaves the edges |
| ContryCountry.Graph.AddEdgeTo | contry-country.py:85-86 | `add_edge(c1, c2, weight = 1)` adds both endpoints and sets the weight to 1 |
| ContryCountry.Graph.IncrementWeight | contry-country.py:82-84 | `weight += 1` on an existing edge, leaving the nodes |
| ContryCountry.GraphAdder | contry-country.py:69-89 | the nested loops leave the graph as the paper-by-paper fold specifies |
| ContryCountry.AddAddresses | contry-country.py:72-86 | the address loop leaves the graph as the address-by-address fold specifies |
| ContryCountry.AddAddress | contry-country.py:73-86 | one pass of the address loop adds the address's country as a node, then joins it to the country of every address after the first occurrence of that address |
| ContryCountry.AddCountry | contry-country.py:76-77 | `add_node` only when `has_node` is false: the node set gains the country, and the edges are unchanged |
| ContryCountry.ConnectAll | contry-country.py:78-86 | the inner loop joins `c1`, in order, to the country of every later address |
| ContryCountry.Connect | contry-country.py:82-86 | an existing edge gets one more unit of weight; a new edge gets weight 1 and adds its endpoints as nodes |
| ContryCountry.AddEdgeCases | contry-country.py:82-86 | the two branches of the edge update, as the fold defines them |
| ContryCountry.CountriesSuffix | contry-country.py:78-81 | the countries of the addresses after position k are the country list from k on |
| EzProxy.Proxyify | ezproxy.py:117-126 | only the host changes. `"." + address` is appended iff the host does not already end with the relay address, and the result always ends with it |
| EzProxy.ProxyifyIdempotent | ezproxy.py:119-124 | `proxyify(proxyify(u)) == proxyify(u)` |
| EzProxy.DefaultVerifyOff | ezproxy.py:152-153 | `verify=False` only when the caller passed no `verify`. A caller's value is kept |
| EzProxy.LoginForm | ezproxy.py:82-83 | the credentials go as `user` = barcode and `pass` = last name |
| Http.HeaderDict.constructor | ezproxy.py:110-112 | the caller's `headers` dict: an optional `Referer` URL and the other headers, stored as given |
| EzProxy.Session.constructor | ezproxy.py:53-61 | a new session is logged out, with no user and an empty jar |
| EzProxy.Session.Request | ezproxy.py:100-115 | refused when logged out. Otherwise the request goes to `proxyify(url)`, any `Referer` in the caller's dict is rewritten in place, and the response's cookies join the jar. The `UWProxy` variant applies its verify default |
| EzProxy.Session.Login | ezproxy.py:63-98 | only from logged out, with the credentials posted through the relay. `HTTPError` iff the status is bad; `LoginError` iff the `ezproxy` cookie is missing. Failure rolls back to logged out; success records the last name and logs in |
| EzProxy.Session.Str | ezproxy.py:128-132 | logged in: `<user@address [session:cookie]>`; otherwise `<EzProxy @address>` |
| EzProxy.NewUWProxy | ezproxy.py:136-142 | `UWProxy(last_name, barcode)` logs in at once through `login.proxy.lib.uwaterloo.ca` with `verify=False`. It succeeds iff the exchange is 200 and sets the `ezproxy` cookie |
| EzProxy.RejectedLoginThenRequest | ezproxy.py:91-105 | after a rejected login, the next request is refused |
| IsiScrape.Flatten | isi_scrape.py:24-28 | definition of `chain.from_iterable` as concatenation; FlattenAppend, FlattenPairsAt and FlattenPairsLength state it |
| IsiScrape.ProxyifyUW | isi_scrape.py:102-105 | definition of this copy's rewrite, which appends `.proxy.lib.uwaterloo.ca` to the host; ProxyifyUWNotIdempotent and ProxyifyUWAgreesOnFreshHosts state it |
| IsiScrape.Target | isi_scrape.py:243-250 | definition of `_target`: `product` WOS, `action` search, `search_mode` GeneralSearch, then the session's `SID`; GeneralSearchForm states its place in the form |
| IsiScrape.FieldsFrom | isi_scrape.py:286-309 | the term loop raises only `ValueError` (an argument that does not unpack) or `AssertionError` (a non-operator between terms) |
| IsiScrape.FieldsSection | isi_scrape.py:280-314 | `_fields` raises only `ValueError`, `AssertionError` or `NameError`; on success the arguments are non-empty with at most 25 terms |
| IsiScrape.FlattenAppend | isi_scrape.py:24-28 | `flatten` distributes over concatenation |
| IsiScrape.FlattenPairsAt | isi_scrape.py:24-28 | flattening pairs puts pair k's halves at positions 2k and 2k+1 |
| IsiScrape.FlattenPairsLength | isi_scrape.py:24-28 | flattening n pairs gives 2n items |
| IsiScrape.FieldsFromStep | isi_scrape.py:286-309 | a term step succeeds iff its argument unpacks, the following operator (if any) is allowed, and the rest succeeds |
| IsiScrape.WellFormedStep | isi_scrape.py:290-306 | arguments are well placed from an even index iff this pair unpacks, the next argument is an operator, and the rest is well placed |
| IsiScrape.FieldsFromOk | isi_scrape.py:286-309 | the term loop completes iff pairs sit at even indices and allowed operators at odd ones |
| IsiScrape.FieldsSectionOk | isi_scrape.py:280-314 | `_fields` completes iff the arguments are non-empty and well placed, with at most 25 terms; otherwise `ValueError`, `AssertionError` or `NameError` |
| IsiScrape.FieldsFromLength | isi_scrape.py:286-309 | for odd-length input, the loop posts four pairs per term except the last, which gets three |
| IsiScrape.FieldsFromTerm | isi_scrape.py:287-300 | term k is posted as `value(select t)`, `value(input t)` and `value(hidInput t)=""` with t = k+1, a list query joined by `###` |
| IsiScrape.FieldsFromOp | isi_scrape.py:302-306 | between terms t and t+1 exactly one pair, `value(bool_t_t+1)`, carries the operator |
| IsiScrape.FieldsFromDropMany | isi_scrape.py:286-309 | the loop's output from an earlier term ends with its output from a later one |
| IsiScrape.FieldsSectionNoPeriod | isi_scrape.py:280-314 | no key of the fields section is a timespan key |
| IsiScrape.FieldsLayout | isi_scrape.py:280-314 | for odd-length input with N terms, the section holds 4N−1 term and operator pairs, then `fieldCount` = N, then `max_field_count` = 25 |
| IsiScrape.FieldsFromKeys | isi_scrape.py:298-306 | every key the loop posts starts with `value(` |
| IsiScrape.Period | isi_scrape.py:316-344 | `(period, startYear, endYear, range)` in that order. A pair `(a, b)` posts `Year Range` with years a and b; an int y posts y and y; a 2-character string posts its two characters. `Range Selection` always posts 1900 and 2000, and a preset becomes the range. Any other string fails the assertion |
| IsiScrape.PeriodDefaults | isi_scrape.py:320-335 | an int year is the range from that year to itself. No timespan equals `"ALL"`, with years 1900 and 2000 |
| IsiScrape.SortOrder | isi_scrape.py:346-347 | definition of `_sort_order`: the one pair `rs_sort_by` = sort; GeneralSearchForm states its place in the form |
| IsiScrape.Editions | isi_scrape.py:349-351 | one `editions` pair per edition, in list order |
| IsiScrape.ConcatParts | isi_scrape.py:361 | the five sections of the form sit one after another in the concatenation |
| IsiScrape.GeneralSearchForm | isi_scrape.py:353-361 | the form is `_target ++ _cruft ++ _fields ++ _sort_order ++ _editions`, with `_target` = product, action, search_mode, SID, and `_cruft` the constant `CRUFT` (isi_scrape.py:252-276). It fails exactly when `_fields` does |
| IsiScrape.TimespanNotPosted | isi_scrape.py:356-361 | no key of `_period` is in the posted form |
| IsiScrape.AssembleForm | isi_scrape.py:356-361 | the `form +=` accumulation builds that form |
| IsiScrape.AndQuery | isi_scrape.py:649-650 | definition of the command line's query: the pairs interleaved with `AND`, the trailing `AND` dropped; AndQueryAccepted states its length and what `_fields` makes of it |
| IsiScrape.AndQueryAccepted | isi_scrape.py:649-650 | 1 to 25 command-line pairs joined by `AND` always build a fields section, with `fieldCount` equal to the number of pairs |
| IsiScrape.ParseCount | isi_scrape.py:395-400 | `estimated` iff `"approximately"` occurs in the lower-cased text. Blank text raises `IndexError`; a last word that is not a number after dropping commas raises `ValueError` |
| IsiScrape.GroupedDigits | isi_scrape.py:400 | a comma-grouped number without its commas is its decimal digits |
| IsiScrape.GroupedIsWord | isi_scrape.py:397 | a comma-grouped number is one word |
| IsiScrape.CountRoundTrip | isi_scrape.py:395-400 | the footer text `1,234` parses back as the exact count |
| IsiScrape.EstimatedCountRoundTrip | isi_scrape.py:395-400 | the footer text `approximately 1,234` parses back as the estimated count |
| IsiScrape.LowerKeepsPrefix | isi_scrape.py:396 | lower-casing keeps a lower-case leading word |
| IsiScrape.GeneralSearch | isi_scrape.py:366-414 | the query is built iff the form builds, the status is OK and the count parses. It carries the session's SID, the `qid` and the parsed count |
| Text.Lower | isi_scrape.py:396 | `str.lower()` maps each character to its lower-case form and keeps the length |
| Text.LastWord | isi_scrape.py:397 | `split()[-1]` fails exactly on an all-whitespace string; otherwise it is a non-empty word without whitespace |
| Text.LastWordAfterSeparator | isi_scrape.py:397 | the last word of `prefix + sep + w` is `w` |
| Text.RemoveAll | isi_scrape.py:400 | `replace(",", "")` leaves no comma and never lengthens the string |
| Text.RemoveAllAppend | isi_scrape.py:400 | removing a character distributes over concatenation |
| Text.RemoveAllAbsent | isi_scrape.py:400 | a string without the character is unchanged |
| Text.ParseInt | isi_scrape.py:400 | `int(s)` of a non-empty digit string is its decimal value; the empty string fails |
| Text.IntToString | isi_scrape.py:519-522 | definition of `str(i)`, with a `-` before a negative number's digits; IntToStringRoundTrip states it |
| Text.IntToStringRoundTrip | isi_scrape.py:519-522 | `int(str(i)) == i` for every integer |
| Text.NatToString | isi_scrape.py:519-522 | `str(n)` is a non-empty digit string |
| Text.NatToStringValue | isi_scrape.py:519-522 | `str(n)` reads back as `n` |
| Text.ZeroPad | isi_scrape.py:570 | the string padded on the left with `0` to width w: the length is the larger of the two, the string is the suffix, and the rest is zeros |
| Text.ZeroPadValue | isi_scrape.py:570 | zero-padding keeps a number's value |
| Text.Pad4 | isi_scrape.py:570 | `%04d` gives at least four digits |
| Text.Pad4Injective | isi_scrape.py:570 | distinct numbers get distinct `%04d` spellings |
| Text.SplitExt | isi_scrape.py:566 | `os.path.splitext`: the two parts concatenate to the path, and the extension is empty or a dot followed by no dot or slash |
| Text.RFind | isi_scrape.py:566 | the last position holding the character, or −1 when there is none |
| IsiScrape.Export | isi_scrape.py:495-552 | definition of `export`'s outcome on a server response; ExportOutcome and InvalidRangeIndependentOfServer state it |
| IsiScrape.ExportForm | isi_scrape.py:499-544 | definition of the export payload: the option pairs, the marks, then the query's identity; ExportMarksReadBack states what it carries |
| IsiScrape.Marks | isi_scrape.py:519-522 | definition of the four range pairs, `str(start)` twice then `str(end)` twice; MarksLookup and ExportMarksReadBack state it |
| IsiScrape.ExportIdentity | isi_scrape.py:524-543 | definition of the nine pairs naming the database, the session, the query and the view; ExportOptionsKeys and MarksLookup use it |
| IsiScrape.ExportOptions | isi_scrape.py:502-516 | the ten option pairs that open the export form |
| IsiScrape.LookupSkip | isi_scrape.py:501-544 | keys other than the one looked up are passed over |
| IsiScrape.ExportOptionsKeys | isi_scrape.py:502-516 | no option key spells a range bound |
| IsiScrape.MarksLookup | isi_scrape.py:519-522 | each spelling of the bounds is found at its first occurrence |
| IsiScrape.ExportMarksReadBack | isi_scrape.py:519-522 | `markFrom`/`mark_from` both carry `str(start)` and `markTo`/`mark_to` both carry `str(end)`, and each reads back as its bound |
| IsiScrape.ExportOutcome | isi_scrape.py:495-552 | the export succeeds iff 0 ≤ start < end ≤ start + 500, the status is OK and the final query has no `error_display_redirect`; bad ranges raise `AssertionError`, and other failures are `HTTPError` |
| IsiScrape.InvalidRangeIndependentOfServer | isi_scrape.py:495-497 | a rejected range fails before anything is sent, whatever the server would answer |
| IsiScrape.Block | isi_scrape.py:568 | block k starts at record 500k + 1: at least 1, and 1 modulo 500 |
| IsiScrape.BlockFileName | isi_scrape.py:570 | definition of `"%s_%04d%s" % (base_name, block, ext)`; BlockFileNameInjective states it |
| IsiScrape.BlockFileNameInjective | isi_scrape.py:570 | distinct blocks get distinct `base_%04d.ext` names |
| IsiScrape.BlockFileNamesDiffer | isi_scrape.py:568-570 | blocks 500j+1 and 500k+1 with j ≠ k go to different files |
| IsiScrape.WrittenContents | isi_scrape.py:574-575 | with distinct names, each write survives the later ones, and nothing else is written |
| IsiScrape.ExportedContents | isi_scrape.py:566-577 | after n blocks, block k's file holds exactly its response text, and no other file was written |
| IsiScrape.ExportedNext | isi_scrape.py:574-575 | writing block k's file over the directory and the first k blocks' files gives the first k + 1 blocks' files |
| IsiScrape.BlockFailureIsHttp | isi_scrape.py:572-577 | a block's range always passes the assertions, so a failing block fails with `HTTPError` |
| IsiScrape.ExportBlock | isi_scrape.py:572-575 | block k's export succeeds iff its server answer passes, and then carries that answer's text |
| IsiScrape.Rip | isi_scrape.py:554-577 | it requests blocks 1, 501, 1001, … in ascending order and writes each response to its numbered file. It stops at the first block past a non-zero upper limit, or at the first failing export, requesting nothing later |
| IsiScrape.SaveBlock | isi_scrape.py:574-575 | writing a block's export to its numbered file takes a directory holding the first k blocks' files to one holding the first k + 1 |
| IsiScrape.ProxyifyUWNotIdempotent | isi_scrape.py:102-105 | this copy's rewrite appends the suffix again to an already rewritten URL |
| IsiScrape.ProxyifyUWAgreesOnFreshHosts | isi_scrape.py:102-105 | on a host not yet routed through the relay, it agrees with ezproxy.py's rewrite |
| IsiScrape.UWProxy.constructor | isi_scrape.py:46-49 | a new session is logged out, with no user |
| IsiScrape.UWProxy.Request | isi_scrape.py:100-119 | refused when logged out. Otherwise the URL and any `Referer` get the suffix appended unconditionally, and `verify=False` is set unless given |
| IsiScrape.UWProxy.Login | isi_scrape.py:51-94 | posts `pass` = last name and `user` = barcode through the relay. It succeeds iff the status is OK and the cookie is present; a failure raises, with the flag left at `"logging_in"` (no rollback) |
| IsiScrape.FailedLoginStillRelays | isi_scrape.py:59-94 | after a failed login, a request is still relayed |
| IsiRip.Fields2IsiFrom | isi_rip.py:269-286 | the term loop raises only `ValueError` or `AssertionError` |
| IsiRip.Fields2Isi | isi_rip.py:262-288 | `fields2isi` raises only `ValueError`, `AssertionError` or `NameError` (the unbound `t`); on success the input is non-empty and the returned count is odd |
| IsiRip.Fields2IsiFromOk | isi_rip.py:269-286 | the loop completes iff the arguments are well placed; a trailing operator is checked but is not an error |
| IsiRip.Fields2IsiFromLength | isi_rip.py:269-286 | three pairs per term, and none for operators |
| IsiRip.Fields2IsiFromCons | isi_rip.py:269-286 | a term's three pairs come first, then the loop from the next term |
| IsiRip.Fields2IsiFromDropMany | isi_rip.py:269-286 | the loop's output from an earlier term ends with its output from a later one |
| IsiRip.Fields2IsiFromTerm | isi_rip.py:269-277 | the term at even index i is numbered t = i+1 |
| IsiRip.Fields2IsiFromKeys | isi_rip.py:275-286 | every key posted is a term key: operators emit no pair |
| IsiRip.Fields2IsiLayout | isi_rip.py:262-288 | completes iff the arguments are non-empty and well placed. For n terms it posts 3n pairs with term k numbered 2k+1, and returns 2n−1, which is `len(fields)` for odd-length input |
| IsiRip.RipSearchForm | isi_rip.py:232-303 | the form is `form_target ++ form_cruft ++ form_query`, with `form_cruft` the constant `RIP_CRUFT` (isi_rip.py:241-258). `form_query` is the term pairs, then `fieldCount`, `startYear`, `endYear`, `rs_sort_by`, `range=ALL`, then one `editions` pair per edition |
| IsiRip.RipQuery | isi_rip.py:293-299 | definition of `form_query`: the term pairs, then `fieldCount`, `startYear`, `endYear`, `rs_sort_by`, `range`, then the editions; RipSearchForm states it |
| IsiRip.AssembleRipForm | isi_rip.py:290-303 | draining `fields2isi` with `list_ret` and concatenating the sections builds that form |
| IsiRip.RipNumberingSkipsTerms | isi_rip.py:270 | `TS=cats OR PY=2007` posts its second term as `value(select3)`, sends no `value(bool_1_2)`, and reports 3 fields |
| IsiRip.KeyIsNotBoolKey | isi_rip.py:275-277 | no term key is an operator key |
| IsiRip.ScrapeNumberingCountsTerms | isi_scrape.py:287 | the scraper posts the same search with `value(select2)`, `value(bool_1_2)=OR` and `fieldCount` 2 |

## Left out

- HTTP transport (`requests.Session.post`/`request`, cookie jars, redirects) is not modelled. A response is an abstract record: whether `raise_for_status()` passes, the cookies it sets, the final URL's parsed query, and the body text. The request a session hands on is returned as a `Sent` value.
- HTML scraping with BeautifulSoup is not modelled:
  - the `qid`;
  - the `client_error_input_message` div;
  - the `bib_fields` option count and its warnings (isi_scrape.py:372-412, isi_rip.py:315-344).
  `IsiScrape.GeneralSearch` takes the `qid` and the footer's count text as inputs.
- `urlparse`/`urlunparse` are not modelled; a URL is its six components. `qs_parse` and `AnonymizedSession` in httputil.py are not part of this model.
- Command-line and interactive code is left out, because it is I/O:
  - the `__main__` blocks and `tos_warning`;
  - the `IPython.embed()` calls, including the one at isi_rip.py:307 that would stop every search for a shell;
  - `parameters.txt`, printing, `logging` and `warn`. In particular, `fields2isi`'s warning for more than 25 fields (isi_rip.py:291-292) only prints.
- File I/O is modelled as a filename-to-content map in `rip` and as a sequence of lines in `isiParser`. Opening, closing and encoding errors are left out.
- `csvLocCounter` and `mapAuthorsInstitute` in CountryCounts.py (CSV output and warning-driven control flow) are left out. Neither is used by the parser.
- `ISISession.login`'s visit to the front page that reads the WoS `SID` off the redirect (isi_scrape.py:127-137) is HTTP scraping: the `SID` is an input of the form and export members.
- `advancedSearch`, `search` and `ISIQuery.__len__` are left out. They are thin wrappers over the modelled form and export code.
- Pickling support (`__getstate__`/`__setstate__`), `GuelphProxy` and `AnonymizedUAMixin` are left out: they are configuration with no logic beyond the modelled `EzProxy` session.
- The `requests` keyword arguments other than `headers`, `verify` and `data` are left out.
- Dict ordering of `form_target`, `form_cruft`, `form_query`'s fixed part and the export payload: these are modelled in the order the source's dict literals list them, which is CPython 3.7+ insertion order. Older interpreters could send them in another order.
- IsiScrape.UWProxy.Login: it models the global `S` it reads (isi_scrape.py:81) as the session itself, which is how the script uses it. The wrapping `Exception("Failed logging in to library proxy", exc)` is one error value, `LoginFailed`.
- IsiScrape.Rip: termination with `upper_limit == 0` needs a (ghost) block at which the server fails, because the source loop is unbounded there. The printed progress lines are left out.
- Text.ParseInt: Python 3's `int()` also accepts underscores between digits (`int("1_234") == 1234`), any Unicode decimal digit, and surrounding whitespace. The model accepts only an optional ASCII sign followed by ASCII digits and rejects the rest with `ValueError`. The footer text ISI sends holds only ASCII digits and commas.
- IsiScrape.ParseCount: it inherits that gap, so a last word such as `1_234` is a `ValueError` in the model where isi_scrape.py:400 gives 1234.
- Python's `str.isspace`, `split()` and `lower()` are modelled on ASCII letters and the Unicode whitespace set. Unicode case mappings outside ASCII are not modelled.

## Findings

| source | as written | input that shows it | evidently intended | confidence | as-written member | corrected member |
|---|---|---|---|---|---|---|
| CountryCounts.py:44 | the header error concatenates the builtin `file` type with a string, so a headerless file raises `TypeError` | a file holding only `EF\n` | `BadPaper(isifile + " Does not have a valid header")`, as contry-country.py:39 has it | high; not executed | CountryCounts.EndOnlyFileIsTypeError | ContryCountry.ParseSpec |
| isi_rip.py:270 | `fields2isi` numbers the term at index i as `i+1`, posts no operator pair, and returns `2n−1` for n terms | `[("TS","cats"), "OR", ("PY","2007")]` posts `value(select3)`, no `value(bool_1_2)`, and `fieldCount` 3 | terms numbered 1..n, one `value(bool_t_t+1)` per operator, and `fieldCount` n, as isi_scrape.py:287-313 does | high; not executed | IsiRip.RipNumberingSkipsTerms | IsiScrape.FieldsLayout |
