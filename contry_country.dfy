/**
 * contry-country.py: the same flat-file parser with the header error raised as intended, and
 * `graphAdder`, which folds the countries of each record's `C1` addresses into an undirected
 * weighted co-occurrence graph.
 */
module ContryCountry {
  import opened Outcome
  import opened Text
  import opened IsiFormat

  // ================================================================ isiParser

  /**
   * What this script's `isiParser(isifile)` returns or raises: a file whose first two lines lack
   * the version marker is rejected with a `BadPaper` naming the file.
   */
  function ParseSpec(isifile: string, lines: seq<string>): (r: Result<(seq<Record>, bool), ParseError>)
    ensures HeaderEnd(lines).None? ==> r == Err(BadPaper(isifile + " Does not have a valid header"))
    ensures HeaderEnd(lines).Some? ==> r == BodyFrom(isifile, lines[HeaderEnd(lines).value..])
  {
    match HeaderEnd(lines)
    case None => Err(BadPaper(isifile + " Does not have a valid header"))
    case Some(start) => BodyFrom(isifile, lines[start..])
  }

  /** `isiParser(isifile)` on the file's lines. */
  method IsiParser(isifile: string, lines: seq<string>) returns (r: Result<(seq<Record>, bool), ParseError>)
    ensures r == ParseSpec(isifile, lines)
  {
    var start := HeaderEnd(lines);
    if start.None? {
      return Err(BadPaper(isifile + " Does not have a valid header"));
    }
    r := ReadBody(isifile, lines[start.value..]);
  }

  // ================================================================ graphAdder

  /** `loc.split(',')[-1]`: what follows the last comma (all of `loc` when it has none). */
  function LastSegment(loc: string): string {
    loc[RFind(loc, ',') + 1..]
  }

  /** The last piece is a comma-free suffix of the address, preceded by a comma unless it is the whole address. */
  lemma LastSegmentShape(loc: string)
    ensures var seg := LastSegment(loc);
      |seg| <= |loc| && seg == loc[|loc| - |seg|..]
      && (forall i :: 0 <= i < |seg| ==> seg[i] != ',')
      && (|seg| < |loc| ==> loc[|loc| - |seg| - 1] == ',')
  {
    var cut := RFind(loc, ',') + 1;
    forall i | 0 <= i < |loc[cut..]|
      ensures loc[cut..][i] != ','
    {
      assert loc[cut..][i] == loc[cut + i];
    }
  }

  /** `s[:-1]`: all but the last character; empty stays empty. */
  function DropLast(s: string): (r: string)
    ensures |s| > 0 ==> r + [s[|s| - 1]] == s
    ensures |s| == 0 ==> r == []
  {
    if |s| > 0 then s[..|s| - 1] else []
  }

  /**
   * The country `graphAdder` reads off an address: the last comma-separated piece without its
   * final character, collapsed to `USA` when it ends with `USA` (`c[-3:] == 'USA'`).
   */
  function Country(loc: string): string {
    var c := DropLast(LastSegment(loc));
    if EndsWith(c, "USA") then "USA" else c
  }

  /** An address `... , Name.` (its last piece carrying no comma) names the country `Name`, or `USA` for any US address. */
  lemma CountryOfAddress(prefix: string, name: string)
    requires forall i :: 0 <= i < |name| ==> name[i] != ','
    ensures Country(prefix + "," + name + ".") == if EndsWith(name, "USA") then "USA" else name
  {
    var loc := prefix + "," + name + ".";
    assert loc[|prefix|] == ',';
    forall i | |prefix| < i < |loc|
      ensures loc[i] != ','
    {
      assert loc[i] == (name + ".")[i - |prefix| - 1];
    }
    var r := RFind(loc, ',');
    assert r == |prefix|;
    assert LastSegment(loc) == loc[r + 1..] == name + ".";
    assert DropLast(name + ".") == name;
  }

  /** A country never ends with `USA` unless it is exactly `USA`: every US address collapses to one node. */
  lemma CountryUSA(loc: string)
    ensures EndsWith(Country(loc), "USA") ==> Country(loc) == "USA"
  {
  }

  /**
   * A networkx graph as `graphAdder` uses it: its nodes, and its edges with their `weight`
   * attribute. An edge is the set of its endpoints (one endpoint for a self-loop), and its
   * weight is its multiplicity, so every edge present has weight at least one.
   */
  datatype Net<N> = Net(nodes: set<N>, weight: multiset<set<N>>)

  /** `grph.add_node(c)`. */
  function AddNode<N>(g: Net<N>, c: N): (r: Net<N>)
    ensures c in r.nodes && g.nodes <= r.nodes && r.weight == g.weight
    ensures forall n :: n in r.nodes ==> n in g.nodes || n == c
  {
    Net(g.nodes + {c}, g.weight)
  }

  /**
   * The body of `graphAdder`'s inner loop: `grph[c1][c2]['weight'] += 1` on an existing edge,
   * `grph.add_edge(c1, c2, weight = 1)` (adding the endpoints) otherwise. Either way the edge's
   * weight goes up by one and no other weight changes.
   */
  function AddEdge<N>(g: Net<N>, c1: N, c2: N): (r: Net<N>)
    ensures r.weight == g.weight + multiset{{c1, c2}}
    ensures {c1, c2} in g.weight ==> r.nodes == g.nodes
    ensures {c1, c2} !in g.weight ==> r.nodes == g.nodes + {c1, c2}
  {
    var e := {c1, c2};
    if e in g.weight then Net(g.nodes, g.weight[e := g.weight[e] + 1])
    else Net(g.nodes + {c1, c2}, g.weight[e := 1])
  }

  /** `list.index(x)`: the first position holding `x`. */
  function IndexOf<A(==)>(s: seq<A>, x: A): (i: nat)
    requires x in s
    ensures i < |s| && s[i] == x && forall k :: 0 <= k < i ==> s[k] != x
  {
    if s[0] == x then 0 else 1 + IndexOf(s[1..], x)
  }

  /** The inner loop from index `j` on: an edge from `c1` to every country in `cs`. */
  function AddPairsFrom<N>(g: Net<N>, c1: N, cs: seq<N>, j: nat): Net<N>
    requires j <= |cs|
    decreases |cs| - j
  {
    if j == |cs| then g
    else AddPairsFrom(AddEdge(g, c1, cs[j]), c1, cs, j + 1)
  }

  /** The inner loop adds one unit of weight per country it walks over. */
  lemma {:induction false} PairsWeight<N>(g: Net<N>, c1: N, cs: seq<N>, j: nat)
    requires j <= |cs|
    ensures |AddPairsFrom(g, c1, cs, j).weight| == |g.weight| + (|cs| - j)
    decreases |cs| - j
  {
    if j < |cs| {
      PairsWeight(AddEdge(g, c1, cs[j]), c1, cs, j + 1);
    }
  }

  /** The inner loop only adds: nodes and weights never shrink. */
  lemma {:induction false} PairsGrow<N>(g: Net<N>, c1: N, cs: seq<N>, j: nat)
    requires j <= |cs|
    ensures g.nodes <= AddPairsFrom(g, c1, cs, j).nodes && g.weight <= AddPairsFrom(g, c1, cs, j).weight
    decreases |cs| - j
  {
    if j < |cs| {
      PairsGrow(AddEdge(g, c1, cs[j]), c1, cs, j + 1);
    }
  }

  /** The inner loop joins `c1` to each country it walks over. */
  lemma {:induction false} PairEdge<N>(g: Net<N>, c1: N, cs: seq<N>, j: nat, k: nat)
    requires j <= k < |cs|
    ensures {c1, cs[k]} in AddPairsFrom(g, c1, cs, j).weight
    decreases |cs| - j
  {
    var g' := AddEdge(g, c1, cs[j]);
    if j < k {
      PairEdge(g', c1, cs, j + 1, k);
    } else {
      PairsGrow(g', c1, cs, j + 1);
      var e := {c1, cs[j]};
      assert g'.weight[e] <= AddPairsFrom(g', c1, cs, j + 1).weight[e];
    }
  }

  /** The edges one address contributes: one for each address after its first occurrence. */
  function PairCount<A(==)>(locs: seq<A>, i: nat): nat
    requires i <= |locs|
    decreases |locs| - i
  {
    if i == |locs| then 0 else (|locs| - IndexOf(locs, locs[i]) - 1) + PairCount(locs, i + 1)
  }

  /**
   * One pass of the address loop for `locs[i]`, whose country is `cs[i]`: the country becomes a
   * node, then gets an edge to the country of every address after the first occurrence of
   * `locs[i]` (`p['C1'].index(loc1)`).
   */
  function LocStep<A(==), N>(g: Net<N>, locs: seq<A>, cs: seq<N>, i: nat): Net<N>
    requires |cs| == |locs| && i < |locs|
  {
    AddPairsFrom(AddNode(g, cs[i]), cs[i], cs[IndexOf(locs, locs[i]) + 1..], 0)
  }

  /** `graphAdder`'s loop over a paper's addresses from index `i` on. */
  function AddLocsFrom<A(==), N>(g: Net<N>, locs: seq<A>, cs: seq<N>, i: nat): Net<N>
    requires |cs| == |locs| && i <= |locs|
    decreases |locs| - i
  {
    if i == |locs| then g else AddLocsFrom(LocStep(g, locs, cs, i), locs, cs, i + 1)
  }

  /** The address loop adds, for each address, one unit of weight per address after its first occurrence. */
  lemma {:induction false} LocsWeight<A, N>(g: Net<N>, locs: seq<A>, cs: seq<N>, i: nat)
    requires |cs| == |locs| && i <= |locs|
    ensures |AddLocsFrom(g, locs, cs, i).weight| == |g.weight| + PairCount(locs, i)
    decreases |locs| - i
  {
    if i < |locs| {
      var first := IndexOf(locs, locs[i]);
      PairsWeight(AddNode(g, cs[i]), cs[i], cs[first + 1..], 0);
      LocsWeight(LocStep(g, locs, cs, i), locs, cs, i + 1);
    }
  }

  /** The inner loop's first step, spelled out. */
  lemma PairsUnfold<N>(g: Net<N>, c1: N, cs: seq<N>, j: nat)
    requires j < |cs|
    ensures AddPairsFrom(g, c1, cs, j) == AddPairsFrom(AddEdge(g, c1, cs[j]), c1, cs, j + 1)
  {
  }

  /** The paper loop's first pass, spelled out. */
  lemma PapersUnfold(g: Net<string>, plst: seq<Record>, k: nat)
    requires k < |plst|
    ensures AddPapersFrom(g, plst, k) == AddPapersFrom(AddPaper(g, plst[k]), plst, k + 1)
  {
  }

  /** The address loop's first pass, spelled out. */
  lemma LocsUnfold<A, N>(g: Net<N>, locs: seq<A>, cs: seq<N>, i: nat)
    requires |cs| == |locs| && i < |locs|
    ensures AddLocsFrom(g, locs, cs, i) == AddLocsFrom(LocStep(g, locs, cs, i), locs, cs, i + 1)
  {
  }

  /** `add_edge(c1, c2, weight = 1)` on a missing edge, and `weight += 1` on an existing one, are both one more unit of the pair. */
  lemma AddEdgeCases<N>(g: Net<N>, c1: N, c2: N)
    ensures {c1, c2} in g.weight ==> AddEdge(g, c1, c2) == Net(g.nodes, g.weight[{c1, c2} := g.weight[{c1, c2}] + 1])
    ensures {c1, c2} !in g.weight ==> AddEdge(g, c1, c2) == Net(g.nodes + {c1, c2}, g.weight[{c1, c2} := 1])
  {
  }

  lemma LocStepGrows<A, N>(g: Net<N>, locs: seq<A>, cs: seq<N>, i: nat)
    requires |cs| == |locs| && i < |locs|
    ensures g.nodes <= LocStep(g, locs, cs, i).nodes && g.weight <= LocStep(g, locs, cs, i).weight
    ensures cs[i] in LocStep(g, locs, cs, i).nodes
    ensures forall b :: IndexOf(locs, locs[i]) < b < |locs| ==> {cs[i], cs[b]} in LocStep(g, locs, cs, i).weight
  {
    var first := IndexOf(locs, locs[i]);
    var rest := cs[first + 1..];
    PairsGrow(AddNode(g, cs[i]), cs[i], rest, 0);
    forall b | first < b < |locs|
      ensures {cs[i], cs[b]} in LocStep(g, locs, cs, i).weight
    {
      assert cs[b] == rest[b - first - 1];
      PairEdge(AddNode(g, cs[i]), cs[i], rest, 0, b - first - 1);
    }
  }

  /** The address loop only adds, and makes the country of every address it walks over a node. */
  lemma {:induction false} LocsGrow<A, N>(g: Net<N>, locs: seq<A>, cs: seq<N>, i: nat)
    requires |cs| == |locs| && i <= |locs|
    ensures g.nodes <= AddLocsFrom(g, locs, cs, i).nodes && g.weight <= AddLocsFrom(g, locs, cs, i).weight
    ensures forall k :: i <= k < |locs| ==> cs[k] in AddLocsFrom(g, locs, cs, i).nodes
    decreases |locs| - i
  {
    if i < |locs| {
      LocStepGrows(g, locs, cs, i);
      LocsGrow(LocStep(g, locs, cs, i), locs, cs, i + 1);
    }
  }

  /**
   * For every address and every address after that address's first occurrence, the edge between
   * their countries is in the graph afterwards.
   */
  lemma {:induction false} LocsPairEdges<A, N>(g: Net<N>, locs: seq<A>, cs: seq<N>, i: nat, a: nat, b: nat)
    requires |cs| == |locs| && i <= a < |locs| && IndexOf(locs, locs[a]) < b < |locs|
    ensures {cs[a], cs[b]} in AddLocsFrom(g, locs, cs, i).weight
    decreases |locs| - i
  {
    LocStepGrows(g, locs, cs, i);
    if a == i {
      LocsGrow(LocStep(g, locs, cs, i), locs, cs, i + 1);
    } else {
      LocsPairEdges(LocStep(g, locs, cs, i), locs, cs, i + 1, a, b);
    }
  }

  /** What iterating over `p['C1']` yields: its lines, or the characters of a plain string. */
  function Items(v: FieldValue): (items: seq<string>)
    ensures v.Lines? ==> items == v.lines
  {
    match v
    case Lines(ls) => ls
    case Plain(t) => seq(|t|, i requires 0 <= i < |t| => [t[i]])
  }

  /** The country of each address. */
  function Countries(locs: seq<string>): (cs: seq<string>)
    ensures |cs| == |locs| && forall k {:trigger cs[k]} :: 0 <= k < |locs| ==> cs[k] == Country(locs[k])
  {
    seq(|locs|, k requires 0 <= k < |locs| => Country(locs[k]))
  }

  /** One paper: its addresses' countries and edges; a paper without `C1` raises a `KeyError` that is caught, leaving the graph as it was. */
  function AddPaper(g: Net<string>, p: Record): (r: Net<string>)
    ensures "C1" !in p ==> r == g
  {
    if "C1" in p then AddLocsFrom(g, Items(p["C1"]), Countries(Items(p["C1"])), 0) else g
  }

  /** A paper with `C1` adds exactly its pair count to the graph's total edge weight. */
  lemma PaperWeight(g: Net<string>, p: Record)
    requires "C1" in p
    ensures |AddPaper(g, p).weight| == |g.weight| + PairCount(Items(p["C1"]), 0)
  {
    LocsWeight(g, Items(p["C1"]), Countries(Items(p["C1"])), 0);
  }

  /** `graphAdder(plst, grph)` from the `k`-th paper on. */
  function AddPapersFrom(g: Net<string>, plst: seq<Record>, k: nat): Net<string>
    requires k <= |plst|
    decreases |plst| - k
  {
    if k == |plst| then g else AddPapersFrom(AddPaper(g, plst[k]), plst, k + 1)
  }

  /** `graphAdder` only adds nodes and weight. */
  lemma {:induction false} PapersGrow(g: Net<string>, plst: seq<Record>, k: nat)
    requires k <= |plst|
    ensures g.nodes <= AddPapersFrom(g, plst, k).nodes && g.weight <= AddPapersFrom(g, plst, k).weight
    decreases |plst| - k
  {
    if k < |plst| {
      var p := plst[k];
      if "C1" in p {
        LocsGrow(g, Items(p["C1"]), Countries(Items(p["C1"])), 0);
      }
      PapersGrow(AddPaper(g, p), plst, k + 1);
    }
  }

  /** After a paper is added, the country of every one of its addresses is a node. */
  lemma CountriesBecomeNodes(g: Net<string>, p: Record)
    requires "C1" in p
    ensures forall loc :: loc in Items(p["C1"]) ==> Country(loc) in AddPaper(g, p).nodes
  {
    var locs := Items(p["C1"]);
    var cs := Countries(locs);
    LocsGrow(g, locs, cs, 0);
    forall loc | loc in locs
      ensures Country(loc) in AddPaper(g, p).nodes
    {
      var k :| 0 <= k < |locs| && locs[k] == loc;
      assert cs[k] == Country(loc);
    }
  }

  /**
   * For each address of a paper and each address after that address's first occurrence, the
   * graph has an edge between their countries afterwards.
   */
  lemma PairsBecomeEdges(g: Net<string>, p: Record, a: nat, b: nat)
    requires "C1" in p && a < |Items(p["C1"])|
    requires IndexOf(Items(p["C1"]), Items(p["C1"])[a]) < b < |Items(p["C1"])|
    ensures {Country(Items(p["C1"])[a]), Country(Items(p["C1"])[b])} in AddPaper(g, p).weight
  {
    LocsPairEdges(g, Items(p["C1"]), Countries(Items(p["C1"])), 0, a, b);
  }

  /** With pairwise-distinct addresses, every address counts the addresses after it. */
  lemma {:induction false} DistinctPairCount<A>(locs: seq<A>, i: nat)
    requires i <= |locs|
    requires forall a, b :: 0 <= a < b < |locs| ==> locs[a] != locs[b]
    ensures 2 * PairCount(locs, i) == (|locs| - i) * (|locs| - i - 1)
    decreases |locs| - i
  {
    if i < |locs| {
      assert IndexOf(locs, locs[i]) == i;
      DistinctPairCount(locs, i + 1);
      var m := |locs| - i - 1;
      assert 2 * m + m * (m - 1) == (m + 1) * m;
    }
  }

  /** A paper with `n` pairwise-distinct addresses raises the graph's total edge weight by exactly n·(n−1)/2. */
  lemma DistinctAddressesAddTriangle(g: Net<string>, p: Record)
    requires "C1" in p
    requires forall a, b :: 0 <= a < b < |Items(p["C1"])| ==> Items(p["C1"])[a] != Items(p["C1"])[b]
    ensures 2 * (|AddPaper(g, p).weight| - |g.weight|) == |Items(p["C1"])| * (|Items(p["C1"])| - 1)
  {
    PaperWeight(g, p);
    DistinctPairCount(Items(p["C1"]), 0);
  }

  /**
   * An address listed twice pairs with itself, so its country gets a self-loop: the second
   * occurrence walks over the addresses after the first, itself included.
   */
  lemma RepeatedAddressSelfLoop(g: Net<string>, p: Record, a: nat, b: nat)
    requires "C1" in p && a < b < |Items(p["C1"])| && Items(p["C1"])[a] == Items(p["C1"])[b]
    ensures {Country(Items(p["C1"])[a])} in AddPaper(g, p).weight
  {
    var locs := Items(p["C1"]);
    var cs := Countries(locs);
    LocsSelfLoop(g, locs, cs, a, b);
    assert cs[b] == Country(locs[a]);
  }

  lemma LocsSelfLoop<A, N>(g: Net<N>, locs: seq<A>, cs: seq<N>, a: nat, b: nat)
    requires |cs| == |locs| && a < b < |locs| && locs[a] == locs[b]
    ensures {cs[b]} in AddLocsFrom(g, locs, cs, 0).weight
  {
    assert IndexOf(locs, locs[b]) <= a < b;
    LocsPairEdges(g, locs, cs, 0, b, b);
    assert {cs[b], cs[b]} == {cs[b]};
  }

  /**
   * A networkx `Graph` as `graphAdder` mutates it: `has_node`, `add_node`, `has_edge`,
   * `add_edge(c1, c2, weight = 1)` and `grph[c1][c2]['weight'] += 1`.
   */
  class Graph {
    var nodes: set<string>
    var weight: multiset<set<string>>

    /** `nx.Graph()`. */
    constructor ()
      ensures nodes == {} && weight == multiset{}
    {
      nodes := {};
      weight := multiset{};
    }

    function Value(): Net<string>
      reads this
    {
      Net(nodes, weight)
    }

    function HasNode(c: string): bool
      reads this
    {
      c in nodes
    }

    function HasEdge(c1: string, c2: string): bool
      reads this
    {
      {c1, c2} in weight
    }

    method AddNodeTo(c: string)
      modifies this
      ensures nodes == old(nodes) + {c} && weight == old(weight)
    {
      nodes := nodes + {c};
    }

    method AddEdgeTo(c1: string, c2: string)
      modifies this
      ensures nodes == old(nodes) + {c1, c2} && weight == old(weight)[{c1, c2} := 1]
    {
      nodes := nodes + {c1, c2};
      weight := weight[{c1, c2} := 1];
    }

    method IncrementWeight(c1: string, c2: string)
      requires HasEdge(c1, c2)
      modifies this
      ensures nodes == old(nodes) && weight == old(weight)[{c1, c2} := old(weight)[{c1, c2}] + 1]
    {
      weight := weight[{c1, c2} := weight[{c1, c2}] + 1];
    }
  }

  /** `graphAdder(plst, grph)`: the graph ends up as the papers, folded in order, make it. */
  method GraphAdder(plst: seq<Record>, grph: Graph)
    modifies grph
    ensures grph.Value() == AddPapersFrom(old(grph.Value()), plst, 0)
  {
    ghost var final := AddPapersFrom(grph.Value(), plst, 0);
    var k := 0;
    while k < |plst|
      invariant k <= |plst|
      invariant AddPapersFrom(grph.Value(), plst, k) == final
    {
      var p := plst[k];
      ghost var before := grph.Value();
      if "C1" in p {
        AddAddresses(Items(p["C1"]), grph);
      }
      PapersUnfold(before, plst, k);
      k := k + 1;
    }
  }

  /** `graphAdder`'s loop over one paper's addresses. */
  method AddAddresses(locs: seq<string>, grph: Graph)
    modifies grph
    ensures grph.Value() == AddLocsFrom(old(grph.Value()), locs, Countries(locs), 0)
  {
    ghost var cs := Countries(locs);
    ghost var start := grph.Value();
    var i := 0;
    while i < |locs|
      invariant i <= |locs|
      invariant AddLocsFrom(grph.Value(), locs, cs, i) == AddLocsFrom(start, locs, cs, 0)
    {
      ghost var now := grph.Value();
      AddAddress(locs, i, grph);
      LocsUnfold(now, locs, cs, i);
      i := i + 1;
    }
  }

  /**
   * One pass of `graphAdder`'s address loop: the country of `locs[i]` becomes a node and is
   * joined to the country of every address after the first occurrence of `locs[i]`.
   */
  method AddAddress(locs: seq<string>, i: nat, grph: Graph)
    requires i < |locs|
    modifies grph
    ensures grph.Value() == LocStep(old(grph.Value()), locs, Countries(locs), i)
  {
    ghost var before := grph.Value();
    var c1 := Country(locs[i]);
    AddCountry(c1, grph);
    ghost var added := grph.Value();
    var first := IndexOf(locs, locs[i]);
    ConnectAll(c1, locs[first + 1..], grph);
    AddAddressStep(before, added, grph.Value(), locs, i, c1, first);
  }

  /** The two steps of one address pass, adding the node and then its edges, make up `LocStep`. */
  lemma AddAddressStep(before: Net<string>, added: Net<string>, after: Net<string>, locs: seq<string>, i: nat, c1: string, first: nat)
    requires i < |locs| && c1 == Country(locs[i]) && first == IndexOf(locs, locs[i])
    requires added == AddNode(before, c1)
    requires after == AddPairsFrom(added, c1, Countries(locs[first + 1..]), 0)
    ensures after == LocStep(before, locs, Countries(locs), i)
  {
    CountriesSuffix(locs, first + 1);
    LocStepOf(before, added, after, locs, Countries(locs), i, c1, Countries(locs[first + 1..]));
  }

  /** `if not grph.has_node(c1): grph.add_node(c1)`. */
  method AddCountry(c1: string, grph: Graph)
    modifies grph
    ensures grph.Value() == AddNode(old(grph.Value()), c1)
  {
    if !grph.HasNode(c1) {
      grph.AddNodeTo(c1);
    }
  }

  /** The countries of a suffix of the addresses are that suffix of their countries. */
  lemma CountriesSuffix(locs: seq<string>, k: nat)
    requires k <= |locs|
    ensures Countries(locs[k..]) == Countries(locs)[k..]
  {
  }

  /** A node added for `c`, then `c` joined to `tail`, is `LocStep` when `c` and `tail` are the countries it names. */
  lemma LocStepOf<A, N>(g: Net<N>, added: Net<N>, after: Net<N>, locs: seq<A>, cs: seq<N>, i: nat, c: N, tail: seq<N>)
    requires |cs| == |locs| && i < |locs|
    requires c == cs[i] && tail == cs[IndexOf(locs, locs[i]) + 1..]
    requires added == AddNode(g, c) && after == AddPairsFrom(added, c, tail, 0)
    ensures after == LocStep(g, locs, cs, i)
  {
  }

  /** `graphAdder`'s inner loop: `c1` joined, in order, to the country of every address in `rest`. */
  method ConnectAll(c1: string, rest: seq<string>, grph: Graph)
    modifies grph
    ensures grph.Value() == AddPairsFrom(old(grph.Value()), c1, Countries(rest), 0)
  {
    ghost var cs := Countries(rest);
    ghost var start := grph.Value();
    var j := 0;
    while j < |rest|
      invariant j <= |rest|
      invariant AddPairsFrom(grph.Value(), c1, cs, j) == AddPairsFrom(start, c1, cs, 0)
    {
      ghost var now := grph.Value();
      var c2 := Country(rest[j]);
      assert c2 == cs[j];
      Connect(c1, c2, grph);
      PairsUnfold(now, c1, cs, j);
      j := j + 1;
    }
  }

  /** The inner loop's body: `weight += 1` on an existing edge, `add_edge(c1, c2, weight = 1)` otherwise. */
  method Connect(c1: string, c2: string, grph: Graph)
    modifies grph
    ensures grph.Value() == AddEdge(old(grph.Value()), c1, c2)
  {
    AddEdgeCases(grph.Value(), c1, c2);
    if grph.HasEdge(c1, c2) {
      grph.IncrementWeight(c1, c2);
    } else {
      grph.AddEdgeTo(c1, c2);
    }
  }
}
