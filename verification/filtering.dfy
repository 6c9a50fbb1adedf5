/** The dashboard's three drop-down filters (agent, province, source) and the
    filtered row list every chart is computed from. A filter value of Todos
    (agent) or Todas (province, source) lets every row through. */
module Filtering {
  import opened Seqs
  import opened Rows

  /** The wildcard of the agent drop-down. */
  const AnyAgent := "Todos"

  /** The wildcard of the province and source drop-downs. */
  const AnyValue := "Todas"

  /** The selected value of each drop-down. */
  datatype Filters = Filters(agent: string, province: string, source: string)

  /** The initial selection: nothing filtered. */
  const NoFilters := Filters(AnyAgent, AnyValue, AnyValue)

  /** One drop-down's selection, on its own. */
  datatype Criterion =
    | AgentIs(agent: string)
    | ProvinceIs(province: string)
    | SourceIs(source: string)

  /** A criterion is met by a row: the wildcard, or an exact match of the
      field the drop-down is about. */
  predicate Holds(c: Criterion, r: Row) {
    match c
    case AgentIs(a) => a == AnyAgent || r.agent == a
    case ProvinceIs(p) => p == AnyValue || r.province == p
    case SourceIs(s) => s == AnyValue || r.platform == s
  }

  function Test(c: Criterion): Row -> bool {
    r => Holds(c, r)
  }

  /** The criterion that lets every row through. */
  predicate IsWildcard(c: Criterion) {
    match c
    case AgentIs(a) => a == AnyAgent
    case ProvinceIs(p) => p == AnyValue
    case SourceIs(s) => s == AnyValue
  }

  /** A row passes the filters when all three criteria hold. */
  predicate Matches(f: Filters, r: Row) {
    && Holds(AgentIs(f.agent), r)
    && Holds(ProvinceIs(f.province), r)
    && Holds(SourceIs(f.source), r)
  }

  function MatchTest(f: Filters): Row -> bool {
    r => Matches(f, r)
  }

  /** The rows shown by every chart: those passing the filters, in their
      original order, each as many times as the data holds it. */
  function FilteredData(rows: seq<Row>, f: Filters): (out: seq<Row>)
    ensures IsSubsequence(out, rows)
    ensures forall r :: r in out <==> r in rows && Matches(f, r)
    ensures forall r :: multiset(out)[r] == if Matches(f, r) then multiset(rows)[r] else 0
  {
    FilterIsSubsequence(rows, MatchTest(f));
    FilterMultiset(rows, MatchTest(f));
    Filter(rows, MatchTest(f))
  }

  /** Applying one criterion on its own: the rows meeting it, in order,
      each as many times as the data holds it. */
  function Refine(rows: seq<Row>, c: Criterion): (out: seq<Row>)
    ensures IsSubsequence(out, rows)
    ensures forall r :: r in out <==> r in rows && Holds(c, r)
    ensures forall r :: multiset(out)[r] == if Holds(c, r) then multiset(rows)[r] else 0
  {
    FilterIsSubsequence(rows, Test(c));
    FilterMultiset(rows, Test(c));
    Filter(rows, Test(c))
  }

  /** Two criteria can be applied in either order. */
  lemma RefineCommutes(rows: seq<Row>, c: Criterion, d: Criterion)
    ensures Refine(Refine(rows, c), d) == Refine(Refine(rows, d), c)
  {
    FilterCommute(rows, Test(c), Test(d));
  }

  /** Filtering is applying the agent, the province and the source criteria
      one after another; by RefineCommutes, in any order. */
  lemma FilteredIsRefined(rows: seq<Row>, f: Filters)
    ensures FilteredData(rows, f)
         == Refine(Refine(Refine(rows, AgentIs(f.agent)), ProvinceIs(f.province)), SourceIs(f.source))
  {
    var a, p, s := Test(AgentIs(f.agent)), Test(ProvinceIs(f.province)), Test(SourceIs(f.source));
    FilterCompose(rows, a, p);
    FilterCompose(rows, Both(a, p), s);
    FilterCongruent(rows, Both(Both(a, p), s), MatchTest(f));
  }

  /** A wildcard criterion removes nothing. */
  lemma WildcardImposesNothing(rows: seq<Row>, c: Criterion)
    requires IsWildcard(c)
    ensures Refine(rows, c) == rows
  {
    FilterKeepsAll(rows, Test(c));
  }

  /** With every drop-down on its wildcard, all rows are shown. */
  lemma NoFilterKeepsAll(rows: seq<Row>)
    ensures FilteredData(rows, NoFilters) == rows
  {
    FilterKeepsAll(rows, MatchTest(NoFilters));
  }

  /** Filtering the filtered rows again changes nothing. */
  lemma FilteredDataIdempotent(rows: seq<Row>, f: Filters)
    ensures FilteredData(FilteredData(rows, f), f) == FilteredData(rows, f)
  {
    FilterKeepsAll(FilteredData(rows, f), MatchTest(f));
  }
}
