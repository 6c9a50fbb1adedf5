/** The closed-visit charts: visits by kind (showroom, factory, both) and
    visits by agent. Both count the rows whose VISITAS value is one of the
    three kinds, so their totals agree with the visits KPI. */
module Visits {
  import opened Seqs
  import opened Grouping
  import opened Sorting
  import opened Rows
  import opened Funnel
  import opened Breakdowns

  /** The rows whose visit value is the given kind. */
  function VisitIs(kind: string): Row -> bool {
    r => VisitKey(r) == kind
  }

  /** The three bars of the visit chart, in the fixed order Showroom,
      Fábrica, Ambas, each holding the count of its kind. */
  function VisitBars(rows: seq<Row>): seq<Entry> {
    [ Entry("Showroom", Count(rows, VisitIs("showroom"))),
      Entry("F\U{E1}brica", Count(rows, VisitIs("fabrica"))),
      Entry("Ambas", Count(rows, VisitIs("ambas"))) ]
  }

  /** The visit chart: the bars of kinds with at least one visit, in the
      fixed order; every kind with a visit has its bar; the bars add up to
      the visits KPI. */
  function VisitasData(rows: seq<Row>): (es: seq<Entry>)
    ensures IsSubsequence(es, VisitBars(rows))
    ensures forall e :: e in es ==> e.value > 0
    ensures forall e :: e in VisitBars(rows) && e.value > 0 ==> e in es
    ensures SumOf(es, ValueOf) == Count(rows, IsVisit)
  {
    var bars := VisitBars(rows);
    FilterIsSubsequence(bars, Positive);
    SumOfDropZeros(bars, Positive, ValueOf);
    VisitBarsSum(rows);
    Filter(bars, Positive)
  }

  /** The three bars together count every closed visit once. */
  lemma VisitBarsSum(rows: seq<Row>)
    ensures SumOf(VisitBars(rows), ValueOf) == Count(rows, IsVisit)
  {
    var bars := VisitBars(rows);
    ThreeSum(bars);
    assert bars[0].value == Count(rows, VisitIs("showroom"));
    assert bars[1].value == Count(rows, VisitIs("fabrica"));
    assert bars[2].value == Count(rows, VisitIs("ambas"));
    assert VisitKinds == {"showroom", "fabrica", "ambas"};
    assert "showroom" != "fabrica";
    assert "showroom" != "ambas";
    assert "fabrica" != "ambas";
    KindCounts(rows, "showroom", "fabrica", "ambas");
  }

  lemma ThreeSum(es: seq<Entry>)
    requires |es| == 3
    ensures SumOf(es, ValueOf) == es[0].value + es[1].value + es[2].value
  {
    assert SumOf(es[1..][1..][1..], ValueOf) == 0;
    assert SumOf(es[1..][1..], ValueOf) == es[2].value;
    assert SumOf(es[1..], ValueOf) == es[1].value + es[2].value;
  }

  /** Counting the rows whose visit is one of three distinct kinds. */
  lemma KindCounts(rows: seq<Row>, a: string, b: string, c: string)
    requires VisitKinds == {a, b, c} && a != b && a != c && b != c
    ensures Count(rows, IsVisit) == Count(rows, VisitIs(a)) + Count(rows, VisitIs(b)) + Count(rows, VisitIs(c))
  {
    var ab := (r: Row) => VisitKey(r) == a || VisitKey(r) == b;
    CountSplit(rows, IsVisit, ab, VisitIs(c));
    CountSplit(rows, ab, VisitIs(a), VisitIs(b));
  }

  /** The visits-by-agent chart: for each agent with closed visits, the
      number of them, largest first; every such agent has its bar and the
      bars add up to the visits KPI. */
  function VisitasPorAgente(rows: seq<Row>): (es: seq<Entry>)
    ensures SortedDesc(es, EntryWeight)
    ensures forall e :: e in es ==> e.value > 0 && e.value == |WithKey(Filter(rows, IsVisit), AgentKey, e.name)|
    ensures forall r :: r in rows && IsVisit(r) ==> exists e :: e in es && e.name == AgentKey(r)
    ensures SumOf(es, ValueOf) == Count(rows, IsVisit)
  {
    var visited := Filter(rows, IsVisit);
    var counts := CountBy(visited, AgentKey);
    var es := SortDesc(counts, EntryWeight);
    SortKeepsSum(counts, EntryWeight, ValueOf);
    AgentVisitEntries(rows, visited, counts, es);
    es
  }

  lemma AgentVisitEntries(rows: seq<Row>, visited: seq<Row>, counts: seq<Entry>, es: seq<Entry>)
    requires visited == Filter(rows, IsVisit) && counts == CountBy(visited, AgentKey)
    requires multiset(es) == multiset(counts)
    ensures forall e :: e in es ==> e.value > 0 && e.value == |WithKey(visited, AgentKey, e.name)|
    ensures forall r :: r in rows && IsVisit(r) ==> exists e :: e in es && e.name == AgentKey(r)
  {
    forall e | e in es ensures e in counts {
      assert e in multiset(counts);
    }
    forall r | r in rows && IsVisit(r) ensures exists e :: e in es && e.name == AgentKey(r) {
      var e := Entry(AgentKey(r), |WithKey(visited, AgentKey, AgentKey(r))|);
      assert e in multiset(es);
    }
  }

  /** The two visit charts and the visits KPI show the same total. */
  lemma VisitTotalsAgree(rows: seq<Row>)
    ensures SumOf(VisitasData(rows), ValueOf) == ComputeKpis(rows).visits
    ensures SumOf(VisitasPorAgente(rows), ValueOf) == ComputeKpis(rows).visits
  {
  }
}
