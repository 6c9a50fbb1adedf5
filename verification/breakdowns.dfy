/** The per-agent funnel table, the geographic distribution with small
    provinces folded into Otro, and the per-province counts of one chosen
    funnel stage. Each is a grouping of the filtered rows whose totals agree
    with the KPI counts. */
module Breakdowns {
  import opened Text
  import opened Seqs
  import opened Grouping
  import opened Sorting
  import opened Rows
  import opened Funnel

  // ---------------------------------------------------------------------
  // Per-agent funnel counts

  /** The label rows without an agent are grouped under. */
  const NoAgent := "Sin Agente"

  /** The agent a row is grouped under: its agent label, or Sin Agente when
      the label is empty (src/App.jsx:174, 283). */
  function AgentKey(r: Row): string {
    if r.agent == "" then NoAgent else r.agent
  }

  /** One row of the per-agent table. */
  datatype AgentStats = AgentStats(name: string, leads: nat, quotes: nat, offers: nat, sales: nat)

  /** The column of the per-agent table holding a stage's count. */
  function Column(s: Stage): AgentStats -> nat {
    (a: AgentStats) => match s
      case Lead => a.leads
      case Quote => a.quotes
      case Offer => a.offers
      case Sale => a.sales
  }

  /** The stage counts of one agent's rows. */
  function StatsOf(g: Group<Row>): AgentStats {
    AgentStats(
      g.key,
      Count(g.items, StageTest(Lead)),
      Count(g.items, StageTest(Quote)),
      Count(g.items, StageTest(Offer)),
      Count(g.items, StageTest(Sale)))
  }

  /** One line per agent: every agent of the rows has exactly one line, and
      each column counts that agent's rows in the column's stage. The model
      lists the lines in order of first appearance; the order is not part of
      the contract. */
  function AgentPerformance(rows: seq<Row>): (table: seq<AgentStats>)
    ensures forall i, j :: 0 <= i < j < |table| ==> table[i].name != table[j].name
    ensures forall r :: r in rows ==> exists i :: 0 <= i < |table| && table[i].name == AgentKey(r)
    ensures forall i :: 0 <= i < |table| ==> CountsOf(WithKey(rows, AgentKey, table[i].name), table[i])
  {
    var gs := GroupBy(rows, AgentKey);
    var table := MapGroups(gs, StatsOf);
    AgentTableCovers(rows, gs, table);
    table
  }

  /** The stats line `a` holds the stage counts of the rows `w`, which are
      not none. */
  predicate CountsOf(w: seq<Row>, a: AgentStats) {
    && |w| > 0
    && a.leads == Count(w, StageTest(Lead))
    && a.quotes == Count(w, StageTest(Quote))
    && a.offers == Count(w, StageTest(Offer))
    && a.sales == Count(w, StageTest(Sale))
  }

  lemma AgentTableCovers(rows: seq<Row>, gs: seq<Group<Row>>, table: seq<AgentStats>)
    requires gs == GroupBy(rows, AgentKey) && table == MapGroups(gs, StatsOf)
    ensures forall r :: r in rows ==> exists i :: 0 <= i < |table| && table[i].name == AgentKey(r)
  {
    forall r | r in rows ensures exists i :: 0 <= i < |table| && table[i].name == AgentKey(r) {
      var i :| 0 <= i < |gs| && gs[i].key == AgentKey(r);
      assert table[i].name == AgentKey(r);
    }
  }

  /** Each column of the per-agent table adds up to the KPI count of its
      stage. */
  lemma AgentColumnsSum(rows: seq<Row>, s: Stage)
    ensures SumOf(AgentPerformance(rows), Column(s)) == Count(rows, StageTest(s))
  {
    var gs := GroupBy(rows, AgentKey);
    GroupSums(rows, AgentKey, StageTest(s));
    SumOfMapGroups(gs, StatsOf, Column(s), StageTest(s));
  }

  lemma AgentColumnsMatchKpis(rows: seq<Row>)
    ensures var k := ComputeKpis(rows);
      && SumOf(AgentPerformance(rows), Column(Lead)) == k.leads
      && SumOf(AgentPerformance(rows), Column(Quote)) == k.quotes
      && SumOf(AgentPerformance(rows), Column(Offer)) == k.offers
      && SumOf(AgentPerformance(rows), Column(Sale)) == k.sales
  {
    AgentColumnsSum(rows, Lead);
    AgentColumnsSum(rows, Quote);
    AgentColumnsSum(rows, Offer);
    AgentColumnsSum(rows, Sale);
  }

  // ---------------------------------------------------------------------
  // Geographic distribution

  /** The province a row is counted under in the province charts: its
      province label trimmed, or Sin Datos when that is empty
      (src/App.jsx:200, 241). */
  function ProvKey(r: Row): string {
    var t := Trim(r.province);
    if t == "" then NoProvince else t
  }

  /** Provinces with fewer rows than this are folded into Otro. */
  const MinShown: nat := 10

  /** The name of the folded bucket. */
  const OtherName := "Otro"

  /** An entry that goes into the Otro bucket: a province called otro (in
      any case) or one with fewer than MinShown rows. */
  predicate Folded(e: Entry) {
    Lower(e.name) == "otro" || e.value < MinShown
  }

  predicate IsOther(e: Entry) {
    e.name == OtherName
  }

  /** The entries kept as they are, then one Otro entry holding the sum of
      the folded ones when that sum is not zero. */
  function Fold(es: seq<Entry>): seq<Entry> {
    var other := SumOf(Filter(es, Folded), ValueOf);
    Filter(es, Not(Folded)) + (if other > 0 then [Entry(OtherName, other)] else [])
  }

  lemma OtherNameFolds(name: string)
    requires name == OtherName
    ensures Lower(name) == "otro"
  {
  }

  /** Folding keeps the total. */
  lemma FoldSum(es: seq<Entry>)
    ensures SumOf(Fold(es), ValueOf) == SumOf(es, ValueOf)
  {
    var other := SumOf(Filter(es, Folded), ValueOf);
    var tail := if other > 0 then [Entry(OtherName, other)] else [];
    SumOfAppend(Filter(es, Not(Folded)), tail, ValueOf);
    SumOfPartition(es, Folded, ValueOf);
    assert SumOf(tail, ValueOf) == other;
  }

  /** Folding leaves at most one entry called Otro. */
  lemma FoldOtherOnce(es: seq<Entry>)
    ensures Count(Fold(es), IsOther) <= 1
  {
    var main := Filter(es, Not(Folded));
    var other := SumOf(Filter(es, Folded), ValueOf);
    var tail := if other > 0 then [Entry(OtherName, other)] else [];
    forall e | e in main ensures !IsOther(e) {
      if IsOther(e) {
        OtherNameFolds(e.name);
      }
    }
    CountNone(main, IsOther);
    CountAppend(main, tail, IsOther);
  }

  /** Folding entries with distinct names gives entries with distinct
      names: no kept entry is called otro in any case, so none clashes with
      the Otro entry. */
  lemma FoldDistinct(es: seq<Entry>)
    requires DistinctBy(es, NameOf)
    ensures DistinctBy(Fold(es), NameOf)
  {
    var main := Filter(es, Not(Folded));
    var other := SumOf(Filter(es, Folded), ValueOf);
    FilterKeepsDistinct(es, Not(Folded), NameOf);
    if other > 0 {
      OtherNameFolds(OtherName);
      forall y | y in main ensures NameOf(y) != NameOf(Entry(OtherName, other)) {
        assert !Folded(y);
      }
      SnocDistinct(main, Entry(OtherName, other), NameOf);
    } else {
      assert Fold(es) == main;
    }
  }

  /** The geography chart: entries with distinct names, sorted by count,
      largest first, adding up to the number of rows; each entry other than
      Otro is a province with at least MinShown rows and its exact count;
      every such province has its entry; Otro appears at most once; no
      entry is zero. With distinct names and the sum, the Otro entry, when
      present, holds exactly the rows of the folded provinces. */
  function GeoDistribution(rows: seq<Row>): (es: seq<Entry>)
    ensures forall i, j :: 0 <= i < j < |es| ==> es[i].name != es[j].name
    ensures SortedDesc(es, EntryWeight)
    ensures SumOf(es, ValueOf) == |rows|
    ensures forall e :: e in es ==> e.value > 0
    ensures forall e :: e in es && !IsOther(e) ==>
      && e.value >= MinShown
      && Lower(e.name) != "otro"
      && e.value == |WithKey(rows, ProvKey, e.name)|
    ensures forall r :: r in rows ==>
      var e := Entry(ProvKey(r), |WithKey(rows, ProvKey, ProvKey(r))|);
      !Folded(e) ==> e in es
    ensures Count(es, IsOther) <= 1
  {
    var counts := CountBy(rows, ProvKey);
    var folded := Fold(counts);
    var es := SortDesc(folded, EntryWeight);
    FoldSum(counts);
    SortKeepsSum(folded, EntryWeight, ValueOf);
    FoldOtherOnce(counts);
    SortKeepsCount(folded, EntryWeight, IsOther);
    GeoEntries(rows, counts, folded, es);
    assert DistinctBy(counts, NameOf);
    FoldDistinct(counts);
    SortKeepsDistinct(folded, EntryWeight, NameOf);
    es
  }

  lemma GeoEntries(rows: seq<Row>, counts: seq<Entry>, folded: seq<Entry>, es: seq<Entry>)
    requires counts == CountBy(rows, ProvKey) && folded == Fold(counts)
    requires multiset(es) == multiset(folded)
    ensures forall e :: e in es ==> e.value > 0
    ensures forall e :: e in es && !IsOther(e) ==>
      && e.value >= MinShown
      && Lower(e.name) != "otro"
      && e.value == |WithKey(rows, ProvKey, e.name)|
    ensures forall r :: r in rows ==>
      var e := Entry(ProvKey(r), |WithKey(rows, ProvKey, ProvKey(r))|);
      !Folded(e) ==> e in es
  {
    var main := Filter(counts, Not(Folded));
    forall e | e in es ensures e.value > 0 && (!IsOther(e) ==> e in main) {
      assert e in multiset(folded);
    }
    forall r | r in rows
      ensures var e := Entry(ProvKey(r), |WithKey(rows, ProvKey, ProvKey(r))|);
        !Folded(e) ==> e in es
    {
      var e := Entry(ProvKey(r), |WithKey(rows, ProvKey, ProvKey(r))|);
      if !Folded(e) {
        assert Not(Folded)(e);
        assert e in folded;
        assert e in multiset(es);
      }
    }
  }

  // ---------------------------------------------------------------------
  // Per-province counts of one stage

  /** The stage the province chart shows, chosen by the chart's selector:
      cotizacion, oferta or venta; any other value selects nothing. */
  function ChosenStage(kind: string): Option<Stage> {
    if kind == "cotizacion" then Some(Quote)
    else if kind == "oferta" then Some(Offer)
    else if kind == "venta" then Some(Sale)
    else None
  }

  predicate Included(kind: string, r: Row) {
    ChosenStage(kind).Some? && InStage(ChosenStage(kind).value, r)
  }

  function IncludedTest(kind: string): Row -> bool {
    r => Included(kind, r)
  }

  predicate Positive(e: Entry) {
    e.value > 0
  }

  /** The province chart: for each province with rows in the chosen stage,
      one entry holding its count, largest first; every such province has
      its entry. The counts add up to the KPI count of that stage; with no
      stage chosen the chart is empty. */
  function DatosPorProvincia(rows: seq<Row>, kind: string): (es: seq<Entry>)
    ensures forall i, j :: 0 <= i < j < |es| ==> es[i].name != es[j].name
    ensures SortedDesc(es, EntryWeight)
    ensures forall e :: e in es ==> e.value > 0
    ensures forall e :: e in es ==> e.value == |WithKey(Filter(rows, IncludedTest(kind)), ProvKey, e.name)|
    ensures forall r :: r in rows && Included(kind, r) ==> exists e :: e in es && e.name == ProvKey(r)
    ensures ChosenStage(kind).None? ==> es == []
    ensures ChosenStage(kind).Some? ==>
      SumOf(es, ValueOf) == Count(rows, StageTest(ChosenStage(kind).value))
  {
    var chosen := Filter(rows, IncludedTest(kind));
    var counts := CountBy(chosen, ProvKey);
    var kept := Filter(counts, Positive);
    var es := SortDesc(kept, EntryWeight);
    SumOfDropZeros(counts, Positive, ValueOf);
    SortKeepsSum(kept, EntryWeight, ValueOf);
    ChosenCount(rows, kind);
    DatosEntries(rows, kind, chosen, counts, kept, es);
    if ChosenStage(kind).None? then
      SumOfPositive(es, ValueOf);
      es
    else es
  }

  /** The entries of the province chart: distinct names, each a positive
      count of a province among the chosen rows, and every province with a
      row in the chosen stage keeps its entry through the positive filter
      and the sort. */
  lemma DatosEntries(rows: seq<Row>, kind: string, chosen: seq<Row>, counts: seq<Entry>, kept: seq<Entry>, es: seq<Entry>)
    requires chosen == Filter(rows, IncludedTest(kind)) && counts == CountBy(chosen, ProvKey)
    requires kept == Filter(counts, Positive) && es == SortDesc(kept, EntryWeight)
    ensures DistinctBy(es, NameOf)
    ensures forall e :: e in es ==> e.value > 0 && e.value == |WithKey(chosen, ProvKey, e.name)|
    ensures forall r :: r in rows && Included(kind, r) ==> exists e :: e in es && e.name == ProvKey(r)
  {
    assert DistinctBy(counts, NameOf);
    FilterKeepsDistinct(counts, Positive, NameOf);
    SortKeepsDistinct(kept, EntryWeight, NameOf);
    forall e | e in es ensures e in kept {
      assert e in multiset(kept);
    }
    forall r | r in rows && Included(kind, r) ensures exists e :: e in es && e.name == ProvKey(r) {
      assert IncludedTest(kind)(r);
      assert r in chosen;
      var e := Entry(ProvKey(r), |WithKey(chosen, ProvKey, ProvKey(r))|);
      assert e in counts;
      assert e in kept;
      assert e in multiset(es);
    }
  }

  /** The included rows are the rows of the chosen stage. */
  lemma ChosenCount(rows: seq<Row>, kind: string)
    ensures ChosenStage(kind).None? ==> Count(rows, IncludedTest(kind)) == 0
    ensures ChosenStage(kind).Some? ==>
      Count(rows, IncludedTest(kind)) == Count(rows, StageTest(ChosenStage(kind).value))
  {
    if ChosenStage(kind).None? {
      CountNone(rows, IncludedTest(kind));
    } else {
      FilterCongruent(rows, IncludedTest(kind), StageTest(ChosenStage(kind).value));
    }
  }
}
