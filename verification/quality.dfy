/** The quality ranking: per platform label, the leads, the quotations and
    the lead-to-quotation conversion, ranked by conversion. */
module Quality {
  import opened Seqs
  import opened Grouping
  import opened Sorting
  import opened Rows
  import opened Funnel
  import opened Timeline

  /** The chart caps the bar it draws at this percentage. */
  const DisplayCap: real := 30.0

  /** `c` is the conversion of `quotes` over `leads`: 100 when there are
      quotations but no leads, 0 when there are neither, and otherwise
      `quotes` as a percentage of `leads` (which may exceed 100). */
  predicate ConversionOf(c: real, leads: nat, quotes: nat) {
    && (leads == 0 && quotes > 0 ==> c == 100.0)
    && (leads == 0 && quotes == 0 ==> c == 0.0)
    && (leads > 0 ==> c * (leads as real) == 100.0 * (quotes as real))
    && 0.0 <= c
  }

  /** The conversion of a platform. Exact: toFixed(1) rounding is not
      modelled. */
  function Conversion(leads: nat, quotes: nat): (c: real)
    ensures ConversionOf(c, leads, quotes)
  {
    if quotes > 0 && leads == 0 then 100.0
    else if leads > 0 then (quotes as real / leads as real) * 100.0
    else 0.0
  }

  /** The drawn bar: the smaller of the conversion and the cap
      (src/App.jsx:415). */
  function Display(c: real): (d: real)
    ensures d <= DisplayCap && d <= c
    ensures d == c || d == DisplayCap
  {
    if c < DisplayCap then c else DisplayCap
  }

  /** One line of the ranking. */
  datatype QualityLine = QualityLine(name: string, conversion: real, display: real, leads: nat, quotes: nat)

  function LineOf(g: Group<Row>): QualityLine {
    var leads := Count(g.items, StageTest(Lead));
    var quotes := Count(g.items, StageTest(Quote));
    var c := Conversion(leads, quotes);
    QualityLine(g.key, c, Display(c), leads, quotes)
  }

  /** The ranking keeps the platforms with a lead or a quotation. */
  predicate Active(l: QualityLine) {
    l.leads > 0 || l.quotes > 0
  }

  function LineName(l: QualityLine): string {
    l.name
  }

  function ConversionWeight(l: QualityLine): real {
    l.conversion
  }

  function LeadsOf(l: QualityLine): nat {
    l.leads
  }

  function QuotesOf(l: QualityLine): nat {
    l.quotes
  }

  /** A ranking line is right about the rows `w` of its platform, which
      are not none: it counts their leads and quotations, its conversion is theirs, and its
      bar is that conversion capped. */
  predicate LineFor(w: seq<Row>, l: QualityLine) {
    && |w| > 0
    && l.leads == Count(w, StageTest(Lead))
    && l.quotes == Count(w, StageTest(Quote))
    && ConversionOf(l.conversion, l.leads, l.quotes)
    && l.display <= DisplayCap && l.display <= l.conversion
    && (l.display == l.conversion || l.display == DisplayCap)
  }

  /** The unsorted lines, one per platform label in order of first
      appearance. */
  function PlatformLines(rows: seq<Row>): (ls: seq<QualityLine>)
    ensures forall i, j :: 0 <= i < j < |ls| ==> ls[i].name != ls[j].name
    ensures forall i :: 0 <= i < |ls| ==> LineFor(WithKey(rows, PlatformLabel, ls[i].name), ls[i])
    ensures forall r :: r in rows ==> exists i :: 0 <= i < |ls| && ls[i].name == PlatformLabel(r)
  {
    var gs := GroupBy(rows, PlatformLabel);
    var ls := MapGroups(gs, LineOf);
    PlatformLinesFacts(rows, gs, ls);
    ls
  }

  lemma PlatformLinesFacts(rows: seq<Row>, gs: seq<Group<Row>>, ls: seq<QualityLine>)
    requires gs == GroupBy(rows, PlatformLabel) && ls == MapGroups(gs, LineOf)
    ensures forall i :: 0 <= i < |ls| ==> LineFor(WithKey(rows, PlatformLabel, ls[i].name), ls[i])
    ensures forall r :: r in rows ==> exists i :: 0 <= i < |ls| && ls[i].name == PlatformLabel(r)
  {
    forall i | 0 <= i < |ls| ensures LineFor(WithKey(rows, PlatformLabel, ls[i].name), ls[i]) {
      LineOfIsLineFor(gs[i]);
    }
    forall r | r in rows ensures exists i :: 0 <= i < |ls| && ls[i].name == PlatformLabel(r) {
      var i :| 0 <= i < |gs| && gs[i].key == PlatformLabel(r);
      assert ls[i].name == PlatformLabel(r);
    }
  }

  lemma LineOfIsLineFor(g: Group<Row>)
    requires |g.items| > 0
    ensures LineFor(g.items, LineOf(g)) && LineOf(g).name == g.key
  {
  }

  /** The ranking: one line per platform with a lead or a quotation,
      highest conversion first; each is right about its platform's rows,
      and every platform with a lead or a quotation has its line. */
  function QualityRanking(rows: seq<Row>): (ranking: seq<QualityLine>)
    ensures DistinctBy(ranking, LineName)
    ensures SortedDesc(ranking, ConversionWeight)
    ensures forall l :: l in ranking ==> Active(l) && LineFor(WithKey(rows, PlatformLabel, l.name), l)
    ensures forall r :: r in rows && (InStage(Lead, r) || InStage(Quote, r)) ==>
      exists l :: l in ranking && l.name == PlatformLabel(r)
  {
    var ls := PlatformLines(rows);
    var ranking := SortDesc(Filter(ls, Active), ConversionWeight);
    FilteredRearrangement(ls, Active, ranking);
    RankingLines(rows, ls, ranking);
    RankingCovers(rows, ls, ranking);
    assert DistinctBy(ls, LineName);
    FilterKeepsDistinct(ls, Active, LineName);
    SortKeepsDistinct(Filter(ls, Active), ConversionWeight, LineName);
    ranking
  }

  /** Every line of the ranking is an active line of the platform lines. */
  lemma RankingLines(rows: seq<Row>, ls: seq<QualityLine>, ranking: seq<QualityLine>)
    requires forall i :: 0 <= i < |ls| ==> LineFor(WithKey(rows, PlatformLabel, ls[i].name), ls[i])
    requires forall l :: l in ranking ==> l in ls && Active(l)
    ensures forall l :: l in ranking ==> Active(l) && LineFor(WithKey(rows, PlatformLabel, l.name), l)
  {
    forall l | l in ranking ensures Active(l) && LineFor(WithKey(rows, PlatformLabel, l.name), l) {
      var i :| 0 <= i < |ls| && ls[i] == l;
    }
  }

  lemma RankingCovers(rows: seq<Row>, ls: seq<QualityLine>, ranking: seq<QualityLine>)
    requires forall i :: 0 <= i < |ls| ==> ls[i].leads == Count(WithKey(rows, PlatformLabel, ls[i].name), StageTest(Lead))
    requires forall i :: 0 <= i < |ls| ==> ls[i].quotes == Count(WithKey(rows, PlatformLabel, ls[i].name), StageTest(Quote))
    requires forall r :: r in rows ==> exists i :: 0 <= i < |ls| && ls[i].name == PlatformLabel(r)
    requires forall i :: 0 <= i < |ls| && Active(ls[i]) ==> ls[i] in ranking
    ensures forall r :: r in rows && (InStage(Lead, r) || InStage(Quote, r)) ==>
      exists l :: l in ranking && l.name == PlatformLabel(r)
  {
    forall r | r in rows && (InStage(Lead, r) || InStage(Quote, r))
      ensures exists l :: l in ranking && l.name == PlatformLabel(r)
    {
      var i :| 0 <= i < |ls| && ls[i].name == PlatformLabel(r);
      var w := WithKey(rows, PlatformLabel, ls[i].name);
      assert r in w;
      if InStage(Lead, r) {
        CountMember(w, r, StageTest(Lead));
      } else {
        CountMember(w, r, StageTest(Quote));
      }
    }
  }

  /** The ranking's leads and quotations add up to the KPI counts: no row
      is lost by dropping the inactive platforms. */
  lemma RankingMatchesKpis(rows: seq<Row>)
    ensures SumOf(QualityRanking(rows), LeadsOf) == ComputeKpis(rows).leads
    ensures SumOf(QualityRanking(rows), QuotesOf) == ComputeKpis(rows).quotes
  {
    RankingColumn(rows, Lead, LeadsOf);
    RankingColumn(rows, Quote, QuotesOf);
  }

  lemma RankingColumn(rows: seq<Row>, s: Stage, col: QualityLine -> nat)
    requires s == Lead || s == Quote
    requires s == Lead ==> col == LeadsOf
    requires s == Quote ==> col == QuotesOf
    ensures SumOf(QualityRanking(rows), col) == Count(rows, StageTest(s))
  {
    var gs := GroupBy(rows, PlatformLabel);
    var ls := MapGroups(gs, LineOf);
    var kept := Filter(ls, Active);
    SortKeepsSum(kept, ConversionWeight, col);
    SumOfDropZeros(ls, Active, col);
    SumOfMapGroups(gs, LineOf, col, StageTest(s));
    GroupSums(rows, PlatformLabel, StageTest(s));
  }
}
