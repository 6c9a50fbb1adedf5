/** The sales funnel: classifying a row's event type into the four stages
    (lead, quotation, commercial offer, sale) by substring search, counting
    each stage and the closed visits, the cumulative stage totals, the three
    conversion percentages and the most frequent province. */
module Funnel {
  import opened Text
  import opened Seqs
  import opened Grouping
  import opened Sorting
  import opened Rows

  /** A row mentions a word when its lower-cased event type contains it; a
      row whose event type is missing mentions nothing (src/App.jsx:86-100). */
  predicate Mentions(r: Row, word: string) {
    r.eventType.Some? && Contains(Lower(r.eventType.value), word)
  }

  /** The four funnel stages. */
  datatype Stage = Lead | Quote | Offer | Sale

  /** The stage tests of the dashboard. A row can be in several stages at
      once, when its event type mentions several stage words. */
  predicate InStage(s: Stage, r: Row) {
    match s
    case Lead => Mentions(r, "lead")
    case Quote => Mentions(r, "cotizaci\U{F3}n") || Mentions(r, "cotizacion")
    case Offer => Mentions(r, "oferta comercial") || Mentions(r, "oferta")
    case Sale => Mentions(r, "venta")
  }

  function StageTest(s: Stage): Row -> bool {
    r => InStage(s, r)
  }

  function MentionTest(word: string): Row -> bool {
    r => Mentions(r, word)
  }

  /** The offer test is the same as mentioning "oferta": the longer phrase
      "oferta comercial" adds nothing. */
  lemma OfferIsOfertaMention(r: Row)
    ensures InStage(Offer, r) <==> Mentions(r, "oferta")
  {
    if Mentions(r, "oferta comercial") {
      assert "oferta comercial" == "oferta" + " comercial";
      ContainsPrefixOf(Lower(r.eventType.value), "oferta", " comercial");
    }
  }

  /** Hence the offer count is the count of rows mentioning "oferta". */
  lemma OfferCountIsOfertaCount(rows: seq<Row>)
    ensures Count(rows, StageTest(Offer)) == Count(rows, MentionTest("oferta"))
  {
    forall r | r in rows ensures StageTest(Offer)(r) == MentionTest("oferta")(r) {
      OfferIsOfertaMention(r);
    }
    FilterCongruent(rows, StageTest(Offer), MentionTest("oferta"));
  }

  /** The VISITAS values that count as a closed visit, after lower-casing
      and trimming. */
  const VisitKinds: set<string> := {"showroom", "fabrica", "ambas"}

  /** The visit kind of a row: its VISITAS label lower-cased and trimmed
      (src/App.jsx:105, 257, 280). */
  function VisitKey(r: Row): string {
    Trim(Lower(r.visit))
  }

  predicate IsVisit(r: Row) {
    VisitKey(r) in VisitKinds
  }

  /** `r` is `down` as a percentage of `up`, zero when `up` is zero, and a
      value between 0 and 100. */
  predicate RateOf(r: real, down: nat, up: nat) {
    && (up == 0 ==> r == 0.0)
    && (up > 0 ==> r * (up as real) == 100.0 * (down as real))
    && 0.0 <= r <= 100.0
  }

  /** A conversion percentage `down / up * 100`, zero when `up` is zero.
      Exact: the rounding of toFixed(1) is not modelled. */
  function Rate(down: nat, up: nat): (r: real)
    ensures up == 0 ==> r == 0.0
    ensures down <= up ==> RateOf(r, down, up)
  {
    if up > 0 then (down as real / up as real) * 100.0 else 0.0
  }

  /** The province key of the top-province count: a missing province counts
      as Sin Datos. */
  function ProvinceCountKey(r: Row): string {
    if r.province == "" then NoProvince else r.province
  }

  /** The sort weight of a `{ name, value }` entry. */
  function EntryWeight(e: Entry): real {
    e.value as real
  }

  /** The first entry of the province counts sorted by count, largest first:
      absent exactly when there are no rows, otherwise a province of some
      row whose count no other province exceeds. */
  function TopProvinceEntry(rows: seq<Row>): (top: Option<Entry>)
    ensures top.None? <==> |rows| == 0
    ensures top.Some? ==> top.value.value == |WithKey(rows, ProvinceCountKey, top.value.name)|
    ensures top.Some? ==> exists r :: r in rows && ProvinceCountKey(r) == top.value.name
    ensures top.Some? ==> forall r :: r in rows ==>
      |WithKey(rows, ProvinceCountKey, ProvinceCountKey(r))| <= top.value.value
  {
    var es := CountBy(rows, ProvinceCountKey);
    var sorted := SortDesc(es, EntryWeight);
    SumOfPositive(es, ValueOf);
    if |sorted| == 0 then None
    else
      TopIsMaximal(rows, es, sorted);
      Some(sorted[0])
  }

  lemma TopIsMaximal(rows: seq<Row>, es: seq<Entry>, sorted: seq<Entry>)
    requires es == CountBy(rows, ProvinceCountKey)
    requires sorted == SortDesc(es, EntryWeight) && |sorted| > 0
    ensures sorted[0].value == |WithKey(rows, ProvinceCountKey, sorted[0].name)|
    ensures exists r :: r in rows && ProvinceCountKey(r) == sorted[0].name
    ensures forall r :: r in rows ==>
      |WithKey(rows, ProvinceCountKey, ProvinceCountKey(r))| <= sorted[0].value
  {
    var top := sorted[0];
    assert top in multiset(es);
    var w := WithKey(rows, ProvinceCountKey, top.name);
    assert w[0] in w;
    forall r | r in rows
      ensures |WithKey(rows, ProvinceCountKey, ProvinceCountKey(r))| <= top.value
    {
      var e := Entry(ProvinceCountKey(r), |WithKey(rows, ProvinceCountKey, ProvinceCountKey(r))|);
      assert e in multiset(sorted);
      var j :| 0 <= j < |sorted| && sorted[j] == e;
      assert EntryWeight(sorted[0]) >= EntryWeight(sorted[j]);
    }
  }

  /** The KPI cards. */
  datatype Kpis = Kpis(
    leads: nat,
    quotes: nat,
    offers: nat,
    sales: nat,
    visits: nat,
    totalLeads: nat,
    totalQuotes: nat,
    totalOffers: nat,
    leadToQuote: real,
    quoteToOffer: real,
    offerToSale: real,
    topProvince: string)

  /** The KPIs of a list of rows. The cumulative totals count every row
      that reached a stage or a later one. */
  function ComputeKpis(rows: seq<Row>): (k: Kpis)
    ensures k.leads == Count(rows, StageTest(Lead)) <= |rows|
    ensures k.quotes == Count(rows, StageTest(Quote)) <= |rows|
    ensures k.offers == Count(rows, StageTest(Offer)) <= |rows|
    ensures k.sales == Count(rows, StageTest(Sale)) <= |rows|
    ensures k.visits == Count(rows, IsVisit) <= |rows|
    ensures k.totalOffers == k.offers + k.sales
    ensures k.totalQuotes == k.quotes + k.totalOffers
    ensures k.totalLeads == k.leads + k.totalQuotes
    ensures RateOf(k.leadToQuote, k.totalQuotes, k.totalLeads)
    ensures RateOf(k.quoteToOffer, k.totalOffers, k.totalQuotes)
    ensures RateOf(k.offerToSale, k.sales, k.totalOffers)
    ensures |rows| == 0 ==> k.topProvince == "N/A"
    ensures |rows| > 0 ==> exists r :: r in rows && ProvinceCountKey(r) == k.topProvince
    ensures |rows| > 0 ==> forall r :: r in rows ==>
      |WithKey(rows, ProvinceCountKey, ProvinceCountKey(r))| <= |WithKey(rows, ProvinceCountKey, k.topProvince)|
  {
    var leads := Count(rows, StageTest(Lead));
    var quotes := Count(rows, StageTest(Quote));
    var offers := Count(rows, StageTest(Offer));
    var sales := Count(rows, StageTest(Sale));
    var totalOffers := offers + sales;
    var totalQuotes := quotes + totalOffers;
    var totalLeads := leads + totalQuotes;
    var top := TopProvinceEntry(rows);
    Kpis(
      leads, quotes, offers, sales, Count(rows, IsVisit),
      totalLeads, totalQuotes, totalOffers,
      Rate(totalQuotes, totalLeads), Rate(totalOffers, totalQuotes), Rate(sales, totalOffers),
      if top.None? then "N/A" else top.value.name)
  }

  /** The cumulative totals form a non-increasing chain. */
  lemma FunnelChain(rows: seq<Row>)
    ensures var k := ComputeKpis(rows);
      k.totalLeads >= k.totalQuotes >= k.totalOffers >= k.sales >= 0
  {
    var k := ComputeKpis(rows);
    assert k.totalOffers == k.offers + k.sales;
  }

  /** A row is counted once per stage it mentions, so the cumulative lead
      total is at most four times the number of rows (and can exceed it). */
  lemma TotalLeadsBound(rows: seq<Row>)
    ensures ComputeKpis(rows).totalLeads <= 4 * |rows|
  {
  }
}
