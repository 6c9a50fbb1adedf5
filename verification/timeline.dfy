/** The month charts: contacts per month, and contacts per month and social
    network with a closing TOTAL row. A row belongs to the month written
    after the first '/' of its `fecha` (day/month/year), when the date has
    exactly three '/'-separated parts. */
module Timeline {
  import opened Text
  import opened Seqs
  import opened Grouping
  import opened Rows

  const DateSep := '/'

  /** `m` is what follows the first separator of `d`, and holds a separator
      of its own: `d` reads day/m with no separator in the day. */
  predicate AfterFirstSep(d: string, m: string) {
    && |m| < |d|
    && d[|d| - |m| - 1] == DateSep
    && DateSep !in d[..|d| - |m| - 1]
    && d[|d| - |m|..] == m
    && DateSep in m
  }

  /** The month label of a row: the second and third '/'-separated parts of
      its date joined by '/', when the date is present, non-empty and has
      exactly three parts (src/App.jsx:299-302). */
  function MonthOf(r: Row): (m: Option<string>)
    ensures m.Some? <==> r.date.Some? && Occurrences(r.date.value, DateSep) == 2
    ensures m.Some? ==> AfterFirstSep(r.date.value, m.value)
  {
    if Truthy(r.date) then
      var parts := Split(r.date.value, DateSep);
      if |parts| == 3 then
        MonthIsTail(r.date.value, parts);
        Some(parts[1] + [DateSep] + parts[2])
      else None
    else None
  }

  /** A date of three parts is its first part, a separator and the month. */
  lemma MonthIsTail(d: string, parts: seq<string>)
    requires parts == Split(d, DateSep) && |parts| == 3
    ensures AfterFirstSep(d, parts[1] + [DateSep] + parts[2])
  {
    var m := parts[1] + [DateSep] + parts[2];
    assert Join(parts[1..], DateSep) == m by {
      assert parts[1..][1..] == [parts[2]];
    }
    assert d == parts[0] + [DateSep] + m;
    assert d[..|d| - |m| - 1] == parts[0];
    assert m[|parts[1]|] == DateSep;
  }

  /** The rows counted by the month charts. */
  predicate Dated(r: Row) {
    MonthOf(r).Some?
  }

  /** The month of a dated row. */
  function MonthKey(r: Row): string {
    if MonthOf(r).Some? then MonthOf(r).value else ""
  }

  /** The contacts-per-month chart: one entry per month with dated rows,
      holding the number of them; the entries add up to the dated rows. */
  function MonthlyTrend(rows: seq<Row>): (es: seq<Entry>)
    ensures forall i, j :: 0 <= i < j < |es| ==> es[i].name != es[j].name
    ensures forall e :: e in es ==> e.value > 0 && e.value == |WithKey(Filter(rows, Dated), MonthKey, e.name)|
    ensures forall r :: r in rows && Dated(r) ==> exists e :: e in es && e.name == MonthKey(r)
    ensures forall e :: e in es ==> DateSep in e.name
    ensures SumOf(es, ValueOf) == Count(rows, Dated)
  {
    var dated := Filter(rows, Dated);
    var es := CountBy(dated, MonthKey);
    forall e | e in es ensures DateSep in e.name {
      var w := WithKey(dated, MonthKey, e.name);
      assert w[0] in w;
    }
    es
  }

  // ---------------------------------------------------------------------
  // Contacts per month and social network

  /** The four columns of the social chart. */
  datatype Channel = Instagram | Facebook | WhatsApp | Other

  function Label(c: Channel): string {
    match c
    case Instagram => "Instagram"
    case Facebook => "Facebook"
    case WhatsApp => "WhatsApp"
    case Other => "Otro"
  }

  /** The platform a row is counted under: its platform label, or Otro
      when the label is empty (src/App.jsx:332, 388). */
  function PlatformLabel(r: Row): string {
    if r.platform == "" then "Otro" else r.platform
  }

  function OnChannel(c: Channel): Row -> bool {
    r => PlatformLabel(r) == Label(c)
  }

  /** One line of the social chart. */
  datatype MonthMix = MonthMix(name: string, instagram: nat, facebook: nat, whatsapp: nat, other: nat)

  function ChannelColumn(c: Channel): MonthMix -> nat {
    (m: MonthMix) => match c
      case Instagram => m.instagram
      case Facebook => m.facebook
      case WhatsApp => m.whatsapp
      case Other => m.other
  }

  /** The channel counts of some rows, under a name. */
  function MixOf(name: string, rows: seq<Row>): MonthMix {
    MonthMix(
      name,
      Count(rows, OnChannel(Instagram)),
      Count(rows, OnChannel(Facebook)),
      Count(rows, OnChannel(WhatsApp)),
      Count(rows, OnChannel(Other)))
  }

  function MixOfGroup(g: Group<Row>): MonthMix {
    MixOf(g.key, g.items)
  }

  const TotalName := "TOTAL"

  /** `m` holds, per channel, the count of the rows `w`, which are not
      none. */
  predicate ChannelCounts(w: seq<Row>, m: MonthMix) {
    && |w| > 0
    && m.instagram == Count(w, OnChannel(Instagram))
    && m.facebook == Count(w, OnChannel(Facebook))
    && m.whatsapp == Count(w, OnChannel(WhatsApp))
    && m.other == Count(w, OnChannel(Other))
  }

  /** The per-month lines of the social chart, in order of first
      appearance. */
  function MonthMixes(rows: seq<Row>): (ms: seq<MonthMix>)
    ensures forall i, j :: 0 <= i < j < |ms| ==> ms[i].name != ms[j].name
    ensures forall i :: 0 <= i < |ms| ==> DateSep in ms[i].name
    ensures forall i :: 0 <= i < |ms| ==>
      ChannelCounts(WithKey(Filter(rows, Dated), MonthKey, ms[i].name), ms[i])
    ensures forall r :: r in rows && Dated(r) ==> exists i :: 0 <= i < |ms| && ms[i].name == MonthKey(r)
  {
    var dated := Filter(rows, Dated);
    var gs := GroupBy(dated, MonthKey);
    var ms := MapGroups(gs, MixOfGroup);
    MonthMixFacts(dated, gs, ms);
    ms
  }

  lemma MonthMixFacts(dated: seq<Row>, gs: seq<Group<Row>>, ms: seq<MonthMix>)
    requires forall r :: r in dated ==> Dated(r)
    requires gs == GroupBy(dated, MonthKey) && ms == MapGroups(gs, MixOfGroup)
    ensures forall i :: 0 <= i < |ms| ==> DateSep in ms[i].name
    ensures forall r :: r in dated ==> exists i :: 0 <= i < |ms| && ms[i].name == MonthKey(r)
  {
    forall i | 0 <= i < |ms| ensures DateSep in ms[i].name {
      assert gs[i].items[0] in gs[i].items;
    }
    forall r | r in dated ensures exists i :: 0 <= i < |ms| && ms[i].name == MonthKey(r) {
      var i :| 0 <= i < |gs| && gs[i].key == MonthKey(r);
      assert ms[i].name == MonthKey(r);
    }
  }

  /** The social chart: the month lines, then a TOTAL line whose columns
      count the dated rows of each channel. No month is called TOTAL. */
  function SocialByMonth(rows: seq<Row>): (table: seq<MonthMix>)
    ensures |table| > 0 && table[..|table| - 1] == MonthMixes(rows)
    ensures forall i :: 0 <= i < |table| - 1 ==> table[i].name != TotalName
    ensures table[|table| - 1] == MixOf(TotalName, Filter(rows, Dated))
  {
    var ms := MonthMixes(rows);
    assert DateSep !in TotalName;
    ms + [MixOf(TotalName, Filter(rows, Dated))]
  }

  /** Each column of the TOTAL line is the sum of that column over the
      month lines, and the count of that channel among the dated rows. */
  lemma TotalIsColumnSum(rows: seq<Row>, c: Channel)
    ensures var table := SocialByMonth(rows);
      && ChannelColumn(c)(table[|table| - 1]) == SumOf(table[..|table| - 1], ChannelColumn(c))
      && ChannelColumn(c)(table[|table| - 1]) == Count(rows, Both(Dated, OnChannel(c)))
  {
    var dated := Filter(rows, Dated);
    var gs := GroupBy(dated, MonthKey);
    GroupSums(dated, MonthKey, OnChannel(c));
    SumOfMapGroups(gs, MixOfGroup, ChannelColumn(c), OnChannel(c));
    FilterCompose(rows, Dated, OnChannel(c));
  }

  /** For rows whose platform is one of the four channels, as every
      cleaned row's is, every dated row falls in exactly one of the four
      channels, so the TOTAL line adds up to the dated rows. */
  lemma TotalCoversDated(rows: seq<Row>)
    requires forall r :: r in rows ==> r.platform in Channels
    ensures var t := SocialByMonth(rows)[|SocialByMonth(rows)| - 1];
      t.instagram + t.facebook + t.whatsapp + t.other == Count(rows, Dated)
  {
    var dated := Filter(rows, Dated);
    forall r | r in dated ensures PlatformLabel(r) in Channels {
    }
    FourWay(dated);
  }

  /** Rows whose label is one of the four channels split into the four
      channel counts. */
  lemma FourWay(xs: seq<Row>)
    requires forall r :: r in xs ==> PlatformLabel(r) in Channels
    ensures |xs| == Count(xs, OnChannel(Instagram)) + Count(xs, OnChannel(Facebook))
                   + Count(xs, OnChannel(WhatsApp)) + Count(xs, OnChannel(Other))
  {
    ChannelLabels(Label(Instagram), Label(Facebook), Label(WhatsApp), Label(Other));
    var all := (r: Row) => PlatformLabel(r) in Channels;
    var meta := (r: Row) => PlatformLabel(r) == Label(Instagram) || PlatformLabel(r) == Label(Facebook);
    var chat := (r: Row) => PlatformLabel(r) == Label(WhatsApp) || PlatformLabel(r) == Label(Other);
    FilterKeepsAll(xs, all);
    CountSplit(xs, all, meta, chat);
    CountSplit(xs, meta, OnChannel(Instagram), OnChannel(Facebook));
    CountSplit(xs, chat, OnChannel(WhatsApp), OnChannel(Other));
  }

  /** The channel labels are the four platform labels, all different. The
      labels are parameters pinned by `requires` so that FourWay reasons
      about four named strings rather than unfolding the literals. */
  lemma ChannelLabels(i: string, f: string, w: string, o: string)
    requires i == Label(Instagram) && f == Label(Facebook) && w == Label(WhatsApp) && o == Label(Other)
    ensures Channels == {i, f, w, o}
    ensures i != f && i != w && i != o && f != w && f != o && w != o
  {
  }
}
