/** Lead rows as read from the CSV and as cleaned on upload: the three field
    normalisers (agent, platform, province) and the per-row cleaning map
    applied to every parsed row. */
module Rows {
  import opened Text

  /** A CSV cell as the parser hands it over: a string, or `undefined` when
      the column is missing from the row. */
  datatype Option<T> = None | Some(value: T)

  /** JavaScript truthiness of a string-or-undefined: present and non-empty. */
  predicate Truthy(o: Option<string>) {
    o.Some? && o.value != ""
  }

  /** The columns of a lead row the dashboard reads, straight from the CSV:
      AGENTE, platform, Provincia Detectada, Tipo de Evento, fecha, VISITAS. */
  datatype RawRow = RawRow(
    agent: Option<string>,
    platform: Option<string>,
    province: Option<string>,
    eventType: Option<string>,
    date: Option<string>,
    visit: Option<string>)

  /** A cleaned lead row. Event type and date may still be missing. */
  datatype Row = Row(
    agent: string,
    platform: string,
    province: string,
    eventType: Option<string>,
    date: Option<string>,
    visit: string)

  /** The platform labels a cleaned row can carry. */
  const Channels: set<string> := {"WhatsApp", "Instagram", "Facebook", "Otro"}

  /** The label a missing province is given. */
  const NoProvince := "Sin Datos"

  // ---------------------------------------------------------------------
  // Agent normalisation

  /** First character upper-cased, the rest lower-cased. */
  function Capitalize(t: string): (r: string)
    ensures |r| == |t|
    ensures forall i :: 0 <= i < |t| ==> r[i] == (if i == 0 then ToUpper(t[0]) else ToLower(t[i]))
  {
    if |t| == 0 then "" else [ToUpper(t[0])] + Lower(t[1..])
  }

  /** No lower-case first letter and no upper-case letter after it: the
      shape Capitalize produces. */
  predicate Capitalized(t: string) {
    && (|t| > 0 ==> !IsLowerAscii(t[0]))
    && forall i :: 1 <= i < |t| ==> !IsUpperAscii(t[i])
  }

  /** The agent named by a trimmed code. */
  function AgentOfCode(t: string): string {
    if Upper(t) == "PM" then "Paola"
    else if Upper(t) == "IC" then "Irina"
    else Capitalize(t)
  }

  /** Agent codes: missing or empty gives the empty string; the codes PM and
      IC (any case, surrounding spaces ignored) name Paola and Irina; any
      other name is trimmed and capitalised. */
  function NormalizeAgent(agent: Option<string>): (r: string)
    ensures !Truthy(agent) ==> r == ""
    ensures Truthy(agent) && Upper(Trim(agent.value)) == "PM" ==> r == "Paola"
    ensures Truthy(agent) && Upper(Trim(agent.value)) == "IC" ==> r == "Irina"
    ensures Truthy(agent) && Upper(Trim(agent.value)) !in {"PM", "IC"} ==>
      var t := Trim(agent.value);
      |r| == |t| && forall i :: 0 <= i < |t| ==> r[i] == (if i == 0 then ToUpper(t[0]) else ToLower(t[i]))
  {
    if !Truthy(agent) then "" else AgentOfCode(Trim(agent.value))
  }

  // ---------------------------------------------------------------------
  // Platform normalisation

  /** The channel named by a lower-cased, trimmed platform label. */
  function ChannelOfKey(key: string): (r: string)
    ensures r in Channels
    ensures r == "WhatsApp" <==> key in {"wp", "whatsapp"}
    ensures r == "Instagram" <==> key in {"ig", "instagram"}
    ensures r == "Facebook" <==> key in {"facebook", "fb"}
  {
    if key == "wp" || key == "whatsapp" then "WhatsApp"
    else if key == "ig" || key == "instagram" then "Instagram"
    else if key == "facebook" || key == "fb" then "Facebook"
    else "Otro"
  }

  /** Platform labels: the aliases wp/whatsapp, ig/instagram and fb/facebook
      (any case, surrounding spaces ignored) name the three channels;
      anything else, missing or empty included, is Otro. */
  function NormalizePlatform(platform: Option<string>): (r: string)
    ensures r in Channels
    ensures r == "WhatsApp" <==> platform.Some? && Trim(Lower(platform.value)) in {"wp", "whatsapp"}
    ensures r == "Instagram" <==> platform.Some? && Trim(Lower(platform.value)) in {"ig", "instagram"}
    ensures r == "Facebook" <==> platform.Some? && Trim(Lower(platform.value)) in {"facebook", "fb"}
  {
    if !Truthy(platform) then
      assert platform.Some? ==> |Trim(Lower(platform.value))| == 0;
      "Otro"
    else ChannelOfKey(Trim(Lower(platform.value)))
  }

  // ---------------------------------------------------------------------
  // Province normalisation

  /** Province labels as the upload handler writes them: missing or empty
      gives Sin Datos, anything else is trimmed. The emptiness test comes
      before the trim, so a province of spaces only becomes the empty
      string. */
  function NormalizeProvinceAsWritten(province: Option<string>): (r: string)
    ensures !Truthy(province) ==> r == NoProvince
    ensures Truthy(province) ==> r == Trim(province.value)
  {
    if !Truthy(province) then NoProvince else Trim(province.value)
  }

  /** Province labels with the emptiness test after the trim: never empty,
      never padded, and equal to the as-written label except on a province of
      spaces only, which becomes Sin Datos. */
  function NormalizeProvince(province: Option<string>): (r: string)
    ensures r != "" && Trimmed(r)
    ensures province.Some? && Trim(province.value) != "" ==> r == NormalizeProvinceAsWritten(province)
    ensures !(province.Some? && Trim(province.value) != "") ==> r == NoProvince
  {
    var t := if province.Some? then Trim(province.value) else "";
    if t == "" then NoProvince else t
  }

  // ---------------------------------------------------------------------
  // Row cleaning

  /** The trim-and-default used for VISITAS: missing gives the empty string. */
  function TrimOr(o: Option<string>): string {
    if o.Some? then Trim(o.value) else ""
  }

  /** The optional trim used for Tipo de Evento and fecha. */
  function TrimOpt(o: Option<string>): Option<string> {
    if o.Some? then Some(Trim(o.value)) else None
  }

  /** What every cleaned row satisfies. */
  predicate Normalized(row: Row) {
    && row.platform in Channels
    && row.province != "" && Trimmed(row.province)
    && Trimmed(row.agent)
    && (row.eventType.Some? ==> Trimmed(row.eventType.value))
    && (row.date.Some? ==> Trimmed(row.date.value))
    && Trimmed(row.visit)
  }

  /** The per-row map applied to the parsed CSV rows, with the corrected
      province normaliser: it differs from CleanAsWritten only on a province
      of whitespace only (see AsWrittenCleanAgrees). */
  function Clean(raw: RawRow): (row: Row)
    ensures row.agent == NormalizeAgent(raw.agent)
    ensures row.platform == NormalizePlatform(raw.platform)
    ensures row.province == NormalizeProvince(raw.province)
    ensures row.eventType == TrimOpt(raw.eventType)
    ensures row.date == TrimOpt(raw.date)
    ensures row.visit == (if raw.visit.Some? then Trim(raw.visit.value) else "")
    ensures Normalized(row)
    ensures row.eventType.Some? <==> raw.eventType.Some?
    ensures row.date.Some? <==> raw.date.Some?
  {
    AgentTrimmed(raw.agent);
    Row(
      NormalizeAgent(raw.agent),
      NormalizePlatform(raw.platform),
      NormalizeProvince(raw.province),
      TrimOpt(raw.eventType),
      TrimOpt(raw.date),
      TrimOr(raw.visit))
  }

  /** A province cell that is present and non-empty but blank once
      trimmed: the one input on which the two province normalisers differ. */
  predicate BlankProvince(province: Option<string>) {
    province.Some? && province.value != "" && Trim(province.value) == ""
  }

  /** The per-row map as the upload handler writes it, with the as-written
      province normaliser. Every field but the province is cleaned as by
      Clean, and the province is trimmed. */
  function CleanAsWritten(raw: RawRow): (row: Row)
    ensures row.province == NormalizeProvinceAsWritten(raw.province)
    ensures Trimmed(row.province)
    ensures row.(province := NormalizeProvince(raw.province)) == Clean(raw)
  {
    Row(
      NormalizeAgent(raw.agent),
      NormalizePlatform(raw.platform),
      NormalizeProvinceAsWritten(raw.province),
      TrimOpt(raw.eventType),
      TrimOpt(raw.date),
      TrimOr(raw.visit))
  }

  /** The as-written and the corrected cleaning agree exactly when the
      province is not blank; on a blank province the as-written map leaves
      the empty string where the corrected one gives Sin Datos. */
  lemma AsWrittenCleanAgrees(raw: RawRow)
    ensures CleanAsWritten(raw) == Clean(raw) <==> !BlankProvince(raw.province)
    ensures BlankProvince(raw.province) ==>
      CleanAsWritten(raw).province == "" && Clean(raw).province == NoProvince
  {
  }

  /** The cleaned rows, one per parsed row, in order. */
  function CleanRows(raws: seq<RawRow>): (rows: seq<Row>)
    ensures |rows| == |raws|
    ensures forall i :: 0 <= i < |raws| ==> rows[i] == Clean(raws[i])
    ensures forall r :: r in rows ==> Normalized(r)
  {
    seq(|raws|, i requires 0 <= i < |raws| => Clean(raws[i]))
  }

  /** A cleaned row read back as raw CSV cells. */
  function AsRaw(row: Row): RawRow {
    RawRow(Some(row.agent), Some(row.platform), Some(row.province), row.eventType, row.date, Some(row.visit))
  }

  // ---------------------------------------------------------------------
  // Agent lemmas

  lemma CapitalizeFixed(t: string)
    requires Capitalized(t)
    ensures Capitalize(t) == t
  {
    forall i | 0 <= i < |t| ensures Capitalize(t)[i] == t[i] {
      if i > 0 {
        assert !IsUpperAscii(t[i]);
      }
    }
  }

  lemma CapitalizeShape(t: string)
    ensures Capitalized(Capitalize(t))
    ensures Upper(Capitalize(t)) == Upper(t)
    ensures Capitalize(Lower(t)) == Capitalize(t)
  {
    var c := Capitalize(t);
    forall i | 0 <= i < |t|
      ensures Upper(c)[i] == Upper(t)[i] && Capitalize(Lower(t))[i] == c[i]
    {
      CaseFacts(t[i]);
    }
  }

  /** A capitalised name with no surrounding whitespace keeps none. */
  lemma CapitalizeTrimmed(t: string)
    requires Trimmed(t)
    ensures Trimmed(Capitalize(t))
  {
    if |t| > 0 {
      CaseFacts(t[0]);
      CaseFacts(t[|t| - 1]);
    }
  }

  /** The empty string needs no special case: it names the empty agent. */
  lemma AgentViaCode(s: string)
    ensures NormalizeAgent(Some(s)) == AgentOfCode(Trim(s))
  {
    if s == "" {
      assert |Trim(s)| == 0 && |Upper(Trim(s))| == 0;
    }
  }

  /** Every agent label is trimmed. */
  lemma AgentTrimmed(agent: Option<string>)
    ensures Trimmed(NormalizeAgent(agent))
  {
    if Truthy(agent) {
      CapitalizeTrimmed(Trim(agent.value));
    }
  }

  lemma PaolaFixed()
    ensures NormalizeAgent(Some("Paola")) == "Paola"
  {
    TrimFixedPoint("Paola");
    CapitalizeFixed("Paola");
  }

  lemma IrinaFixed()
    ensures NormalizeAgent(Some("Irina")) == "Irina"
  {
    TrimFixedPoint("Irina");
    CapitalizeFixed("Irina");
  }

  /** A capitalised other name survives a second pass. */
  lemma CapitalizedFixed(t: string)
    requires Trimmed(t) && Upper(t) !in {"PM", "IC"}
    ensures NormalizeAgent(Some(Capitalize(t))) == Capitalize(t)
  {
    var r := Capitalize(t);
    CapitalizeTrimmed(t);
    TrimFixedPoint(r);
    CapitalizeShape(t);
    CapitalizeFixed(r);
    AgentViaCode(r);
  }

  /** Normalising an already normalised agent name changes nothing. */
  lemma AgentIdempotent(agent: Option<string>)
    ensures NormalizeAgent(Some(NormalizeAgent(agent))) == NormalizeAgent(agent)
  {
    if Truthy(agent) {
      var t := Trim(agent.value);
      if Upper(t) == "PM" {
        PaolaFixed();
      } else if Upper(t) == "IC" {
        IrinaFixed();
      } else {
        CapitalizedFixed(t);
      }
    }
  }

  /** Agent normalisation only looks at the lower-cased input. */
  lemma AgentIgnoresCase(a: string, b: string)
    requires Lower(a) == Lower(b)
    ensures NormalizeAgent(Some(a)) == NormalizeAgent(Some(b))
  {
    AgentLowerInvariant(a);
    AgentLowerInvariant(b);
  }

  lemma AgentLowerInvariant(s: string)
    ensures NormalizeAgent(Some(Lower(s))) == NormalizeAgent(Some(s))
  {
    var t := Trim(s);
    TrimLowerCommute(s);
    LowerIdempotent(t);
    CapitalizeShape(t);
    assert AgentOfCode(Lower(t)) == AgentOfCode(t);
    AgentViaCode(s);
    AgentViaCode(Lower(s));
  }

  /** Agent normalisation ignores surrounding whitespace. */
  lemma AgentIgnoresSurroundingSpace(s: string)
    ensures NormalizeAgent(Some(Trim(s))) == NormalizeAgent(Some(s))
  {
    TrimIdempotent(s);
    AgentViaCode(s);
    AgentViaCode(Trim(s));
  }

  // ---------------------------------------------------------------------
  // Platform lemmas

  /** The empty label needs no special case: its key names no channel. */
  lemma PlatformViaKey(s: string)
    ensures NormalizePlatform(Some(s)) == ChannelOfKey(Trim(Lower(s)))
  {
    if s == "" {
      assert |Trim(Lower(s))| == 0;
    }
  }

  /** Each channel label is looked up under one of its own aliases. The
      label is a parameter pinned by `requires` rather than a literal in the
      statement so that each proof unfolds the case mapping and the trim of
      one string only; ChannelsFixed gathers the four cases. */
  lemma WhatsAppFixed(c: string)
    requires c == "WhatsApp"
    ensures NormalizePlatform(Some(c)) == c
  {
    assert Lower(c) == "whatsapp";
    TrimFixedPoint("whatsapp");
    PlatformViaKey(c);
  }

  lemma InstagramFixed(c: string)
    requires c == "Instagram"
    ensures NormalizePlatform(Some(c)) == c
  {
    assert Lower(c) == "instagram";
    TrimFixedPoint("instagram");
    PlatformViaKey(c);
  }

  lemma FacebookFixed(c: string)
    requires c == "Facebook"
    ensures NormalizePlatform(Some(c)) == c
  {
    assert Lower(c) == "facebook";
    TrimFixedPoint("facebook");
    PlatformViaKey(c);
  }

  lemma OtroKey(c: string)
    requires c == "Otro"
    ensures Trim(Lower(c)) == "otro"
  {
    assert Lower(c) == "otro";
    TrimFixedPoint("otro");
  }

  lemma OtroChannel(k: string)
    requires k == "otro"
    ensures ChannelOfKey(k) == "Otro"
  {
  }

  lemma OtroFixed(c: string)
    requires c == "Otro"
    ensures NormalizePlatform(Some(c)) == c
  {
    OtroKey(c);
    OtroChannel(Trim(Lower(c)));
    PlatformViaKey(c);
  }

  /** Every channel label normalises to itself. */
  lemma ChannelsFixed(c: string)
    requires c in Channels
    ensures NormalizePlatform(Some(c)) == c
  {
    if c == "WhatsApp" {
      WhatsAppFixed(c);
    } else if c == "Instagram" {
      InstagramFixed(c);
    } else if c == "Facebook" {
      FacebookFixed(c);
    } else {
      OtroFixed(c);
    }
  }

  /** Normalising an already normalised platform label changes nothing. */
  lemma PlatformIdempotent(platform: Option<string>)
    ensures NormalizePlatform(Some(NormalizePlatform(platform))) == NormalizePlatform(platform)
  {
    ChannelsFixed(NormalizePlatform(platform));
  }

  /** Platform normalisation only looks at the lower-cased input. */
  lemma PlatformIgnoresCase(a: string, b: string)
    requires Lower(a) == Lower(b)
    ensures NormalizePlatform(Some(a)) == NormalizePlatform(Some(b))
  {
    PlatformViaKey(a);
    PlatformViaKey(b);
  }

  /** Platform normalisation ignores surrounding whitespace. */
  lemma PlatformIgnoresSurroundingSpace(s: string)
    ensures NormalizePlatform(Some(Trim(s))) == NormalizePlatform(Some(s))
  {
    TrimLowerCommute(s);
    TrimIdempotent(Lower(s));
    assert Trim(Lower(Trim(s))) == Trim(Lower(s));
    PlatformViaKey(s);
    PlatformViaKey(Trim(s));
  }

  // ---------------------------------------------------------------------
  // Province lemmas

  /** Normalising an already normalised province label changes nothing. */
  lemma ProvinceIdempotent(province: Option<string>)
    ensures NormalizeProvince(Some(NormalizeProvince(province))) == NormalizeProvince(province)
  {
    var r := NormalizeProvince(province);
    TrimFixedPoint(r);
  }

  /** The as-written province normaliser is not idempotent and can produce
      the empty string: a province of one space becomes "", which a second
      pass turns into Sin Datos. */
  lemma ProvinceBlankAsWritten()
    ensures NormalizeProvinceAsWritten(Some(" ")) == ""
    ensures NormalizeProvinceAsWritten(Some(NormalizeProvinceAsWritten(Some(" ")))) == NoProvince
    ensures NormalizeProvince(Some(" ")) == NoProvince
  {
    assert IsSpace(" "[0]) && " "[1..] == "";
    assert LeadingSpaces(" ") == 1;
    assert Trim(" ") == "";
  }

  // ---------------------------------------------------------------------
  // Row lemmas

  /** Cleaning a cleaned row again gives the same row. */
  lemma CleanIdempotent(raw: RawRow)
    ensures Clean(AsRaw(Clean(raw))) == Clean(raw)
  {
    AgentIdempotent(raw.agent);
    PlatformIdempotent(raw.platform);
    ProvinceIdempotent(raw.province);
    if raw.eventType.Some? {
      TrimIdempotent(raw.eventType.value);
    }
    if raw.date.Some? {
      TrimIdempotent(raw.date.value);
    }
    if raw.visit.Some? {
      TrimIdempotent(raw.visit.value);
    } else {
      TrimFixedPoint("");
    }
  }
}
