/** The CSV ad-launch ingestion pipeline: header normalisation, per-row parsing with
    defaults and coercions, row validation, and the aggregate validation report.
    The input is the sequence of records the CSV reader produced; tokenising is not
    part of this module. */
module CsvParser {
  import opened Wrappers
  import opened Sequences
  import opened Strings

  // ---------------------------------------------------------------------------
  // Data model
  // ---------------------------------------------------------------------------

  /** One entry of a raw record: a column header and its cell, `None` when the
      reader supplied no value for that header. */
  datatype RawEntry = RawEntry(header: string, cell: Option<string>)

  /** A raw record as its entries are enumerated, in order. */
  type RawRecord = seq<RawEntry>

  /** A record after normalisation: canonical field name to trimmed value. */
  type NormalizedRow = map<string, string>

  datatype RowType = Single | Carousel

  /** One slide of a carousel ad; a field is `None` when its column is absent. */
  datatype CarouselCard = CarouselCard(
    mediaUrl: Option<string>,
    portraitMediaUrl: Option<string>,
    title: Option<string>,
    description: Option<string>,
    link: Option<string>)

  /** The parsed and validated intent for one ad. */
  datatype AdRow = AdRow(
    rowIndex: nat,
    rowType: RowType,
    customName: Option<string>,
    primaryTextVariations: seq<string>,
    headlineVariations: seq<string>,
    adDescription: Option<string>,
    link: Option<string>,
    displayLink: Option<string>,
    utmParameters: Option<string>,
    callToAction: string,
    partnershipCode: Option<string>,
    launchPaused: bool,
    videoUrls: seq<string>,
    adSetIds: seq<string>,
    carouselCards: seq<CarouselCard>,
    isValid: bool,
    errors: seq<string>,
    warnings: seq<string>)

  /** The aggregate over a batch of parsed rows. */
  datatype ValidationReport = ValidationReport(
    valid: seq<AdRow>,
    invalid: seq<AdRow>,
    totalErrors: nat,
    totalWarnings: nat)

  const VariationSlots: nat := 5
  const CarouselSlots: nat := 10
  const DefaultCallToAction := "LEARN_MORE"

  const MissingPrimaryText := "Missing primary text"
  const MissingHeadline := "Missing headline"
  const MissingLink := "Missing destination link"
  const MissingAdSetIds := "Missing ad set IDs"
  const TooFewCards := "Carousel needs at least 2 cards"
  /** The five error messages, in the order the checks push them. */
  const ErrorMessages: seq<string> := [MissingPrimaryText, MissingHeadline, MissingLink, MissingAdSetIds, TooFewCards]
  const NoMediaWarning := "No video/image URL specified - will need to select media"

  /** The fixed translation from human-readable headers to canonical field names. */
  const ColumnMapping: map<string, string> := map[
    "Row Type" := "rowType",
    "Custom Name" := "customName",
    "Primary Text Variation 1" := "primaryText1",
    "Primary Text Variation 2" := "primaryText2",
    "Primary Text Variation 3" := "primaryText3",
    "Primary Text Variation 4" := "primaryText4",
    "Primary Text Variation 5" := "primaryText5",
    "Headline Variation 1" := "headline1",
    "Headline Variation 2" := "headline2",
    "Headline Variation 3" := "headline3",
    "Headline Variation 4" := "headline4",
    "Headline Variation 5" := "headline5",
    "Ad Description" := "adDescription",
    "Link" := "link",
    "Display Link" := "displayLink",
    "UTM Parameters" := "utmParameters",
    "CTA" := "callToAction",
    "Partnership Code" := "partnershipCode",
    "Launch Paused" := "launchPaused",
    "Video URLs" := "videoUrls",
    "Ad Set IDs" := "adSetIds"
  ]

  // ---------------------------------------------------------------------------
  // Column normaliser
  // ---------------------------------------------------------------------------

  /** The key a header is stored under: its canonical name when the table has one,
      the header itself otherwise. */
  function CanonicalKey(header: string): string
  {
    if header in ColumnMapping then ColumnMapping[header] else header
  }

  /** A cell's normalised value: trimmed, and "" when the cell is missing. */
  function CleanCell(cell: Option<string>): (v: string)
    ensures IsTrimmed(v)
    ensures cell.None? ==> v == ""
  {
    match cell
    case None => ""
    case Some(s) => Trim(s)
  }

  /** The normalised record: each entry, in order, writes its cleaned cell under its
      canonical key, so a later entry overwrites an earlier one with the same key. */
  function Normalized(record: RawRecord): NormalizedRow
  {
    if |record| == 0 then map[]
    else
      var e := record[|record| - 1];
      Normalized(record[..|record| - 1])[CanonicalKey(e.header) := CleanCell(e.cell)]
  }

  /** normalizeRow: writes every entry into a fresh dictionary. */
  method NormalizeRow(record: RawRecord) returns (normalized: NormalizedRow)
    ensures normalized == Normalized(record)
    ensures forall k :: k in normalized ==> IsTrimmed(normalized[k])
  {
    normalized := map[];
    var i := 0;
    while i < |record|
      invariant 0 <= i <= |record|
      invariant normalized == Normalized(record[..i])
      invariant forall k :: k in normalized ==> IsTrimmed(normalized[k])
    {
      var key, value := CanonicalKey(record[i].header), CleanCell(record[i].cell);
      NormalizedStep(record, i);
      normalized := normalized[key := value];
      i := i + 1;
    }
    assert record[..|record|] == record;
  }

  /** Writing one more entry extends the normalised prefix by one map update. */
  lemma NormalizedStep(record: RawRecord, i: nat)
    requires i < |record|
    ensures Normalized(record[..i + 1])
      == Normalized(record[..i])[CanonicalKey(record[i].header) := CleanCell(record[i].cell)]
  {
    assert record[..i + 1][..i] == record[..i];
  }

  // ---------------------------------------------------------------------------
  // Field extraction
  // ---------------------------------------------------------------------------

  /** `row[key]`: the value, or `None` (undefined) when the key is absent. */
  function Get(row: NormalizedRow, key: string): Option<string>
  {
    if key in row then Some(row[key]) else None
  }

  /** JavaScript truthiness of a possibly undefined string. */
  predicate Truthy(v: Option<string>)
  {
    v.Some? && v.value != ""
  }

  predicate NonEmpty(s: string)
  {
    s != ""
  }

  /** The text of variation slot `i` (e.g. `primaryText3`), "" when absent. */
  function SlotText(row: NormalizedRow, prefix: string, i: nat): string
  {
    var v := Get(row, prefix + NatToString(i));
    if v.Some? then v.value else ""
  }

  /** The texts of slots 1..n, in slot order. */
  function SlotTexts(row: NormalizedRow, prefix: string, n: nat): (s: seq<string>)
    ensures |s| == n
    ensures forall k :: 0 <= k < n ==> s[k] == SlotText(row, prefix, k + 1)
  {
    if n == 0 then [] else SlotTexts(row, prefix, n - 1) + [SlotText(row, prefix, n)]
  }

  /** The non-empty texts of slots 1..5 in ascending slot order. */
  function Variations(row: NormalizedRow, prefix: string): seq<string>
  {
    Filter(SlotTexts(row, prefix, VariationSlots), NonEmpty)
  }

  /** The header of a carousel column, e.g. "Carousel 3 Title". */
  function CarouselColumn(i: nat, attribute: string): string
  {
    "Carousel " + NatToString(i) + " " + attribute
  }

  /** The card slot `i` describes, whether or not it is filled. */
  function SlotCard(row: NormalizedRow, i: nat): CarouselCard
  {
    CarouselCard(
      Get(row, CarouselColumn(i, "Media URL")),
      Get(row, CarouselColumn(i, "Portrait Media URL")),
      Get(row, CarouselColumn(i, "Title")),
      Get(row, CarouselColumn(i, "Description")),
      Get(row, CarouselColumn(i, "Link")))
  }

  /** A card is kept when it has a media URL or a title. */
  predicate HasContent(c: CarouselCard)
  {
    Truthy(c.mediaUrl) || Truthy(c.title)
  }

  /** The cards of slots 1..n, in slot order. */
  function SlotCards(row: NormalizedRow, n: nat): (s: seq<CarouselCard>)
    ensures |s| == n
    ensures forall k :: 0 <= k < n ==> s[k] == SlotCard(row, k + 1)
  {
    if n == 0 then [] else SlotCards(row, n - 1) + [SlotCard(row, n)]
  }

  /** The cards of slots 1..10 that have content, in slot order. */
  function Cards(row: NormalizedRow): seq<CarouselCard>
  {
    Filter(SlotCards(row, CarouselSlots), HasContent)
  }

  /** Trims every piece. */
  function TrimAll(pieces: seq<string>): (r: seq<string>)
    ensures |r| == |pieces|
    ensures forall k :: 0 <= k < |r| ==> IsTrimmed(r[k]) && |r[k]| <= |pieces[k]|
  {
    seq(|pieces|, k requires 0 <= k < |pieces| => Trim(pieces[k]))
  }

  /** A comma-separated list field: the trimmed non-empty pieces in order, and
      nothing for a blank or absent field. */
  function SplitList(v: Option<string>): seq<string>
  {
    if Truthy(v) then Filter(TrimAll(Split(v.value, ',')), NonEmpty) else []
  }

  /** The row type: Carousel only for the exact value "Carousel". */
  function RowTypeOf(v: Option<string>): RowType
  {
    if v == Some("Carousel") then Carousel else Single
  }

  /** The call to action, "LEARN_MORE" when blank or absent. */
  function CallToActionOf(v: Option<string>): string
  {
    if Truthy(v) then v.value else DefaultCallToAction
  }

  /** Whether to launch paused: the lower-cased value is exactly "yes". */
  function LaunchPausedOf(v: Option<string>): bool
  {
    v.Some? && ToLowerAscii(v.value) == "yes"
  }

  // ---------------------------------------------------------------------------
  // Validation
  // ---------------------------------------------------------------------------

  /** The errors of a row, in the order they are appended. */
  function ErrorsOf(rowType: RowType, primaryTexts: seq<string>, headlines: seq<string>,
                    link: Option<string>, adSetIds: seq<string>, cards: seq<CarouselCard>): seq<string>
  {
    var e1 := if |primaryTexts| == 0 then [MissingPrimaryText] else [];
    var e2 := if |headlines| == 0 then e1 + [MissingHeadline] else e1;
    var e3 := if !Truthy(link) && rowType == Single then e2 + [MissingLink] else e2;
    var e4 := if |adSetIds| == 0 then e3 + [MissingAdSetIds] else e3;
    if rowType == Carousel && |cards| < 2 then e4 + [TooFewCards] else e4
  }

  /** The warnings of a row. */
  function WarningsOf(rowType: RowType, videoUrls: seq<string>): seq<string>
  {
    if rowType == Single && |videoUrls| == 0 then [NoMediaWarning] else []
  }

  /** The row parseRow produces from a normalised record at position `index`. */
  function ParsedRow(row: NormalizedRow, index: nat): AdRow
  {
    var rowType := RowTypeOf(Get(row, "rowType"));
    var primaryTexts := Variations(row, "primaryText");
    var headlines := Variations(row, "headline");
    var videoUrls := SplitList(Get(row, "videoUrls"));
    var adSetIds := SplitList(Get(row, "adSetIds"));
    var cards := Cards(row);
    var errors := ErrorsOf(rowType, primaryTexts, headlines, Get(row, "link"), adSetIds, cards);
    AdRow(
      index, rowType, Get(row, "customName"), primaryTexts, headlines,
      Get(row, "adDescription"), Get(row, "link"), Get(row, "displayLink"),
      Get(row, "utmParameters"), CallToActionOf(Get(row, "callToAction")),
      Get(row, "partnershipCode"), LaunchPausedOf(Get(row, "launchPaused")),
      videoUrls, adSetIds, cards,
      |errors| == 0, errors, WarningsOf(rowType, videoUrls))
  }

  /** The slot loop of parseRow for one variation group: pushes each non-empty slot
      text of slots 1..5, in order. */
  method CollectVariations(row: NormalizedRow, prefix: string) returns (texts: seq<string>)
    ensures texts == Variations(row, prefix)
  {
    texts := [];
    for i := 1 to VariationSlots + 1
      invariant texts == Filter(SlotTexts(row, prefix, i - 1), NonEmpty)
    {
      var text := Get(row, prefix + NatToString(i));
      if Truthy(text) {
        texts := texts + [text.value];
      }
    }
  }

  /** The carousel loop of parseRow: pushes the card of each slot 1..10 that has a
      media URL or a title, in order. */
  method CollectCards(row: NormalizedRow) returns (cards: seq<CarouselCard>)
    ensures cards == Cards(row)
  {
    cards := [];
    for i := 1 to CarouselSlots + 1
      invariant cards == Filter(SlotCards(row, i - 1), HasContent)
    {
      var mediaUrl := Get(row, CarouselColumn(i, "Media URL"));
      var portraitMediaUrl := Get(row, CarouselColumn(i, "Portrait Media URL"));
      var title := Get(row, CarouselColumn(i, "Title"));
      var description := Get(row, CarouselColumn(i, "Description"));
      var link := Get(row, CarouselColumn(i, "Link"));
      if Truthy(mediaUrl) || Truthy(title) {
        cards := cards + [CarouselCard(mediaUrl, portraitMediaUrl, title, description, link)];
      }
    }
  }

  /** The validation block of parseRow: pushes the errors and the warning in order. */
  method CheckRow(rowType: RowType, primaryTexts: seq<string>, headlines: seq<string>,
                  link: Option<string>, videoUrls: seq<string>, adSetIds: seq<string>,
                  cards: seq<CarouselCard>)
    returns (errors: seq<string>, warnings: seq<string>)
    ensures errors == ErrorsOf(rowType, primaryTexts, headlines, link, adSetIds, cards)
    ensures warnings == WarningsOf(rowType, videoUrls)
  {
    errors, warnings := [], [];
    if |primaryTexts| == 0 {
      errors := errors + [MissingPrimaryText];
    }
    if |headlines| == 0 {
      errors := errors + [MissingHeadline];
    }
    if !Truthy(link) && rowType == Single {
      errors := errors + [MissingLink];
    }
    if |adSetIds| == 0 {
      errors := errors + [MissingAdSetIds];
    }
    if rowType == Single && |videoUrls| == 0 {
      warnings := warnings + [NoMediaWarning];
    }
    if rowType == Carousel && |cards| < 2 {
      errors := errors + [TooFewCards];
    }
  }

  /** parseRow: resolves the row type, collects the variations, list fields and
      cards, validates, and assembles the row. */
  method ParseRow(row: NormalizedRow, index: nat) returns (r: AdRow)
    ensures r == ParsedRow(row, index)
    ensures r.rowIndex == index
    ensures r.isValid <==> r.errors == []
  {
    var rowType := if Get(row, "rowType") == Some("Carousel") then Carousel else Single;
    var primaryTexts := CollectVariations(row, "primaryText");
    var headlines := CollectVariations(row, "headline");
    var videoUrls := SplitList(Get(row, "videoUrls"));
    var adSetIds := SplitList(Get(row, "adSetIds"));
    var cards := CollectCards(row);
    var errors, warnings := CheckRow(rowType, primaryTexts, headlines, Get(row, "link"),
                                     videoUrls, adSetIds, cards);
    var isValid := |errors| == 0;
    var cta := Get(row, "callToAction");
    r := AdRow(
      index, rowType, Get(row, "customName"), primaryTexts, headlines,
      Get(row, "adDescription"), Get(row, "link"), Get(row, "displayLink"),
      Get(row, "utmParameters"), if Truthy(cta) then cta.value else DefaultCallToAction,
      Get(row, "partnershipCode"), LaunchPausedOf(Get(row, "launchPaused")),
      videoUrls, adSetIds, cards, isValid, errors, warnings);
  }

  // ---------------------------------------------------------------------------
  // Batch parsing and the report
  // ---------------------------------------------------------------------------

  /** The row parseRow produces from a reader record at position `index`. */
  function ParsedRecord(record: RawRecord, index: nat): AdRow
  {
    ParsedRow(Normalized(record), index)
  }

  /** The rows parseCSV yields for `records`: each record normalised and parsed at
      its own position. */
  function ParsedRecords(records: seq<RawRecord>): seq<AdRow>
  {
    MapIndexed(records, ParsedRecord)
  }

  /** parseCSV, from the reader's records on: one parsed row per record. */
  method ParseRecords(records: seq<RawRecord>) returns (rows: seq<AdRow>)
    ensures rows == ParsedRecords(records)
  {
    rows := [];
    var index := 0;
    while index < |records|
      invariant 0 <= index <= |records|
      invariant rows == MapIndexed(records[..index], ParsedRecord)
    {
      var row := NormalizeRow(records[index]);
      var parsedRow := ParseRow(row, index);
      MapIndexedSnoc(records, ParsedRecord, index);
      rows := rows + [parsedRow];
      index := index + 1;
    }
    assert records[..|records|] == records;
  }

  predicate RowIsValid(r: AdRow)
  {
    r.isValid
  }

  predicate RowIsInvalid(r: AdRow)
  {
    !r.isValid
  }

  function ErrorCount(r: AdRow): nat
  {
    |r.errors|
  }

  function WarningCount(r: AdRow): nat
  {
    |r.warnings|
  }

  /** validateCSVRows: the stable partition by validity and the two totals. */
  function ValidateRows(rows: seq<AdRow>): ValidationReport
  {
    ValidationReport(
      Filter(rows, RowIsValid),
      Filter(rows, RowIsInvalid),
      SumOf(rows, ErrorCount),
      SumOf(rows, WarningCount))
  }
}
