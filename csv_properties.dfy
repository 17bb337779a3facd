/** What the ingestion pipeline promises, proved about the model in CsvParser. */
module CsvProperties {
  import opened Wrappers
  import opened Sequences
  import opened Strings
  import opened CsvParser

  // ---------------------------------------------------------------------------
  // Normalisation
  // ---------------------------------------------------------------------------

  /** The normalised record holds exactly the canonical keys of the raw headers:
      nothing is dropped and nothing is invented. */
  lemma {:induction false} NormalizedKeys(record: RawRecord)
    ensures forall k :: k in Normalized(record) <==>
      exists j :: 0 <= j < |record| && CanonicalKey(record[j].header) == k
  {
    if |record| > 0 {
      var init := record[..|record| - 1];
      NormalizedKeys(init);
      forall k ensures k in Normalized(record) <==>
        exists j :: 0 <= j < |record| && CanonicalKey(record[j].header) == k
      {
        if k in Normalized(init) {
          var j :| 0 <= j < |init| && CanonicalKey(init[j].header) == k;
          assert record[j] == init[j];
        }
        if exists j :: 0 <= j < |record| && CanonicalKey(record[j].header) == k {
          var j :| 0 <= j < |record| && CanonicalKey(record[j].header) == k;
          if j < |init| {
            assert init[j] == record[j];
          }
        }
      }
    }
  }

  /** The value stored under an entry's canonical key is that entry's cleaned cell,
      provided no later entry has the same canonical key (the last write wins). */
  lemma {:induction false} NormalizedLastWins(record: RawRecord, j: nat)
    requires j < |record|
    requires forall j' :: j < j' < |record| ==>
      CanonicalKey(record[j'].header) != CanonicalKey(record[j].header)
    ensures CanonicalKey(record[j].header) in Normalized(record)
    ensures Normalized(record)[CanonicalKey(record[j].header)] == CleanCell(record[j].cell)
  {
    var init := record[..|record| - 1];
    if j < |record| - 1 {
      assert init[j] == record[j];
      forall j' | j < j' < |init|
        ensures CanonicalKey(init[j'].header) != CanonicalKey(init[j].header)
      {
        assert init[j'] == record[j'];
      }
      NormalizedLastWins(init, j);
    }
  }

  /** Every normalised value is already trimmed: trimming it again changes nothing. */
  lemma {:induction false} NormalizedTrimmed(record: RawRecord)
    ensures forall k :: k in Normalized(record) ==> Trim(Normalized(record)[k]) == Normalized(record)[k]
  {
    if |record| > 0 {
      NormalizedTrimmed(record[..|record| - 1]);
      var e := record[|record| - 1];
      TrimOfTrimmed(CleanCell(e.cell));
    }
  }

  /** No two headers of the table share a canonical name. */
  lemma ColumnMappingInjective()
    ensures forall a, b :: a in ColumnMapping && b in ColumnMapping && a != b ==>
      ColumnMapping[a] != ColumnMapping[b]
  {
  }

  /** A header of the table keeps its cell under its canonical name unless a later
      entry repeats that header or is the canonical name itself: two different table
      headers never overwrite each other. */
  lemma TableHeaderSurvives(record: RawRecord, j: nat)
    requires j < |record| && record[j].header in ColumnMapping
    requires forall j' :: j < j' < |record| ==>
      record[j'].header != record[j].header && record[j'].header != ColumnMapping[record[j].header]
    ensures ColumnMapping[record[j].header] in Normalized(record)
    ensures Normalized(record)[ColumnMapping[record[j].header]] == CleanCell(record[j].cell)
  {
    forall j' | j < j' < |record|
      ensures CanonicalKey(record[j'].header) != CanonicalKey(record[j].header)
    {
      ColumnMappingInjective();
    }
    NormalizedLastWins(record, j);
  }

  /** Slot numbers are written in decimal: slot 10's media column is "Carousel 10 Media URL". */
  lemma CarouselColumnTen(i: nat, attribute: string)
    requires i == 10 && attribute == "Media URL"
    ensures CarouselColumn(i, attribute) == "Carousel 10 Media URL"
  {
    assert NatToString(i) == NatToString(1) + [DigitChar(0)];
  }

  /** Different slots read different columns. */
  lemma CarouselColumnsDistinct(i: nat, j: nat, attribute: string)
    requires CarouselColumn(i, attribute) == CarouselColumn(j, attribute)
    ensures i == j
  {
    var ci, cj := CarouselColumn(i, attribute), CarouselColumn(j, attribute);
    var ni, nj := NatToString(i), NatToString(j);
    assert ci == "Carousel " + ni + " " + attribute;
    assert cj == "Carousel " + nj + " " + attribute;
    assert |ni| == |nj|;
    assert ni == ci[9..9 + |ni|];
    assert nj == cj[9..9 + |nj|];
    NatToStringInjective(i, j);
  }

  /** The numbered carousel columns are not in the table, so they keep their header. */
  lemma CarouselColumnsPassThrough(i: nat, attribute: string)
    ensures CanonicalKey(CarouselColumn(i, attribute)) == CarouselColumn(i, attribute)
  {
    var c := CarouselColumn(i, attribute);
    assert c[0] == 'C' && c[1] == 'a';
    assert c !in ColumnMapping;
  }

  // ---------------------------------------------------------------------------
  // Variations, list fields, cards
  // ---------------------------------------------------------------------------

  /** The variations are the non-empty slot texts of slots 1..5: at most five,
      none empty, and each one the text of some slot. */
  lemma VariationsShape(row: NormalizedRow, prefix: string)
    ensures |Variations(row, prefix)| <= VariationSlots
    ensures forall k :: 0 <= k < |Variations(row, prefix)| ==> Variations(row, prefix)[k] != ""
    ensures forall x :: x in Variations(row, prefix) <==>
      x != "" && exists i :: 1 <= i <= VariationSlots && SlotText(row, prefix, i) == x
  {
    var slots := SlotTexts(row, prefix, VariationSlots);
    FilterMembers(slots, NonEmpty);
    forall x ensures x in slots <==> exists i :: 1 <= i <= VariationSlots && SlotText(row, prefix, i) == x {
      if x in slots {
        var k :| 0 <= k < |slots| && slots[k] == x;
        assert SlotText(row, prefix, k + 1) == x;
      }
      if exists i :: 1 <= i <= VariationSlots && SlotText(row, prefix, i) == x {
        var i :| 1 <= i <= VariationSlots && SlotText(row, prefix, i) == x;
        assert slots[i - 1] == x;
      }
    }
    forall k | 0 <= k < |Variations(row, prefix)| ensures Variations(row, prefix)[k] != "" {
      assert Variations(row, prefix)[k] in Variations(row, prefix);
    }
  }

  /** Gaps are compacted: with only slots 1 and 3 filled the variations are those two
      texts, in slot order. */
  lemma VariationsCompactGaps(row: NormalizedRow, prefix: string, a: string, b: string)
    requires a != "" && b != ""
    requires SlotText(row, prefix, 1) == a && SlotText(row, prefix, 3) == b
    requires SlotText(row, prefix, 2) == "" && SlotText(row, prefix, 4) == "" && SlotText(row, prefix, 5) == ""
    ensures Variations(row, prefix) == [a, b]
  {
    var slots := SlotTexts(row, prefix, VariationSlots);
    assert slots == [a, "", b, "", ""];
    FilterSingleton(a, NonEmpty);
    FilterSnoc([a], "", NonEmpty);
    assert [a] + [""] == [a, ""];
    FilterSnoc([a, ""], b, NonEmpty);
    assert [a, ""] + [b] == [a, "", b];
    FilterSnoc([a, "", b], "", NonEmpty);
    assert [a, "", b] + [""] == [a, "", b, ""];
    FilterSnoc([a, "", b, ""], "", NonEmpty);
    assert [a, "", b, ""] + [""] == slots;
    assert Variations(row, prefix) == Filter(slots, NonEmpty);
  }

  /** Every element of a list field is a non-empty, trimmed piece without a comma;
      a blank or absent field gives no elements. */
  lemma SplitListShape(v: Option<string>)
    ensures !Truthy(v) ==> SplitList(v) == []
    ensures forall k :: 0 <= k < |SplitList(v)| ==>
      SplitList(v)[k] != "" && IsTrimmed(SplitList(v)[k]) && ',' !in SplitList(v)[k]
  {
    if Truthy(v) {
      var pieces := Split(v.value, ',');
      var trimmed := TrimAll(pieces);
      SplitPiecesFree(v.value, ',');
      FilterMembers(trimmed, NonEmpty);
      forall k | 0 <= k < |SplitList(v)|
        ensures SplitList(v)[k] != "" && IsTrimmed(SplitList(v)[k]) && ',' !in SplitList(v)[k]
      {
        var x := SplitList(v)[k];
        assert x in trimmed;
        var m :| 0 <= m < |trimmed| && trimmed[m] == x;
        assert pieces[m] in pieces;
        TrimNoNewChars(pieces[m], ',');
      }
    }
  }

  /** Trimming does not introduce a character. */
  lemma TrimNoNewChars(s: string, c: char)
    requires c !in s
    ensures c !in Trim(s)
  {
    var r := Trim(s);
    var lo := TrimLo(s, 0);
    forall k | 0 <= k < |r| ensures r[k] != c {
      assert r[k] == s[lo + k];
    }
  }

  /** Writing non-empty, trimmed, comma-free ids joined by commas and parsing the
      field gives back exactly those ids. */
  lemma SplitListOfJoin(ids: seq<string>)
    requires forall k :: 0 <= k < |ids| ==> ids[k] != "" && IsTrimmed(ids[k]) && ',' !in ids[k]
    ensures SplitList(Some(Join(ids, ','))) == ids
  {
    if |ids| > 0 {
      JoinStartsWithFirst(ids, ',');
      assert Truthy(Some(Join(ids, ',')));
      SplitJoin(ids, ',');
      var trimmed := TrimAll(ids);
      forall k | 0 <= k < |ids| ensures trimmed[k] == ids[k] {
        TrimOfTrimmed(ids[k]);
      }
      assert trimmed == ids;
      FilterKeepsAll(ids, NonEmpty);
    }
  }

  /** A join is at least as long as its first piece. */
  lemma JoinStartsWithFirst(pieces: seq<string>, sep: char)
    requires |pieces| > 0
    ensures |Join(pieces, sep)| >= |pieces[0]|
  {
  }

  /** The documented example: "123, 456,,789" gives the three ids in order. */
  lemma AdSetIdsExample(field: string)
    requires field == "123, 456,,789"
    ensures SplitList(Some(field)) == ["123", "456", "789"]
  {
    var pieces := ["123", " 456", "", "789"];
    ExampleSplit(field, pieces);
    var t := ["123", "456", "", "789"];
    ExampleTrimAll(pieces, t);
    FilterSingleton("123", NonEmpty);
    FilterSnoc(["123"], "456", NonEmpty);
    FilterSnoc(["123", "456"], "", NonEmpty);
    FilterSnoc(["123", "456", ""], "789", NonEmpty);
    assert ["123", "456", ""] + ["789"] == t;
  }

  /** The comma pieces of the example field, including the empty one. */
  lemma ExampleSplit(field: string, pieces: seq<string>)
    requires field == "123, 456,,789" && pieces == ["123", " 456", "", "789"]
    ensures Split(field, ',') == pieces
  {
    assert Join(pieces, ',') == field by {
      assert Join(["789"], ',') == "789";
      assert Join(["", "789"], ',') == ",789";
      assert Join([" 456", "", "789"], ',') == " 456,,789";
    }
    assert forall p :: p in pieces ==> ',' !in p;
    SplitJoin(pieces, ',');
  }

  /** The example's pieces after trimming. */
  lemma ExampleTrimAll(pieces: seq<string>, trimmed: seq<string>)
    requires pieces == ["123", " 456", "", "789"] && trimmed == ["123", "456", "", "789"]
    ensures TrimAll(pieces) == trimmed
  {
    var t := TrimAll(pieces);
    assert IsTrimmed(pieces[0]) && IsTrimmed(pieces[2]) && IsTrimmed(pieces[3]);
    TrimOfTrimmed(pieces[0]);
    TrimOfTrimmed(pieces[2]);
    TrimOfTrimmed(pieces[3]);
    assert pieces[1] == " " + trimmed[1];
    TrimDropsLeadingSpace(trimmed[1]);
    assert t[0] == trimmed[0] && t[1] == trimmed[1] && t[2] == trimmed[2] && t[3] == trimmed[3];
  }

  /** One leading space in front of a trimmed, non-empty string is removed by `trim`. */
  lemma TrimDropsLeadingSpace(s: string)
    requires s != "" && IsTrimmed(s)
    ensures Trim(" " + s) == s
  {
    var t := " " + s;
    assert t[1..] == s;
    assert TrimLo(t, 1) == 1;
    assert TrimLo(t, 0) == 1;
    assert TrimHi(t, 1, |t|) == |t|;
  }

  /** The cards are the slots 1..10 that have a media URL or a title, in slot order:
      at most ten, each with content, and each the card of some slot. */
  lemma CardsShape(row: NormalizedRow)
    ensures |Cards(row)| <= CarouselSlots
    ensures forall c :: c in Cards(row) <==>
      HasContent(c) && exists i :: 1 <= i <= CarouselSlots && SlotCard(row, i) == c
  {
    var slots := SlotCards(row, CarouselSlots);
    FilterMembers(slots, HasContent);
    forall c ensures c in slots <==> exists i :: 1 <= i <= CarouselSlots && SlotCard(row, i) == c {
      if c in slots {
        var k :| 0 <= k < |slots| && slots[k] == c;
        assert SlotCard(row, k + 1) == c;
      }
      if exists i :: 1 <= i <= CarouselSlots && SlotCard(row, i) == c {
        var i :| 1 <= i <= CarouselSlots && SlotCard(row, i) == c;
        assert slots[i - 1] == c;
      }
    }
  }

  // ---------------------------------------------------------------------------
  // Coercions
  // ---------------------------------------------------------------------------

  /** launchPaused is a strict allow-list: exactly the eight spellings of "yes"
      that differ only in letter case. */
  lemma LaunchPausedAllowList(v: string)
    ensures LaunchPausedOf(Some(v)) <==>
      |v| == 3 && (v[0] == 'y' || v[0] == 'Y') && (v[1] == 'e' || v[1] == 'E') && (v[2] == 's' || v[2] == 'S')
  {
    if |v| == 3 {
      var l := ToLowerAscii(v);
      assert l == [l[0], l[1], l[2]];
    }
  }

  /** Other values, and a missing field, never launch paused. */
  lemma LaunchPausedRejects()
    ensures !LaunchPausedOf(None) && !LaunchPausedOf(Some(""))
    ensures !LaunchPausedOf(Some("No")) && !LaunchPausedOf(Some("TRUE"))
    ensures !LaunchPausedOf(Some("1")) && !LaunchPausedOf(Some("y"))
  {
    LaunchPausedAllowList("No");
    LaunchPausedAllowList("TRUE");
  }

  /** The call to action is never blank: the field's value when it has one,
      "LEARN_MORE" otherwise. */
  lemma CallToActionDefault(v: Option<string>)
    ensures CallToActionOf(v) != ""
    ensures Truthy(v) ==> CallToActionOf(v) == v.value
    ensures !Truthy(v) ==> CallToActionOf(v) == "LEARN_MORE"
  {
  }

  // ---------------------------------------------------------------------------
  // Validation of one row
  // ---------------------------------------------------------------------------

  /** The fields of a parsed row: its index, the row type coerced from the exact value
      "Carousel", the pass-through fields as normalised, the call to action with its
      default, the launchPaused allow-list and the list fields. */
  lemma ParsedRowFields(row: NormalizedRow, index: nat)
    ensures var r := ParsedRow(row, index);
      && r.rowIndex == index
      && (r.rowType == Carousel <==> "rowType" in row && row["rowType"] == "Carousel")
      && r.customName == Get(row, "customName")
      && r.adDescription == Get(row, "adDescription")
      && r.link == Get(row, "link")
      && r.displayLink == Get(row, "displayLink")
      && r.utmParameters == Get(row, "utmParameters")
      && r.partnershipCode == Get(row, "partnershipCode")
      && (Truthy(Get(row, "callToAction")) ==> r.callToAction == row["callToAction"])
      && (!Truthy(Get(row, "callToAction")) ==> r.callToAction == "LEARN_MORE")
      && (r.launchPaused <==> "launchPaused" in row && ToLowerAscii(row["launchPaused"]) == "yes")
      && r.primaryTextVariations == Variations(row, "primaryText")
      && r.headlineVariations == Variations(row, "headline")
      && r.videoUrls == SplitList(Get(row, "videoUrls"))
      && r.adSetIds == SplitList(Get(row, "adSetIds"))
      && r.carouselCards == Cards(row)
  {
  }

  /** Position of an error message in the fixed order the checks run in. */
  function ErrorRank(e: string): nat
  {
    if e == MissingPrimaryText then 0
    else if e == MissingHeadline then 1
    else if e == MissingLink then 2
    else if e == MissingAdSetIds then 3
    else 4
  }

  /** Each error is present exactly when its condition holds, and the warning is
      present exactly for a Single row without video URLs. */
  lemma ErrorsExact(row: NormalizedRow, index: nat)
    ensures var r := ParsedRow(row, index);
      && (MissingPrimaryText in r.errors <==> r.primaryTextVariations == [])
      && (MissingHeadline in r.errors <==> r.headlineVariations == [])
      && (MissingLink in r.errors <==> !Truthy(r.link) && r.rowType == Single)
      && (MissingAdSetIds in r.errors <==> r.adSetIds == [])
      && (TooFewCards in r.errors <==> r.rowType == Carousel && |r.carouselCards| < 2)
      && (r.warnings == if r.rowType == Single && r.videoUrls == [] then [NoMediaWarning] else [])
  {
    var r := ParsedRow(row, index);
    ErrorsOfMembers(r.rowType, r.primaryTextVariations, r.headlineVariations, r.link, r.adSetIds, r.carouselCards);
  }

  /** The error list's contents, condition by condition. */
  lemma ErrorsOfMembers(rowType: RowType, primaryTexts: seq<string>, headlines: seq<string>,
                        link: Option<string>, adSetIds: seq<string>, cards: seq<CarouselCard>)
    ensures var e := ErrorsOf(rowType, primaryTexts, headlines, link, adSetIds, cards);
      && (MissingPrimaryText in e <==> primaryTexts == [])
      && (MissingHeadline in e <==> headlines == [])
      && (MissingLink in e <==> !Truthy(link) && rowType == Single)
      && (MissingAdSetIds in e <==> adSetIds == [])
      && (TooFewCards in e <==> rowType == Carousel && |cards| < 2)
  {
    MessageRanks();
  }

  /** The error list is in rank order and has at most four entries. */
  lemma ErrorsOfOrdered(rowType: RowType, primaryTexts: seq<string>, headlines: seq<string>,
                        link: Option<string>, adSetIds: seq<string>, cards: seq<CarouselCard>)
    ensures var e := ErrorsOf(rowType, primaryTexts, headlines, link, adSetIds, cards);
      && |e| <= 4
      && (forall m :: m in e ==> m in ErrorMessages)
      && forall a, b :: 0 <= a < b < |e| ==> ErrorRank(e[a]) < ErrorRank(e[b])
  {
    MessageRanks();
  }

  /** The five messages are distinct: each has its own rank. */
  lemma MessageRanks()
    ensures ErrorRank(MissingPrimaryText) == 0 && ErrorRank(MissingHeadline) == 1
    ensures ErrorRank(MissingLink) == 2 && ErrorRank(MissingAdSetIds) == 3
    ensures ErrorRank(TooFewCards) == 4
  {
  }

  /** The errors appear in the fixed order of the checks, without repetition, and
      there are at most four of them (the link and the card checks exclude each other). */
  lemma ErrorsOrdered(row: NormalizedRow, index: nat)
    ensures var e := ParsedRow(row, index).errors;
      && |e| <= 4
      && (forall m :: m in e ==> m in ErrorMessages)
      && forall a, b :: 0 <= a < b < |e| ==> ErrorRank(e[a]) < ErrorRank(e[b])
  {
    var r := ParsedRow(row, index);
    ErrorsOfOrdered(r.rowType, r.primaryTextVariations, r.headlineVariations, r.link, r.adSetIds, r.carouselCards);
  }

  /** A row is valid exactly when it has a primary text, a headline and an ad set id,
      and either is Single with a link or is Carousel with at least two cards. */
  lemma RowValidIff(row: NormalizedRow, index: nat)
    ensures var r := ParsedRow(row, index);
      r.isValid <==>
        && r.primaryTextVariations != []
        && r.headlineVariations != []
        && r.adSetIds != []
        && (r.rowType == Single ==> Truthy(r.link))
        && (r.rowType == Carousel ==> |r.carouselCards| >= 2)
  {
  }

  /** isValid is derived from the error list, and a parsed row has at most one warning. */
  predicate WellFormed(r: AdRow)
  {
    (r.isValid <==> r.errors == []) && |r.errors| <= 4 && |r.warnings| <= 1
  }

  lemma ParsedRowWellFormed(row: NormalizedRow, index: nat)
    ensures WellFormed(ParsedRow(row, index))
  {
    ErrorsOrdered(row, index);
  }

  // ---------------------------------------------------------------------------
  // The report
  // ---------------------------------------------------------------------------

  /** The report splits the rows into a valid and an invalid part, each in input
      order, and together they account for every row. */
  lemma ReportPartition(rows: seq<AdRow>)
    ensures var report := ValidateRows(rows);
      && |report.valid| + |report.invalid| == |rows|
      && (forall r :: r in report.valid <==> r in rows && r.isValid)
      && (forall r :: r in report.invalid <==> r in rows && !r.isValid)
  {
    FilterPartition(rows, RowIsValid, RowIsInvalid);
    FilterMembers(rows, RowIsValid);
    FilterMembers(rows, RowIsInvalid);
  }

  /** The valid part of a concatenation is the valid parts concatenated, so the
      partition keeps the input order. */
  lemma ReportAppend(a: seq<AdRow>, b: seq<AdRow>)
    ensures ValidateRows(a + b).valid == ValidateRows(a).valid + ValidateRows(b).valid
    ensures ValidateRows(a + b).invalid == ValidateRows(a).invalid + ValidateRows(b).invalid
  {
    FilterAppend(a, b, RowIsValid);
    FilterAppend(a, b, RowIsInvalid);
  }

  /** For well-formed rows the totals bound the partition: no errors in all exactly
      when no row is invalid, at least one error per invalid row, at most four per
      row, and at most one warning per row. */
  lemma ReportTotals(rows: seq<AdRow>)
    requires forall i :: 0 <= i < |rows| ==> WellFormed(rows[i])
    ensures var report := ValidateRows(rows);
      && (report.totalErrors == 0 <==> report.invalid == [])
      && |report.invalid| <= report.totalErrors <= 4 * |rows|
      && report.totalWarnings <= |rows|
  {
    var report := ValidateRows(rows);
    SumOfZero(rows, ErrorCount);
    FilterMembers(rows, RowIsInvalid);
    if report.invalid != [] {
      assert report.invalid[0] in report.invalid;
      var i :| 0 <= i < |rows| && rows[i] == report.invalid[0];
      assert ErrorCount(rows[i]) != 0;
    } else {
      forall i | 0 <= i < |rows| ensures ErrorCount(rows[i]) == 0 {
        assert rows[i] in rows;
      }
    }
    FilterCountBelowSum(rows, RowIsInvalid, ErrorCount);
    SumOfBounded(rows, ErrorCount, 4);
    SumOfBounded(rows, WarningCount, 1);
  }

  /** Row `i` of a parsed batch is record `i` normalised and parsed at index `i`. */
  lemma ParsedRecordsAt(records: seq<RawRecord>, i: nat)
    requires i < |records|
    ensures |ParsedRecords(records)| == |records|
    ensures ParsedRecords(records)[i] == ParsedRow(Normalized(records[i]), i)
    ensures ParsedRecords(records)[i].rowIndex == i
  {
    MapIndexedAt(records, ParsedRecord, i);
  }

  /** Every row the pipeline parses is well formed, so the report of a parsed batch
      satisfies the bounds above. */
  lemma ParsedReport(records: seq<RawRecord>)
    ensures var rows := ParsedRecords(records);
      var report := ValidateRows(rows);
      && |report.valid| + |report.invalid| == |records|
      && (report.totalErrors == 0 <==> report.invalid == [])
      && |report.invalid| <= report.totalErrors <= 4 * |records|
      && report.totalWarnings <= |records|
  {
    var rows := ParsedRecords(records);
    forall i | 0 <= i < |rows| ensures WellFormed(rows[i]) {
      ParsedRecordsAt(records, i);
      ParsedRowWellFormed(Normalized(records[i]), i);
    }
    ReportPartition(rows);
    ReportTotals(rows);
  }
}
