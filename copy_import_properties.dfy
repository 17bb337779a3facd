/** What the copy-template import promises, proved about the model in CopyImport. */
module CopyImportProperties {
  import opened Wrappers
  import opened Sequences
  import opened Strings
  import opened CopyImport

  /** A stored optional field: absent exactly when the cell is missing or blank after
      trimming, otherwise the trimmed, non-blank cell. */
  predicate OptionalStored(row: CopyRow, key: string, v: Option<string>)
  {
    && (v.None? <==> key !in row || Trim(row[key]) == "")
    && (v.Some? ==> key in row && v.value == Trim(row[key]) && v.value != "" && IsTrimmed(v.value))
  }

  /** A stored required field: the trimmed, non-blank cell. */
  predicate RequiredStored(row: CopyRow, key: string, v: string)
  {
    key in row && v == Trim(row[key]) && v != "" && IsTrimmed(v)
  }

  /** A row is rejected exactly when one of Name, Primary Text 1, Headline 1 and Link
      is missing or blank after trimming. */
  lemma RejectedIff(accountId: string, row: CopyRow)
    ensures RowTemplate(accountId, row).None? <==>
      || "Name" !in row || Trim(row["Name"]) == ""
      || "Primary Text 1" !in row || Trim(row["Primary Text 1"]) == ""
      || "Headline 1" !in row || Trim(row["Headline 1"]) == ""
      || "Link" !in row || Trim(row["Link"]) == ""
  {
    AcceptedIff(accountId, row);
  }

  /** The template of an accepted row: required fields trimmed and non-blank, each
      optional field trimmed or absent when blank, and the call to action the trimmed
      CTA or "LEARN_MORE" when that is blank. */
  lemma TemplateFields(accountId: string, row: CopyRow)
    requires RowTemplate(accountId, row).Some?
    ensures var t := RowTemplate(accountId, row).value;
      && t.adAccountId == accountId
      && RequiredStored(row, "Name", t.name)
      && RequiredStored(row, "Primary Text 1", t.primaryText1)
      && RequiredStored(row, "Headline 1", t.headline1)
      && RequiredStored(row, "Link", t.link)
      && OptionalStored(row, "Primary Text 2", t.primaryText2)
      && OptionalStored(row, "Primary Text 3", t.primaryText3)
      && OptionalStored(row, "Primary Text 4", t.primaryText4)
      && OptionalStored(row, "Primary Text 5", t.primaryText5)
      && OptionalStored(row, "Headline 2", t.headline2)
      && OptionalStored(row, "Headline 3", t.headline3)
      && OptionalStored(row, "Headline 4", t.headline4)
      && OptionalStored(row, "Headline 5", t.headline5)
      && OptionalStored(row, "Description", t.description)
      && OptionalStored(row, "Display Link", t.displayLink)
      && OptionalStored(row, "UTM Parameters", t.utmParameters)
      && t.callToAction != ""
      && (TrimmedField(row, "CTA") != "" ==> t.callToAction == Trim(row["CTA"]))
      && (TrimmedField(row, "CTA") == "" ==> t.callToAction == "LEARN_MORE")
  {
  }

  /** Every create call is made with a template whose required fields are non-blank. */
  lemma {:induction false} CreateCallsComplete(accountId: string, rows: seq<CopyRow>, n: nat)
    requires n <= |rows|
    ensures |CreateCalls(accountId, rows, n)| <= n
    ensures forall t :: t in CreateCalls(accountId, rows, n) ==>
      t.name != "" && t.primaryText1 != "" && t.headline1 != "" && t.link != ""
  {
    if n > 0 {
      CreateCallsComplete(accountId, rows, n - 1);
    }
  }

  /** One more row adds one create call exactly when it passes validation. */
  lemma CreateCallsStep(accountId: string, rows: seq<CopyRow>, n: nat)
    requires 0 < n <= |rows|
    ensures |CreateCalls(accountId, rows, n)|
      == |CreateCalls(accountId, rows, n - 1)| + if HasRequiredFields(rows[n - 1]) then 1 else 0
  {
    var last := rows[n - 1];
    if HasRequiredFields(last) {
      var t := BuildTemplate(accountId, last);
      assert CreateCalls(accountId, rows, n) == CreateCalls(accountId, rows, n - 1) + [t];
    } else {
      assert CreateCalls(accountId, rows, n) == CreateCalls(accountId, rows, n - 1) + [];
    }
  }

  /** Create is called once for each row that passes validation. */
  lemma {:induction false} CreateCallsCount(accountId: string, rows: seq<CopyRow>, n: nat)
    requires n <= |rows|
    ensures |CreateCalls(accountId, rows, n)| == CountKept(rows, HasRequiredFields, n)
  {
    if n > 0 {
      CreateCallsCount(accountId, rows, n - 1);
      CreateCallsStep(accountId, rows, n);
    }
  }

  /** Imported rows are among the rows that reached create, which are among all rows. */
  lemma ImportedAtMostCalls(accountId: string, rows: seq<CopyRow>, createOk: nat -> bool, n: nat)
    requires n <= |rows|
    ensures ImportedCount(rows, createOk, n) <= |CreateCalls(accountId, rows, n)| <= n
  {
    CreateCallsCount(accountId, rows, n);
    CountKeptAndBelow(rows, HasRequiredFields, createOk, n);
  }

  /** When every create succeeds, the imported rows are exactly those that reached
      create, so `failed` counts only the rows rejected by validation. */
  lemma AllCreatesSucceed(accountId: string, rows: seq<CopyRow>, createOk: nat -> bool, n: nat)
    requires n <= |rows|
    requires forall i :: 0 <= i < n ==> createOk(i)
    ensures ImportedCount(rows, createOk, n) == |CreateCalls(accountId, rows, n)|
  {
    CreateCallsCount(accountId, rows, n);
    CountKeptAndAll(rows, HasRequiredFields, createOk, n);
  }

  /** A row with a blank required field is never imported, whatever the store does. */
  lemma RejectedNotImported(accountId: string, rows: seq<CopyRow>, createOk: nat -> bool, n: nat)
    requires n <= |rows|
    requires forall i :: 0 <= i < n ==> !HasRequiredFields(rows[i])
    ensures ImportedCount(rows, createOk, n) == 0
    ensures CreateCalls(accountId, rows, n) == []
  {
    CountKeptAndNone(rows, HasRequiredFields, createOk, n);
    CreateCallsCount(accountId, rows, n);
    CountKeptAndBelow(rows, HasRequiredFields, createOk, n);
    CountKeptNone(rows, HasRequiredFields, n);
  }
}
