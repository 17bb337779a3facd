/** The per-row validation and counting loop of the copy-template CSV import:
    each data row either becomes a template handed to the store or is counted as
    failed. The store's `create` is a parameter that reports success or failure. */
module CopyImport {
  import opened Wrappers
  import opened Sequences
  import opened Strings

  /** A data row keyed by header, as the CSV reader produced it. */
  type CopyRow = map<string, string>

  /** What the CSV reader returned: the data rows and the messages of any errors. */
  datatype ReaderOutput = ReaderOutput(data: seq<CopyRow>, errors: seq<string>)

  /** The record handed to the store's create operation. */
  datatype CopyTemplate = CopyTemplate(
    adAccountId: string,
    name: string,
    primaryText1: string,
    primaryText2: Option<string>,
    primaryText3: Option<string>,
    primaryText4: Option<string>,
    primaryText5: Option<string>,
    headline1: string,
    headline2: Option<string>,
    headline3: Option<string>,
    headline4: Option<string>,
    headline5: Option<string>,
    description: Option<string>,
    link: string,
    displayLink: Option<string>,
    utmParameters: Option<string>,
    callToAction: string)

  datatype ImportCounts = ImportCounts(imported: nat, failed: nat)

  const DefaultCallToAction := "LEARN_MORE"
  const ParseErrorPrefix := "CSV parsing error: "

  /** `row[key]?.trim()`, with an absent key read as "" (both are falsy). */
  function TrimmedField(row: CopyRow, key: string): string
  {
    if key in row then Trim(row[key]) else ""
  }

  /** `row[key]?.trim() || null`. */
  function OptionalField(row: CopyRow, key: string): Option<string>
  {
    var v := TrimmedField(row, key);
    if v == "" then None else Some(v)
  }

  /** The four fields a row cannot do without are non-blank after trimming. */
  predicate HasRequiredFields(row: CopyRow)
  {
    && TrimmedField(row, "Name") != ""
    && TrimmedField(row, "Primary Text 1") != ""
    && TrimmedField(row, "Headline 1") != ""
    && TrimmedField(row, "Link") != ""
  }

  /** The template a row maps to, or `None` when it is rejected. */
  function RowTemplate(accountId: string, row: CopyRow): Option<CopyTemplate>
  {
    if HasRequiredFields(row) then Some(BuildTemplate(accountId, row)) else None
  }

  /** The record built from a row once its required fields are known to be present. */
  function BuildTemplate(accountId: string, row: CopyRow): CopyTemplate
  {
      var cta := TrimmedField(row, "CTA");
      CopyTemplate(
        accountId,
        TrimmedField(row, "Name"),
        TrimmedField(row, "Primary Text 1"),
        OptionalField(row, "Primary Text 2"),
        OptionalField(row, "Primary Text 3"),
        OptionalField(row, "Primary Text 4"),
        OptionalField(row, "Primary Text 5"),
        TrimmedField(row, "Headline 1"),
        OptionalField(row, "Headline 2"),
        OptionalField(row, "Headline 3"),
        OptionalField(row, "Headline 4"),
        OptionalField(row, "Headline 5"),
        OptionalField(row, "Description"),
        TrimmedField(row, "Link"),
        OptionalField(row, "Display Link"),
        OptionalField(row, "UTM Parameters"),
        if cta == "" then DefaultCallToAction else cta)
  }

  /** A row yields a template exactly when it has the four required fields. */
  lemma AcceptedIff(accountId: string, row: CopyRow)
    ensures RowTemplate(accountId, row).Some? <==> HasRequiredFields(row)
  {
  }

  /** The templates create is called with for the first `n` rows, in row order. */
  function CreateCalls(accountId: string, rows: seq<CopyRow>, n: nat): seq<CopyTemplate>
    requires n <= |rows|
  {
    if n == 0 then []
    else
      CreateCalls(accountId, rows, n - 1)
      + if HasRequiredFields(rows[n - 1]) then [BuildTemplate(accountId, rows[n - 1])] else []
  }

  /** How many of the first `n` rows are imported: those that pass validation and
      whose create call succeeds. */
  function ImportedCount(rows: seq<CopyRow>, createOk: nat -> bool, n: nat): nat
    requires n <= |rows|
  {
    CountKeptAnd(rows, HasRequiredFields, createOk, n)
  }

  /** The body of the import loop up to the create call: trims the four required
      fields, rejects the row when one is blank, and builds the template. */
  method MapRow(accountId: string, row: CopyRow) returns (template: Option<CopyTemplate>)
    ensures template == RowTemplate(accountId, row)
  {
    var name := TrimmedField(row, "Name");
    var primaryText1 := TrimmedField(row, "Primary Text 1");
    var headline1 := TrimmedField(row, "Headline 1");
    var link := TrimmedField(row, "Link");

    if name == "" || primaryText1 == "" || headline1 == "" || link == "" {
      return None;
    }

    var cta := TrimmedField(row, "CTA");
    template := Some(CopyTemplate(
      accountId, name, primaryText1,
      OptionalField(row, "Primary Text 2"),
      OptionalField(row, "Primary Text 3"),
      OptionalField(row, "Primary Text 4"),
      OptionalField(row, "Primary Text 5"),
      headline1,
      OptionalField(row, "Headline 2"),
      OptionalField(row, "Headline 3"),
      OptionalField(row, "Headline 4"),
      OptionalField(row, "Headline 5"),
      OptionalField(row, "Description"),
      link,
      OptionalField(row, "Display Link"),
      OptionalField(row, "UTM Parameters"),
      if cta == "" then DefaultCallToAction else cta));
  }

  /** The import loop of the handler. A reader error ends the request with the first
      error's message before any row is looked at. Otherwise every row increments
      exactly one counter: `failed` when it lacks a required field (no create call)
      or its create call fails, `imported` when the create call succeeds.
      `createOk(i)` is the outcome of the create call made for data row `i`. */
  method ImportTemplates(accountId: string, reader: ReaderOutput, createOk: nat -> bool)
    returns (result: Result<ImportCounts, string>, created: seq<CopyTemplate>)
    ensures |reader.errors| > 0 ==> result == Failure(ParseErrorPrefix + reader.errors[0]) && created == []
    ensures |reader.errors| == 0 ==> result.Success?
    ensures result.Success? ==>
      && result.value.imported + result.value.failed == |reader.data|
      && result.value.imported == ImportedCount(reader.data, createOk, |reader.data|)
      && created == CreateCalls(accountId, reader.data, |reader.data|)
  {
    if |reader.errors| > 0 {
      return Failure(ParseErrorPrefix + reader.errors[0]), [];
    }

    var imported, failed := 0, 0;
    created := [];
    var i := 0;
    while i < |reader.data|
      invariant 0 <= i <= |reader.data|
      invariant imported + failed == i
      invariant imported == ImportedCount(reader.data, createOk, i)
      invariant created == CreateCalls(accountId, reader.data, i)
    {
      var template := MapRow(accountId, reader.data[i]);
      AcceptedIff(accountId, reader.data[i]);
      assert CreateCalls(accountId, reader.data, i + 1)
        == CreateCalls(accountId, reader.data, i) + if template.Some? then [template.value] else [];
      assert ImportedCount(reader.data, createOk, i + 1)
        == ImportedCount(reader.data, createOk, i) + if template.Some? && createOk(i) then 1 else 0;
      if template.None? {
        failed := failed + 1;
        i := i + 1;
        continue;
      }
      created := created + [template.value];
      if createOk(i) {
        imported := imported + 1;
      } else {
        failed := failed + 1;
      }
      i := i + 1;
    }
    result := Success(ImportCounts(imported, failed));
  }
}
