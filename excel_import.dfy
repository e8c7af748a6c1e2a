/** The `/import_excel` endpoint: password check, parse (or 400), one
    `fillna(0)` over the table, then one insert per row, counting successes
    and collecting a numbered message per failed row without ever stopping
    early. The store's answer to each insert is an oracle indexed by row. */
module ExcelImport {
  import opened Text
  import opened Records
  import opened AccessGate
  import opened RowNormalise

  /** The uploaded file: a table `read_excel` could parse, or the text of
      the exception reading it raised. */
  datatype Upload = Readable(table: seq<Row>) | Unreadable(reason: string)

  /** The store's answer to one insert of a row's record. */
  datatype InsertOutcome = Stored | Rejected(reason: string)

  datatype ImportResponse = ImportResponse(success: bool, rowsImported: nat, errors: seq<string>)

  /** 401, 400 with its detail, or 200 with the response. */
  datatype ImportOutcome = ImportUnauthorized | BadRequest(detail: string) | Imported(response: ImportResponse)

  const RowErrorPrefix: string := "Error in row "

  /** The message recorded for a failed row: the prefix, the spreadsheet
      line number, a colon and the exception text. The header line and
      1-based numbering put data row `index` on line `index + 2`. */
  function RowError(index: nat, detail: string): (message: string)
    ensures |message| == |RowErrorPrefix| + |Decimal(index + 2)| + 2 + |detail|
    ensures message[..|RowErrorPrefix|] == RowErrorPrefix
    ensures message[|RowErrorPrefix|..|message| - |detail| - 2] == Decimal(index + 2)
    ensures message[|message| - |detail| - 2..] == ": " + detail
  {
    RowErrorPrefix + Decimal(index + 2) + ": " + detail
  }

  /** Reads the spreadsheet line number back out of a row message. */
  function RowNumberOf(message: string): Option<nat> {
    if |RowErrorPrefix| <= |message| && message[..|RowErrorPrefix|] == RowErrorPrefix then
      var digits := LeadingDigits(message[|RowErrorPrefix|..]);
      if digits == [] then None else Some(DigitsValue(digits))
    else None
  }

  /** Every row message names its row: the number reads back as
      `index + 2`, whatever the detail text holds. */
  lemma RowNumberRoundTrip(index: nat, detail: string)
    ensures RowNumberOf(RowError(index, detail)) == Some(index + 2)
  {
    var message := RowError(index, detail);
    var rest := ": " + detail;
    assert message == RowErrorPrefix + (Decimal(index + 2) + rest);
    assert message[..|RowErrorPrefix|] == RowErrorPrefix;
    assert message[|RowErrorPrefix|..] == Decimal(index + 2) + rest;
    LeadingDigitsOfDigitsThenOther(Decimal(index + 2), rest);
  }

  /** What became of one row. */
  datatype RowOutcome = RowImported(record: ClientRecord) | RowFailed(message: string)

  /** The body of the `try` for row `index`: build the record, insert it,
      or turn the first exception into a numbered message. */
  function ProcessRow(index: nat, row: Row, insert: InsertOutcome): (o: RowOutcome)
    ensures o.RowFailed? <==> NormaliseRow(row).Err? || insert.Rejected?
    ensures o.RowImported? ==> o.record == NormaliseRow(row).value
    ensures o.RowFailed? ==> RowNumberOf(o.message) == Some(index + 2)
    // the message carries the text of the exception: the build error, else the insert's
    ensures o.RowFailed? ==>
      o.message == RowError(index, if NormaliseRow(row).Err? then NormaliseRow(row).error else insert.reason)
  {
    match NormaliseRow(row)
    case Err(detail) =>
      RowNumberRoundTrip(index, detail);
      RowFailed(RowError(index, detail))
    case Ok(record) =>
      match insert
      case Stored => RowImported(record)
      case Rejected(reason) =>
        RowNumberRoundTrip(index, reason);
        RowFailed(RowError(index, reason))
  }

  /** Each row is processed on its own: its outcome depends on its index,
      its cells and its insert, and on no other row. */
  function Outcomes(table: seq<Row>, store: seq<InsertOutcome>): (os: seq<RowOutcome>)
    requires |store| == |table|
    ensures |os| == |table|
    ensures forall k :: 0 <= k < |table| ==> os[k] == ProcessRow(k, table[k], store[k])
  {
    seq(|table|, k requires 0 <= k < |table| => ProcessRow(k, table[k], store[k]))
  }

  /** The records the store accepted, in row order. */
  function ImportedRecords(os: seq<RowOutcome>): seq<ClientRecord> {
    if os == [] then []
    else
      var last := os[|os| - 1];
      ImportedRecords(os[..|os| - 1]) + (if last.RowImported? then [last.record] else [])
  }

  /** The row messages, in row order. */
  function ErrorMessages(os: seq<RowOutcome>): seq<string> {
    if os == [] then []
    else
      var last := os[|os| - 1];
      ErrorMessages(os[..|os| - 1]) + (if last.RowFailed? then [last.message] else [])
  }

  /** The indices of the failed rows, in increasing order. */
  function FailedRows(os: seq<RowOutcome>): (r: seq<nat>)
    ensures forall j :: 0 <= j < |r| ==> r[j] < |os| && os[r[j]].RowFailed?
    ensures forall k :: 0 <= k < |os| && os[k].RowFailed? ==> k in r
    ensures forall i, j :: 0 <= i < j < |r| ==> r[i] < r[j]
  {
    if os == [] then []
    else
      var n := |os| - 1;
      var earlier := FailedRows(os[..n]);
      assert forall k :: 0 <= k < n ==> os[..n][k] == os[k];
      earlier + (if os[n].RowFailed? then [n] else [])
  }

  /** Every row is counted exactly once: as imported or as an error. */
  lemma {:induction false} Conservation(os: seq<RowOutcome>)
    ensures |ImportedRecords(os)| + |ErrorMessages(os)| == |os|
  {
    if os != [] {
      Conservation(os[..|os| - 1]);
    }
  }

  /** The `j`-th message belongs to the `j`-th failed row. */
  lemma {:induction false} MessagesFollowFailedRows(os: seq<RowOutcome>)
    ensures |ErrorMessages(os)| == |FailedRows(os)|
    ensures forall j :: 0 <= j < |FailedRows(os)| ==> ErrorMessages(os)[j] == os[FailedRows(os)[j]].message
  {
    if os != [] {
      var n := |os| - 1;
      MessagesFollowFailedRows(os[..n]);
      assert forall k :: 0 <= k < n ==> os[..n][k] == os[k];
    }
  }

  /** The messages carry the spreadsheet line numbers of exactly the
      failed rows, one each, in strictly increasing order. */
  lemma ErrorsNumberFailedRows(table: seq<Row>, store: seq<InsertOutcome>)
    requires |store| == |table|
    ensures var os := Outcomes(table, store);
      var errors := ErrorMessages(os);
      var failed := FailedRows(os);
      && |errors| == |failed|
      && (forall j :: 0 <= j < |errors| ==> RowNumberOf(errors[j]) == Some(failed[j] + 2))
      && (forall j :: 0 <= j < |errors| ==>
            var k := failed[j];
            errors[j] == RowError(k, if NormaliseRow(table[k]).Err? then NormaliseRow(table[k]).error else store[k].reason))
      && (forall i, j :: 0 <= i < j < |failed| ==> failed[i] < failed[j])
      && (forall k :: 0 <= k < |table| ==> (k in failed <==> NormaliseRow(table[k]).Err? || store[k].Rejected?))
  {
    MessagesFollowFailedRows(Outcomes(table, store));
  }

  /** With no failed row, every row's record is imported in order. */
  lemma {:induction false} NoRowFailed(os: seq<RowOutcome>)
    requires forall k :: 0 <= k < |os| ==> os[k].RowImported?
    ensures ErrorMessages(os) == []
    ensures |ImportedRecords(os)| == |os|
    ensures forall k :: 0 <= k < |os| ==> ImportedRecords(os)[k] == os[k].record
  {
    if os != [] {
      var n := |os| - 1;
      NoRowFailed(os[..n]);
    }
  }

  /** With a single failed row, it alone is missing and it alone is
      reported. */
  lemma {:induction false} OnlyOneRowFailed(os: seq<RowOutcome>, bad: nat)
    requires bad < |os| && os[bad].RowFailed?
    requires forall k :: 0 <= k < |os| && k != bad ==> os[k].RowImported?
    ensures |ImportedRecords(os)| == |os| - 1
    ensures ErrorMessages(os) == [os[bad].message]
  {
    var n := |os| - 1;
    if bad == n {
      NoRowFailed(os[..n]);
    } else {
      OnlyOneRowFailed(os[..n], bad);
    }
  }

  /** A table whose rows all normalise and are all stored imports every
      row, in order, with no errors. */
  lemma AllRowsImported(table: seq<Row>, store: seq<InsertOutcome>)
    requires |store| == |table|
    requires forall k :: 0 <= k < |table| ==> NormaliseRow(table[k]).Ok? && store[k] == Stored
    ensures ErrorMessages(Outcomes(table, store)) == []
    ensures |ImportedRecords(Outcomes(table, store))| == |table|
    ensures forall k :: 0 <= k < |table| ==> ImportedRecords(Outcomes(table, store))[k] == NormaliseRow(table[k]).value
  {
    NoRowFailed(Outcomes(table, store));
  }

  /** One rejected insert costs exactly that row: one message naming its
      line, and every other row is still imported. */
  lemma OneRejectedInsert(table: seq<Row>, store: seq<InsertOutcome>, bad: nat)
    requires |store| == |table| && bad < |table|
    requires forall k :: 0 <= k < |table| ==> NormaliseRow(table[k]).Ok?
    requires store[bad].Rejected?
    requires forall k :: 0 <= k < |table| && k != bad ==> store[k] == Stored
    ensures |ImportedRecords(Outcomes(table, store))| == |table| - 1
    ensures ErrorMessages(Outcomes(table, store)) == [RowError(bad, store[bad].reason)]
  {
    var os := Outcomes(table, store);
    OnlyOneRowFailed(os, bad);
    assert os[bad] == ProcessRow(bad, table[bad], store[bad]);
  }

  /** Extending the processed prefix by one row extends the imports or the
      messages by that row's outcome. */
  lemma PrefixStep(os: seq<RowOutcome>, index: nat)
    requires index < |os|
    ensures ImportedRecords(os[..index + 1]) ==
      ImportedRecords(os[..index]) + (if os[index].RowImported? then [os[index].record] else [])
    ensures ErrorMessages(os[..index + 1]) ==
      ErrorMessages(os[..index]) + (if os[index].RowFailed? then [os[index].message] else [])
  {
    assert os[..index + 1][..index] == os[..index];
  }

  /** The loop of `import_excel` over the already-filled table. */
  method ImportRows(table: seq<Row>, store: seq<InsertOutcome>) returns (response: ImportResponse, written: seq<ClientRecord>)
    requires |store| == |table|
    ensures response.success
    ensures written == ImportedRecords(Outcomes(table, store))
    ensures response.rowsImported == |written|
    ensures response.errors == ErrorMessages(Outcomes(table, store))
    ensures response.rowsImported + |response.errors| == |table|
  {
    ghost var os := Outcomes(table, store);
    var successCount: nat := 0;
    var rowErrors: seq<string> := [];
    written := [];
    var index := 0;
    while index < |table|
      invariant 0 <= index <= |table|
      invariant written == ImportedRecords(os[..index])
      invariant successCount == |written|
      invariant rowErrors == ErrorMessages(os[..index])
    {
      PrefixStep(os, index);
      assert os[index] == ProcessRow(index, table[index], store[index]);
      match NormaliseRow(table[index]) {
        case Ok(record) =>
          match store[index] {
            case Stored =>
              written := written + [record];
              successCount := successCount + 1;
            case Rejected(reason) =>
              rowErrors := rowErrors + [RowError(index, reason)];
          }
        case Err(detail) =>
          rowErrors := rowErrors + [RowError(index, detail)];
      }
      index := index + 1;
    }
    assert os[..index] == os;
    Conservation(os);
    response := ImportResponse(true, successCount, rowErrors);
  }

  /** What `import_excel` does once the password is accepted: a 400 for a
      file that cannot be read, otherwise one `fillna(0)` and the row loop. */
  method ImportUpload(upload: Upload, store: seq<InsertOutcome>) returns (outcome: ImportOutcome, written: seq<ClientRecord>)
    requires upload.Readable? ==> |store| == |upload.table|
    ensures upload.Unreadable? ==>
      outcome == BadRequest("Error processing file: " + upload.reason) && written == []
    ensures upload.Readable? ==>
      var os := Outcomes(FillTable(upload.table), store);
      && outcome.Imported?
      && outcome.response.success
      && outcome.response.rowsImported == |written|
      && outcome.response.rowsImported + |outcome.response.errors| == |upload.table|
      && outcome.response.errors == ErrorMessages(os)
      && written == ImportedRecords(os)
  {
    match upload {
      case Unreadable(reason) =>
        outcome, written := BadRequest("Error processing file: " + reason), [];
      case Readable(table) =>
        var filled := FillTable(table);
        var response;
        response, written := ImportRows(filled, store);
        outcome := Imported(response);
    }
  }

  /** `import_excel(file, password)` with the check as written: the request
      is refused only when the optional password differs from the optional
      `DEMO_PASSWORD`, so with both absent the file is read and its rows
      are written. */
  method ImportExcelAsWritten(upload: Upload, password: Option<string>, secret: Option<string>, store: seq<InsertOutcome>)
    returns (outcome: ImportOutcome, written: seq<ClientRecord>)
    requires upload.Readable? ==> |store| == |upload.table|
    ensures outcome == ImportUnauthorized <==> !AdmitsAsWritten(password, secret)
    ensures outcome == ImportUnauthorized ==> written == []
    ensures AdmitsAsWritten(password, secret) && upload.Unreadable? ==>
      outcome == BadRequest("Error processing file: " + upload.reason) && written == []
    ensures AdmitsAsWritten(password, secret) && upload.Readable? ==>
      var os := Outcomes(FillTable(upload.table), store);
      && outcome.Imported?
      && outcome.response.success
      && outcome.response.rowsImported == |written|
      && outcome.response.rowsImported + |outcome.response.errors| == |upload.table|
      && outcome.response.errors == ErrorMessages(os)
      && written == ImportedRecords(os)
    // in particular, no password and no secret still reads the file and writes its rows
    ensures password.None? && secret.None? && upload.Readable? ==>
      var os := Outcomes(FillTable(upload.table), store);
      && outcome.Imported?
      && outcome.response.success
      && outcome.response.rowsImported == |written|
      && outcome.response.errors == ErrorMessages(os)
      && written == ImportedRecords(os)
  {
    if !AdmitsAsWritten(password, secret) {
      return ImportUnauthorized, [];
    }
    outcome, written := ImportUpload(upload, store);
  }

  /** `import_excel(file, password)` with the corrected check: an unset
      `DEMO_PASSWORD` refuses every request. `secret` is `DEMO_PASSWORD`,
      absent when unset; `store[k]` is the store's answer to row `k`'s
      insert. */
  method ImportExcel(upload: Upload, password: Option<string>, secret: Option<string>, store: seq<InsertOutcome>)
    returns (outcome: ImportOutcome, written: seq<ClientRecord>)
    requires upload.Readable? ==> |store| == |upload.table|
    ensures outcome == ImportUnauthorized <==> !Admits(password, secret)
    ensures !Admits(password, secret) ==> written == []
    ensures secret.None? ==> outcome == ImportUnauthorized && written == []
    ensures Admits(password, secret) && upload.Unreadable? ==>
      outcome == BadRequest("Error processing file: " + upload.reason) && written == []
    ensures Admits(password, secret) && upload.Readable? ==>
      var os := Outcomes(FillTable(upload.table), store);
      && outcome.Imported?
      && outcome.response.success
      && outcome.response.rowsImported == |written|
      && outcome.response.rowsImported + |outcome.response.errors| == |upload.table|
      && outcome.response.errors == ErrorMessages(os)
      && written == ImportedRecords(os)
  {
    if !Admits(password, secret) {
      return ImportUnauthorized, [];
    }
    outcome, written := ImportUpload(upload, store);
  }
}
