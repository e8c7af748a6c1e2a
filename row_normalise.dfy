/** How the importer turns one spreadsheet row into a client record: the
    blanket `fillna(0)` over the table, the trimmed top-level fields, the
    fixed `contract_details` key mapping, and the six `float()` coercions
    that can make a row fail. */
module RowNormalise {
  import opened Text
  import opened Records

  /** A row as `iterrows` yields it: column header to cell. */
  type Row = map<string, Cell>

  /** The cell `fillna(0)` puts where a value was missing. */
  const ZeroCell: Cell := Value("0", true)

  /** The empty-text default for absent text columns: it renders as the
      empty text, and `float()` rejects it. */
  const EmptyText: Cell := Value("", false)

  /** `fillna(0)` on one row. */
  function FillNa(row: Row): (r: Row)
    ensures r.Keys == row.Keys
    ensures forall c :: c in r ==> !r[c].Blank?
    ensures forall c :: c in row && !row[c].Blank? ==> r[c] == row[c]
  {
    map c | c in row :: if row[c].Blank? then ZeroCell else row[c]
  }

  /** `fillna(0)` on the whole table, before any row is read. */
  function FillTable(table: seq<Row>): (r: seq<Row>)
    ensures |r| == |table|
    ensures forall k :: 0 <= k < |table| ==> r[k] == FillNa(table[k])
  {
    seq(|table|, k requires 0 <= k < |table| => FillNa(table[k]))
  }

  /** A row's cell for a column, or `default` when the column is absent. */
  function Get(row: Row, column: string, default: Cell): Cell {
    if column in row then row[column] else default
  }

  /** `str(cell)`; a missing value renders as `nan`. */
  function Str(c: Cell): string {
    match c
    case Blank => "nan"
    case Value(shown, _) => shown
  }

  /** `float(cell)` succeeds; `float(nan)` does too. */
  predicate Coercible(c: Cell) {
    c.Blank? || c.numeric
  }

  const FloatErrorPrefix: string := "could not convert string to float: '"

  /** The text of the `ValueError` that `float()` raises: a fixed prefix,
      then the rejected cell's rendering between quotes. */
  function CoercionError(c: Cell): (e: string)
    ensures |e| == |FloatErrorPrefix| + |Str(c)| + 1
    ensures e[..|FloatErrorPrefix|] == FloatErrorPrefix && e[|e| - 1] == '\''
    ensures e[|FloatErrorPrefix|..|e| - 1] == Str(c)
  {
    FloatErrorPrefix + Str(c) + "'"
  }

  /** The text of `cpf`, `name` and `status`: the column's cell (the empty
      text when the column is absent) rendered and trimmed, or the empty
      text when the cell is missing. */
  function TopLevelText(row: Row, column: string): (t: string)
    ensures column !in row ==> t == ""
    ensures column in row && row[column].Blank? ==> t == ""
    ensures column in row && row[column].Value? ==> t == Strip(row[column].shown)
    ensures t != [] ==> !IsWhitespace(t[0]) && !IsWhitespace(t[|t| - 1])
  {
    var c := Get(row, column, EmptyText);
    if !c.Blank? then Strip(Str(c)) else ""
  }

  /** The text keys of `contract_details`: the cell (the empty text when
      the column is absent) rendered, without trimming. */
  function DetailText(row: Row, column: string): (t: string)
    ensures column !in row ==> t == ""
    ensures column in row && row[column].Blank? ==> t == "nan"
    ensures column in row && row[column].Value? ==> t == row[column].shown
  {
    Str(Get(row, column, EmptyText))
  }

  /** The cell a numeric key is coerced from: zero when the column is
      absent. */
  function NumericCell(row: Row, column: string): Cell {
    Get(row, column, ZeroCell)
  }

  /** The numeric columns in the order the record literal evaluates them. */
  const NumericColumns: seq<string> := [
    "Valor Líquido", "Quantidade", "Valor Tabela Item",
    "% Desconto Item", "Valor Desconto Item", "Valor Líquido Item"]

  /** The first of `columns` whose cell `float()` rejects. */
  function FirstUncoercible(row: Row, columns: seq<string>): (r: Option<nat>)
    ensures r.None? <==> forall k :: 0 <= k < |columns| ==> Coercible(NumericCell(row, columns[k]))
    ensures r.Some? ==> r.value < |columns| && !Coercible(NumericCell(row, columns[r.value]))
    ensures r.Some? ==> forall k :: 0 <= k < r.value ==> Coercible(NumericCell(row, columns[k]))
  {
    if columns == [] then None
    else if !Coercible(NumericCell(row, columns[0])) then Some(0)
    else
      match FirstUncoercible(row, columns[1..])
      case None => None
      case Some(k) => Some(k + 1)
  }

  /** The `data` dictionary built for one row, or the text of the exception
      raised while building it: the first numeric column, in evaluation
      order, whose cell `float()` rejects. */
  function NormaliseRow(row: Row): (r: Result<ClientRecord, string>)
    ensures r.Ok? <==> forall k :: 0 <= k < |NumericColumns| ==> Coercible(NumericCell(row, NumericColumns[k]))
    ensures r.Err? ==>
      exists k :: 0 <= k < |NumericColumns| && !Coercible(NumericCell(row, NumericColumns[k])) &&
                  (forall j :: 0 <= j < k ==> Coercible(NumericCell(row, NumericColumns[j]))) &&
                  r.error == CoercionError(NumericCell(row, NumericColumns[k]))
    ensures r.Ok? ==>
      && r.value.cpf == TopLevelText(row, "CPF")
      && r.value.name == TopLevelText(row, "Cliente")
      && r.value.status == TopLevelText(row, "Status")
  {
    match FirstUncoercible(row, NumericColumns)
    case Some(k) => Err(CoercionError(NumericCell(row, NumericColumns[k])))
    case None =>
      Ok(ClientRecord(
        TopLevelText(row, "CPF"),
        TopLevelText(row, "Cliente"),
        TopLevelText(row, "Status"),
        ContractDetails(
          DetailText(row, "ID"),
          DetailText(row, "Data Venda"),
          DetailText(row, "Unidade"),
          DetailText(row, "Cliente"),
          FloatOf(NumericCell(row, "Valor Líquido")),
          DetailText(row, "Procedimento / Produto"),
          FloatOf(NumericCell(row, "Quantidade")),
          FloatOf(NumericCell(row, "Valor Tabela Item")),
          FloatOf(NumericCell(row, "% Desconto Item")),
          FloatOf(NumericCell(row, "Valor Desconto Item")),
          FloatOf(NumericCell(row, "Valor Líquido Item")),
          DetailText(row, "Mês Venda"),
          DetailText(row, "Ano Venda"),
          DetailText(row, "Telefone"))))
  }

  /** After `fillna(0)` the top-level texts come out as: `''` only for an
      absent column, the text `0` for a blank cell of a present column, and
      the trimmed rendering otherwise. */
  lemma TopLevelTextAfterFill(row: Row, column: string)
    ensures column !in row ==> TopLevelText(FillNa(row), column) == ""
    ensures column in row && row[column].Blank? ==> TopLevelText(FillNa(row), column) == "0"
    ensures column in row && row[column].Value? ==> TopLevelText(FillNa(row), column) == Strip(row[column].shown)
  {
    if column !in row {
      assert Strip("") == "";
    } else if row[column].Blank? {
      assert Strip("0") == "0" by {
        assert [] + "0" + [] == "0";
        StripPadded([], "0", []);
      }
    }
  }

  /** After `fillna(0)` a row fails exactly when one of the six numeric
      columns is present and holds a value `float()` rejects; blanks and
      absent columns never make it fail. */
  lemma FilledRowFailsOnlyOnBadNumber(row: Row)
    ensures NormaliseRow(FillNa(row)).Err? <==>
      exists k :: 0 <= k < |NumericColumns| && NumericColumns[k] in row &&
        row[NumericColumns[k]].Value? && !row[NumericColumns[k]].numeric
  {
    var filled := FillNa(row);
    forall k | 0 <= k < |NumericColumns|
      ensures Coercible(NumericCell(filled, NumericColumns[k])) <==>
        !(NumericColumns[k] in row && row[NumericColumns[k]].Value? && !row[NumericColumns[k]].numeric)
    {
    }
  }

  /** The record's `name` is the trimmed form of the untrimmed
      `contract_details.cliente` it carries. */
  lemma NameIsTrimmedCliente(row: Row)
    requires NormaliseRow(FillNa(row)).Ok?
    ensures NormaliseRow(FillNa(row)).value.name == Strip(NormaliseRow(FillNa(row)).value.contractDetails.cliente)
  {
    assert Strip("") == "";
  }
}
