/** The values both endpoints pass around: spreadsheet cells, the
    `contract_details` bag, the record the importer writes and the row the
    store hands back to a search. */
module Records {

  datatype Option<+T> = None | Some(value: T)

  datatype Result<+T, +E> = Ok(value: T) | Err(error: E)

  /** One spreadsheet cell as pandas holds it after `read_excel`: missing
      (`NaN`), or a value whose `str()` rendering is `shown` and for which
      `float()` succeeds exactly when `numeric` holds. */
  datatype Cell = Blank | Value(shown: string, numeric: bool)

  /** The floating-point number `float()` yields for a cell. Its value is not
      computed: the model only records which cell it came from. */
  datatype Float = FloatOf(source: Cell)

  /** The fixed keys the importer writes under `contract_details`. */
  datatype ContractDetails = ContractDetails(
    id: string,
    dataVenda: string,
    unidade: string,
    cliente: string,
    valorLiquido: Float,
    procedimentoProduto: string,
    quantidade: Float,
    valorTabelaItem: Float,
    descontoItemPercentual: Float,
    valorDescontoItem: Float,
    valorLiquidoItem: Float,
    mesVenda: string,
    anoVenda: string,
    telefone: string)

  /** What one import row sends to the `clients` table. */
  datatype ClientRecord = ClientRecord(
    cpf: string,
    name: string,
    status: string,
    contractDetails: ContractDetails)

  /** A row of the `clients` table as a query returns it; the two
      timestamps are filled in by the store. */
  datatype StoredClient = StoredClient(
    cpf: string,
    name: string,
    contractDetails: ContractDetails,
    status: string,
    createdAt: string,
    updatedAt: string)
}
