/**
 * The fixed layout of the IMOB movement table: the eleven positional columns
 * of a pasted line (COLUMN_MAP), the columns the transform derives, and the
 * type table (COLUMN_TYPES) that decides which cells are coerced.
 */
module ImobSchema {
  import opened JsText
  import opened JsNumber

  /**
   * Every column a row object can hold. JavaScript keys the row object by the
   * column's name string; `Name` gives that exact string.
   */
  datatype Column =
    // the positional columns, in COLUMN_MAP order
    | SeqMovimentacao | Data | Tipo | Doc | Quantidade | Local | Saldo | Operacao
    | IdFornecedor | Data2 | Usuario
    // the columns the transform adds
    | Emp | Produto | Id | Fornecedor | Ano | Coluna1 | Coluna2 | Loja | Segmento
  {
    function Name(): string {
      match this
      case SeqMovimentacao => "SEQMOVIMENTAÇÃO"
      case Data => "DATA"
      case Tipo => "TIPO"
      case Doc => "DOC"
      case Quantidade => "QUANTIDADE"
      case Local => "LOCAL"
      case Saldo => "SALDO"
      case Operacao => "OPERAÇÃO"
      case IdFornecedor => "ID - Fornecedor"
      case Data2 => "data2"
      case Usuario => "usuario"
      case Emp => "Emp"
      case Produto => "Produto"
      case Id => "ID"
      case Fornecedor => "fornecedor"
      case Ano => "ano"
      case Coluna1 => "Coluna1"
      case Coluna2 => "Coluna2"
      case Loja => "loja"
      case Segmento => "Segmento"
    }
  }

  /** COLUMN_MAP: the column each tab-separated field position feeds. */
  const ColumnMap: seq<Column> :=
    [SeqMovimentacao, Data, Tipo, Doc, Quantidade, Local, Saldo, Operacao,
     IdFornecedor, Data2, Usuario]

  /** The key set of a freshly parsed record. */
  const RawColumns: set<Column> :=
    {SeqMovimentacao, Data, Tipo, Doc, Quantidade, Local, Saldo, Operacao,
     IdFornecedor, Data2, Usuario}

  /** The columns the transform adds to a record. */
  const DerivedColumns: set<Column> :=
    {Emp, Produto, Id, Fornecedor, Ano, Coluna1, Coluna2, Loja, Segmento}

  /** A column of COLUMN_MAP, as opposed to one the transform adds. */
  predicate IsPositional(c: Column) {
    !(c.Emp? || c.Produto? || c.Id? || c.Fornecedor? || c.Ano?
      || c.Coluna1? || c.Coluna2? || c.Loja? || c.Segmento?)
  }

  lemma RawColumnsArePositional()
    ensures forall c :: c in RawColumns <==> IsPositional(c)
    ensures forall c :: c in DerivedColumns <==> !IsPositional(c)
  {
  }

  datatype ColumnType = BigInt | Timestamp

  /** COLUMN_TYPES; a column it does not list is passed through as it is. */
  function TypeOf(c: Column): Option<ColumnType> {
    match c
    case SeqMovimentacao | Doc | Quantidade | Saldo | Id | Emp | Ano => Some(BigInt)
    case Data | Data2 => Some(Timestamp)
    case _ => None
  }

  /** The columns COLUMN_TYPES lists, in its declaration order. */
  const TypedColumns: seq<Column> :=
    [SeqMovimentacao, Doc, Quantidade, Saldo, Id, Emp, Ano, Data, Data2]

  /**
   * A cell of a row object. Before coercion a cell holds a string or null;
   * `parseInt` puts numbers into the bigint columns.
   */
  datatype Value = Null | Str(s: string) | Int(n: int)

  /** A row object, keyed by column. */
  type Row = map<Column, Value>

  /** JavaScript truthiness of a cell: null, "" and 0 are falsy. */
  predicate Truthy(v: Value) {
    match v
    case Null => false
    case Str(s) => s != ""
    case Int(n) => n != 0
  }

  /** `String(v)`. */
  function ToJsString(v: Value): string {
    match v
    case Null => "null"
    case Str(s) => s
    case Int(n) => IntToString(n)
  }

  /** A record as the parser builds it: exactly the positional columns, each a string or null. */
  predicate IsRawRecord(row: Row) {
    forall c :: (c in row <==> IsPositional(c)) && (c in row ==> !row[c].Int?)
  }

  /** A transformed row holds every column, positional and derived. */
  predicate HasAllColumns(row: Row) {
    forall c: Column :: c in row
  }

  /** The field position of a positional column (its index in COLUMN_MAP). */
  function Position(c: Column): (i: nat)
    requires IsPositional(c)
    ensures i < |ColumnMap| && ColumnMap[i] == c
  {
    match c
    case SeqMovimentacao => 0
    case Data => 1
    case Tipo => 2
    case Doc => 3
    case Quantidade => 4
    case Local => 5
    case Saldo => 6
    case Operacao => 7
    case IdFornecedor => 8
    case Data2 => 9
    case Usuario => 10
  }

  /** Position and COLUMN_MAP are inverse to each other. */
  lemma PositionOfColumnMap()
    ensures forall i :: 0 <= i < |ColumnMap| ==> IsPositional(ColumnMap[i]) && Position(ColumnMap[i]) == i
  {
  }

  /** The index of a typed column in TypedColumns. */
  function TypeIndex(c: Column): (i: nat)
    requires TypeOf(c).Some?
    ensures i < |TypedColumns| && TypedColumns[i] == c
  {
    match c
    case SeqMovimentacao => 0
    case Doc => 1
    case Quantidade => 2
    case Saldo => 3
    case Id => 4
    case Emp => 5
    case Ano => 6
    case Data => 7
    case Data2 => 8
  }

  lemma TypeIndexOfTypedColumns()
    ensures forall i :: 0 <= i < |TypedColumns| ==> TypeOf(TypedColumns[i]).Some? && TypeIndex(TypedColumns[i]) == i
  {
  }
}
