/**
 * The two click handlers of the IMOB uploader and the buffer they share,
 * `globalRowsToInsert`. `handleProcessData` validates the form, parses the
 * pasted text, asks the store which keys exist and which `lojas` rows match,
 * and fills the buffer with the transformed new rows; `handleInsertData` sends
 * the buffer in one insert and empties it only when the insert succeeds. The
 * store's answers are parameters.
 */
module ImobImporter {
  import opened JsText
  import opened ImobSchema
  import opened ImobParser
  import opened ImobPipeline

  /** The `{ data, error }` answer of one store query: its data, or the error's message. */
  datatype Reply<T> = Ok(data: T) | Err(message: string)

  /** How a processing run ends, as `previewSummary` reports it. */
  datatype ProcessOutcome =
    | NoData                         // 'Nenhum dado colado.'
    | MissingFilters                 // 'Preencha a Empresa e o Produto.'
    | Failed(message: string)        // `Erro: ${error.message}`
    | Ready(rows: seq<Row>, totalParsed: nat)

  const NoKeysMessage := "Nenhum 'SEQMOVIMENTAÇÃO' válido encontrado."
  const LojasErrorPrefix := "Erro ao buscar 'lojas': "

  /** `newRows.map(...)`: each new row through the formulas and the conversion loop, in order. */
  function TransformAll(rows: seq<Row>, ctx: Context): (out: seq<Row>)
    requires AllRaw(rows)
    ensures |out| == |rows|
    ensures forall j :: 0 <= j < |out| ==> HasAllColumns(out[j])
  {
    var out := seq(|rows|, j requires 0 <= j < |rows| => Transformed(rows[j], ctx));
    assert forall j :: 0 <= j < |out| ==> HasAllColumns(out[j]) by {
      forall j | 0 <= j < |out| ensures HasAllColumns(out[j]) {
        TransformedHasAllColumns(rows[j], ctx);
      }
    }
    out
  }

  /**
   * `lojaLookup`: empty when no id survived `parseInt` (no query is made), the
   * map built from the returned rows otherwise.
   */
  function LookupFor(uniqueIds: seq<int>, lojas: Reply<seq<LojaRow>>): Lookup
    requires uniqueIds != [] ==> lojas.Ok?
  {
    if uniqueIds == [] then map[] else LookupOf(lojas.data)
  }

  /** The parsed records, every one a raw record. */
  function ParsedRows(rawData: string): (rows: seq<Row>)
    ensures rows == ParsePastedData(rawData)
    ensures forall j :: 0 <= j < |rows| ==> IsRawRecord(rows[j])
  {
    ParsedRecords(rawData);
    ParsePastedData(rawData)
  }

  predicate AllRaw(rows: seq<Row>) {
    forall j :: 0 <= j < |rows| ==> IsRawRecord(rows[j])
  }

  /**
   * `handleProcessData`, from the form's values and the store's answers to the
   * two queries: the existence query over the parsed keys and the `lojas`
   * query over the supplier ids. The checks run in the source's order.
   */
  function Process(rawData: string, empresa: string, produto: string,
                   existing: Reply<seq<int>>, lojas: Reply<seq<LojaRow>>, currentYear: int): (r: ProcessOutcome)
    ensures r == NoData <==> rawData == ""
    ensures r == MissingFilters <==> rawData != "" && (empresa == "" || produto == "")
    ensures r.Ready? ==> existing.Ok? && r.totalParsed == |ParsePastedData(rawData)| && |r.rows| <= r.totalParsed
  {
    if rawData == "" then NoData
    else if empresa == "" || produto == "" then MissingFilters
    else Validate(ParsedRows(rawData), empresa, produto, existing, lojas, currentYear)
  }

  /**
   * From the parsed records on: no usable key stops the run before any query;
   * a failed existence query stops it with the store's message.
   */
  function Validate(parsed: seq<Row>, empresa: string, produto: string,
                    existing: Reply<seq<int>>, lojas: Reply<seq<LojaRow>>, currentYear: int): (r: ProcessOutcome)
    requires AllRaw(parsed)
    ensures r.Failed? || r.Ready?
    ensures SeqList(parsed) == [] ==> r == Failed(NoKeysMessage)
    ensures SeqList(parsed) != [] && existing.Err? ==> r == Failed(existing.message)
    ensures r.Ready? ==> existing.Ok? && r.totalParsed == |parsed| && |r.rows| <= |parsed|
    ensures SeqList(parsed) != [] && existing.Ok? ==>
      && AllKeyed(parsed)
      && AllRaw(FilterNew(parsed, ExistingKeySet(existing.data)))
      && r == JoinLojas(FilterNew(parsed, ExistingKeySet(existing.data)), |parsed|, empresa, produto, lojas, currentYear)
  {
    if SeqList(parsed) == [] then Failed(NoKeysMessage)
    else match existing
      case Err(m) => Failed(m)
      case Ok(stored) =>
        FilterNewRaw(parsed, ExistingKeySet(stored));
        JoinLojas(FilterNew(parsed, ExistingKeySet(stored)), |parsed|, empresa, produto, lojas, currentYear)
  }

  /**
   * A ready run is the `lojas` join over the parsed rows the existence query
   * did not report, counted against every parsed row.
   */
  lemma ProcessReady(rawData: string, empresa: string, produto: string,
                     existing: Reply<seq<int>>, lojas: Reply<seq<LojaRow>>, currentYear: int)
    requires Process(rawData, empresa, produto, existing, lojas, currentYear).Ready?
    ensures existing.Ok? && AllKeyed(ParsePastedData(rawData))
    ensures var parsed := ParsePastedData(rawData);
      var newRows := FilterNew(parsed, ExistingKeySet(existing.data));
      AllRaw(newRows)
      && Process(rawData, empresa, produto, existing, lojas, currentYear)
         == JoinLojas(newRows, |parsed|, empresa, produto, lojas, currentYear)
  {
    var parsed := ParsedRows(rawData);
    FilterNewRaw(parsed, ExistingKeySet(existing.data));
  }

  /** The filter keeps parsed records only. */
  lemma FilterNewRaw(rows: seq<Row>, existing: set<string>)
    requires AllRaw(rows)
    ensures AllKeyed(rows) && AllRaw(FilterNew(rows, existing))
  {
    var kept := FilterNew(rows, existing);
    forall j | 0 <= j < |kept| ensures IsRawRecord(kept[j]) {
      assert kept[j] in rows;
    }
  }

  /**
   * From the new rows on: the `lojas` query is made only when some supplier id
   * survives `parseInt`, and its failure stops the run; otherwise every new
   * row is transformed against the lookup and the run is ready.
   */
  function JoinLojas(newRows: seq<Row>, totalParsed: nat, empresa: string, produto: string,
                     lojas: Reply<seq<LojaRow>>, currentYear: int): (r: ProcessOutcome)
    requires AllRaw(newRows)
    ensures r.Failed? <==> UniqueIds(IdStrings(newRows)) != [] && lojas.Err?
    ensures r.Failed? ==> r.message == LojasErrorPrefix + lojas.message
    ensures !r.Failed? ==> r.Ready? && r.totalParsed == totalParsed && |r.rows| == |newRows|
  {
    var uniqueIds := UniqueIds(IdStrings(newRows));
    if uniqueIds != [] && lojas.Err? then Failed(LojasErrorPrefix + lojas.message)
    else Ready(TransformAll(newRows, Context(empresa, produto, LookupFor(uniqueIds, lojas), currentYear)), totalParsed)
  }

  /** `duplicateCount = totalParsed - rows.length`, as the preview reports it. */
  function DuplicateCount(o: ProcessOutcome): int
    requires o.Ready?
  {
    o.totalParsed - |o.rows|
  }

  /**
   * The preview's "já existem no banco" count is never negative: it is the
   * number of parsed rows the filter left out, their key stored or empty.
   */
  lemma DuplicateCountSpec(parsed: seq<Row>, empresa: string, produto: string,
                           stored: seq<int>, lojas: Reply<seq<LojaRow>>, currentYear: int)
    requires AllRaw(parsed) && Validate(parsed, empresa, produto, Ok(stored), lojas, currentYear).Ready?
    ensures AllKeyed(parsed)
    ensures DuplicateCount(Validate(parsed, empresa, produto, Ok(stored), lojas, currentYear))
      == CountNotNew(parsed, ExistingKeySet(stored)) >= 0
  {
    var newRows := FilterNew(parsed, ExistingKeySet(stored));
    FilterNewRaw(parsed, ExistingKeySet(stored));
    assert Validate(parsed, empresa, produto, Ok(stored), lojas, currentYear)
        == JoinLojas(newRows, |parsed|, empresa, produto, lojas, currentYear);
  }

  /**
   * A ready run holds every new row, in order, with all twenty columns; row j
   * is new row j through the formulas and the conversion, against an empty
   * lookup when no supplier id was found and the `lojas` rows otherwise.
   */
  lemma ReadyRows(newRows: seq<Row>, totalParsed: nat, empresa: string, produto: string,
                  lojas: Reply<seq<LojaRow>>, currentYear: int)
    requires AllRaw(newRows) && JoinLojas(newRows, totalParsed, empresa, produto, lojas, currentYear).Ready?
    ensures var r := JoinLojas(newRows, totalParsed, empresa, produto, lojas, currentYear);
      var lookup := if UniqueIds(IdStrings(newRows)) == [] then map[] else LookupOf(lojas.data);
      && |r.rows| == |newRows|
      && (forall j :: 0 <= j < |r.rows| ==> HasAllColumns(r.rows[j]))
      && (forall j :: 0 <= j < |r.rows| ==> r.rows[j] == Transformed(newRows[j], Context(empresa, produto, lookup, currentYear)))
  {
  }

  /**
   * Without a parseable supplier id among the new rows the `lojas` query is
   * not made: its answer, failure included, does not change the run.
   */
  lemma LojasUnusedWithoutIds(newRows: seq<Row>, totalParsed: nat, empresa: string, produto: string,
                              lojas1: Reply<seq<LojaRow>>, lojas2: Reply<seq<LojaRow>>, currentYear: int)
    requires AllRaw(newRows) && UniqueIds(IdStrings(newRows)) == []
    ensures JoinLojas(newRows, totalParsed, empresa, produto, lojas1, currentYear)
         == JoinLojas(newRows, totalParsed, empresa, produto, lojas2, currentYear)
  {
  }

  /**
   * Pasted text made of white space only is not "no data", but it trims to a
   * single empty line whose key is empty: the run stops before any query.
   */
  lemma BlankInputHasNoKeys(rawData: string, empresa: string, produto: string,
                            existing: Reply<seq<int>>, lojas: Reply<seq<LojaRow>>, currentYear: int)
    requires rawData != "" && Trim(rawData) == "" && empresa != "" && produto != ""
    ensures Process(rawData, empresa, produto, existing, lojas, currentYear) == Failed(NoKeysMessage)
  {
    BlankParsesToEmptyKey(rawData);
  }

  /** Blank text parses to one record, and its key is the empty string. */
  lemma BlankParsesToEmptyKey(rawData: string)
    requires Trim(rawData) == ""
    ensures AllKeyed(ParsePastedData(rawData)) && SeqList(ParsePastedData(rawData)) == []
  {
    var parsed := ParsePastedData(rawData);
    BlankIsOneLine(rawData);
    EmptyLineHasEmptyKey();
    assert parsed[1..] == [];
  }

  lemma BlankIsOneLine(rawData: string)
    requires Trim(rawData) == ""
    ensures |ParsePastedData(rawData)| == 1 && ParsePastedData(rawData)[0] == ParseLine("")
  {
    assert FindFrom("", "\n", 0) == None;
    assert Split("", "\n") == [""];
    var lines := Lines(rawData);
    assert lines == [""];
    assert ParsePastedData(rawData)[0] == ParseLine(lines[0]);
  }

  lemma EmptyLineHasEmptyKey()
    ensures SeqMovimentacao in ParseLine("") && ParseLine("")[SeqMovimentacao] == Str("")
  {
    ParseLineShape("");
    assert Split("", "\t") == [""];
  }

  /** How `handleInsertData` ends, as `insertStatus` reports it. */
  datatype InsertOutcome =
    | NothingToInsert                // 'Não há linhas novas para inserir.'
    | Inserted(count: nat)           // `${n} linhas inseridas com sucesso!`
    | InsertFailed(message: string)  // `Erro ao inserir: ${error.message}`

  /**
   * One insert of the buffer, from the store's answer to it: the outcome and
   * the buffer afterwards. An empty buffer sends nothing; a success reports
   * the rows sent and empties the buffer; a failure keeps every row.
   */
  function Insert(pending: seq<Row>, insertError: Option<string>): (r: (InsertOutcome, seq<Row>))
    ensures pending == [] ==> r == (NothingToInsert, pending)
    ensures pending != [] && insertError.None? ==> r.0 == Inserted(|pending|) && r.1 == []
    ensures pending != [] && insertError.Some? ==> r.0 == InsertFailed(insertError.value) && r.1 == pending
  {
    if pending == [] then (NothingToInsert, pending)
    else match insertError
      case None => (Inserted(|pending|), [])
      case Some(m) => (InsertFailed(m), pending)
  }

  /** Inserting a freshly emptied buffer again does nothing. */
  lemma InsertAfterSuccess(pending: seq<Row>, next: Option<string>)
    requires pending != []
    ensures Insert(Insert(pending, None).1, next) == (NothingToInsert, [])
  {
  }

  /** A failed insert can be retried: the retry sends the very same rows. */
  lemma InsertRetry(pending: seq<Row>, message: string, next: Option<string>)
    ensures Insert(Insert(pending, Some(message)).1, next) == Insert(pending, next)
  {
  }

  /**
   * Steps 4 and 5 of `handleProcessData`: collect the supplier ids, query
   * `lojas` only when one survives `parseInt`, build the lookup, and map the
   * new rows through the transform.
   */
  method JoinAndTransform(newRows: seq<Row>, totalParsed: nat, empresa: string, produto: string,
                          lojas: Reply<seq<LojaRow>>, currentYear: int) returns (outcome: ProcessOutcome)
    requires AllRaw(newRows)
    ensures outcome == JoinLojas(newRows, totalParsed, empresa, produto, lojas, currentYear)
  {
    var ids := CollectIds(newRows);
    var uniqueIds := UniqueIds(ids);
    var lojaLookup: Lookup := map[];
    if uniqueIds != [] {
      if lojas.Err? {
        outcome := Failed(LojasErrorPrefix + lojas.message);
        return;
      }
      lojaLookup := BuildLookup(lojas.data);
    }
    var ctx := Context(empresa, produto, lojaLookup, currentYear);
    assert ctx == Context(empresa, produto, LookupFor(uniqueIds, lojas), currentYear);
    var rows := TransformRows(newRows, ctx);
    assert rows == TransformAll(newRows, ctx);
    outcome := Ready(rows, totalParsed);
  }

  /** The uploader's state: the buffer `globalRowsToInsert`. */
  class Importer {
    var pending: seq<Row>

    /** The buffer starts empty (`let globalRowsToInsert = []`). */
    constructor()
      ensures pending == []
    {
      pending := [];
    }

    /**
     * `handleProcessData`: the outcome is Process's, and only a ready run
     * replaces the buffer; every early return and every error leaves it as it
     * was.
     */
    method ProcessData(rawData: string, empresa: string, produto: string,
                       existing: Reply<seq<int>>, lojas: Reply<seq<LojaRow>>, currentYear: int)
      returns (outcome: ProcessOutcome)
      modifies this
      ensures outcome == Process(rawData, empresa, produto, existing, lojas, currentYear)
      ensures outcome.Ready? ==> pending == outcome.rows
      ensures !outcome.Ready? ==> pending == old(pending)
    {
      if rawData == "" {
        outcome := NoData;
        return;
      }
      if empresa == "" || produto == "" {
        outcome := MissingFilters;
        return;
      }
      var allParsedRows := ParsedRows(rawData);
      var seqList := SeqList(allParsedRows);
      if seqList == [] {
        outcome := Failed(NoKeysMessage);
        return;
      }
      if existing.Err? {
        outcome := Failed(existing.message);
        return;
      }
      var newRows := FilterNew(allParsedRows, ExistingKeySet(existing.data));
      FilterNewRaw(allParsedRows, ExistingKeySet(existing.data));
      assert Validate(allParsedRows, empresa, produto, existing, lojas, currentYear)
          == JoinLojas(newRows, |allParsedRows|, empresa, produto, lojas, currentYear);
      outcome := JoinAndTransform(newRows, |allParsedRows|, empresa, produto, lojas, currentYear);
      if outcome.Ready? {
        pending := outcome.rows;
      }
    }

    /**
     * `handleInsertData`, given the store's answer to inserting the whole
     * buffer in one call: it does what Insert says.
     */
    method InsertData(insertError: Option<string>) returns (outcome: InsertOutcome)
      modifies this
      ensures (outcome, pending) == Insert(old(pending), insertError)
    {
      if pending == [] {
        outcome := NothingToInsert;
        return;
      }
      match insertError
      case Some(m) =>
        outcome := InsertFailed(m);
      case None =>
        outcome := Inserted(|pending|);
        pending := [];
    }
  }
}
