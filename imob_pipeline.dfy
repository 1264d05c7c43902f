/**
 * The body of `handleProcessData` between parsing and the preview: the
 * duplicate filter against the keys already stored, the "PROCV" join against
 * table `lojas`, and the per-row formulas and type coercion. The answers of
 * the remote store are inputs here.
 */
module ImobPipeline {
  import opened JsText
  import opened JsNumber
  import opened BrlDate
  import opened ImobSchema

  // ---------------------------------------------------------------------------
  // Duplicate filter
  // ---------------------------------------------------------------------------

  /** `String(row['SEQMOVIMENTAÇÃO'])`: a null key becomes the text "null". */
  function KeyOf(row: Row): string
    requires SeqMovimentacao in row
  {
    ToJsString(row[SeqMovimentacao])
  }

  /**
   * `new Set(existingRows.map(row => String(row['SEQMOVIMENTAÇÃO'])))`: the
   * stored keys, which are bigints, in their decimal spelling.
   */
  function ExistingKeySet(existing: seq<int>): (keys: set<string>)
    ensures forall n :: n in existing ==> IntToString(n) in keys
    ensures forall k :: k in keys ==> exists i :: 0 <= i < |existing| && IntToString(existing[i]) == k
  {
    set i | 0 <= i < |existing| :: IntToString(existing[i])
  }

  /** The filter's test: a key that is non-empty and not already stored. */
  predicate IsNew(row: Row, existing: set<string>)
    requires SeqMovimentacao in row
  {
    KeyOf(row) != "" && KeyOf(row) !in existing
  }

  predicate AllKeyed(rows: seq<Row>) {
    forall j :: 0 <= j < |rows| ==> SeqMovimentacao in rows[j]
  }

  /** `a` is `b` with some elements left out, the rest in their order. */
  ghost predicate IsSubsequence<T>(a: seq<T>, b: seq<T>)
    decreases |b|
  {
    || a == []
    || (b != [] && ((a[0] == b[0] && IsSubsequence(a[1..], b[1..])) || IsSubsequence(a, b[1..])))
  }

  /** How many rows the filter leaves out. */
  function CountNotNew(rows: seq<Row>, existing: set<string>): nat
    requires AllKeyed(rows)
  {
    if rows == [] then 0
    else (if IsNew(rows[0], existing) then 0 else 1) + CountNotNew(rows[1..], existing)
  }

  /**
   * `allParsedRows.filter(...)`: the rows whose key is new, in input order.
   * Every row whose key passes the test is kept, every kept row passes it, and
   * the left-out rows are exactly those that fail it.
   */
  function FilterNew(rows: seq<Row>, existing: set<string>): (r: seq<Row>)
    requires AllKeyed(rows)
    ensures IsSubsequence(r, rows)
    ensures forall x :: x in r ==> x in rows
    ensures AllKeyed(r) && forall j :: 0 <= j < |r| ==> IsNew(r[j], existing)
    ensures forall j :: 0 <= j < |rows| && IsNew(rows[j], existing) ==> rows[j] in r
    ensures |rows| - |r| == CountNotNew(rows, existing)
  {
    if rows == [] then []
    else
      var rest := FilterNew(rows[1..], existing);
      if IsNew(rows[0], existing) then [rows[0]] + rest else rest
  }

  /**
   * A row without a key is kept as new whatever is stored: its key reads
   * "null", and no stored bigint is spelled that way.
   */
  lemma NullKeyIsNew(row: Row, existing: seq<int>)
    requires SeqMovimentacao in row && row[SeqMovimentacao] == Null
    ensures IsNew(row, ExistingKeySet(existing))
  {
  }

  /** A row whose stored key is `n` is filtered out, and the empty key always is. */
  lemma StoredKeyIsDuplicate(row: Row, existing: seq<int>, n: int)
    requires SeqMovimentacao in row
    requires row[SeqMovimentacao] == Str(IntToString(n)) || row[SeqMovimentacao] == Str("")
    requires row[SeqMovimentacao] == Str(IntToString(n)) ==> n in existing
    ensures !IsNew(row, ExistingKeySet(existing))
  {
  }

  /**
   * `allParsedRows.map(row => row['SEQMOVIMENTAÇÃO']).filter(seq => seq)`:
   * the non-empty keys, the list sent to the existence query.
   */
  function SeqList(rows: seq<Row>): (keys: seq<string>)
    requires AllKeyed(rows)
    ensures keys == [] <==> forall j :: 0 <= j < |rows| ==> !Truthy(rows[j][SeqMovimentacao])
  {
    if rows == [] then []
    else
      var v := rows[0][SeqMovimentacao];
      (if Truthy(v) then [ToJsString(v)] else []) + SeqList(rows[1..])
  }

  // ---------------------------------------------------------------------------
  // PROCV: the `lojas` lookup
  // ---------------------------------------------------------------------------

  const Separator := " - "

  /**
   * The trimmed text before the first " - " of an `ID - Fornecedor` cell, when
   * the cell is a (truthy) string holding the separator: `split(' - ')[0]`
   * is the text before the leftmost occurrence (SupplierAsWritten).
   */
  function IdPrefix(v: Value): Option<string> {
    if v.Str? && v.s != "" then
      match IndexOf(v.s, Separator)
      case Some(i) => Some(Trim(v.s[..i]))
      case None => None
    else None
  }

  /** The id a row adds to `idFornecedorSet`, if any: a non-empty id prefix. */
  function RowId(row: Row): Option<string>
    requires IdFornecedor in row
  {
    match IdPrefix(row[IdFornecedor])
    case Some(id) => if id != "" then Some(id) else None
    case None => None
  }

  predicate AllHaveSupplier(rows: seq<Row>) {
    forall j :: 0 <= j < |rows| ==> IdFornecedor in rows[j]
  }

  predicate NoDuplicates<T(==)>(xs: seq<T>) {
    forall i, j :: 0 <= i < j < |xs| ==> xs[i] != xs[j]
  }

  /** What each row offers to `idFornecedorSet.add`, in row order. */
  function OfferedIds(rows: seq<Row>): (offered: seq<Option<string>>)
    requires AllHaveSupplier(rows)
    ensures |offered| == |rows|
  {
    seq(|rows|, j requires 0 <= j < |rows| => RowId(rows[j]))
  }

  /** The contents of a `Set` after adding the offered values in order, in insertion order. */
  function Dedup(offered: seq<Option<string>>): seq<string>
    decreases |offered|
  {
    if offered == [] then []
    else
      var prev := Dedup(offered[..|offered| - 1]);
      match offered[|offered| - 1]
      case Some(id) => if id in prev then prev else prev + [id]
      case None => prev
  }

  /** A set lists each value once, and exactly the values offered to it. */
  lemma {:induction false} DedupSpec(offered: seq<Option<string>>)
    ensures NoDuplicates(Dedup(offered))
    ensures forall id :: id in Dedup(offered) <==> Some(id) in offered
    decreases |offered|
  {
    if offered != [] {
      var n := |offered| - 1;
      DedupSpec(offered[..n]);
      assert offered == offered[..n] + [offered[n]];
    }
  }

  /** `Array.from(idFornecedorSet)` after the `forEach` over `rows`. */
  function IdStrings(rows: seq<Row>): seq<string>
    requires AllHaveSupplier(rows)
  {
    Dedup(OfferedIds(rows))
  }

  /**
   * The lookup ids are the non-empty trimmed prefixes before the first " - "
   * of the rows' `ID - Fornecedor` cells, each listed once.
   */
  lemma IdStringsSpec(rows: seq<Row>)
    requires AllHaveSupplier(rows)
    ensures NoDuplicates(IdStrings(rows))
    ensures forall id :: id in IdStrings(rows) <==> exists j :: 0 <= j < |rows| && RowId(rows[j]) == Some(id)
  {
    var offered := OfferedIds(rows);
    DedupSpec(offered);
    forall id ensures Some(id) in offered <==> exists j :: 0 <= j < |rows| && RowId(rows[j]) == Some(id) {
      if Some(id) in offered {
        var j :| 0 <= j < |offered| && offered[j] == Some(id);
        assert RowId(rows[j]) == Some(id);
      }
      if exists j :: 0 <= j < |rows| && RowId(rows[j]) == Some(id) {
        var j :| 0 <= j < |rows| && RowId(rows[j]) == Some(id);
        assert offered[j] == Some(id);
      }
    }
  }

  /** `Array.from(idFornecedorSet).map(idStr => parseInt(idStr, 10)).filter(id => !isNaN(id))`. */
  function UniqueIds(ids: seq<string>): (r: seq<int>)
    ensures |r| <= |ids|
    ensures forall n :: n in r <==> exists k :: 0 <= k < |ids| && ParseInt(ids[k]) == Some(n)
  {
    if ids == [] then []
    else
      var rest := UniqueIds(ids[1..]);
      assert forall k :: 0 <= k < |ids[1..]| ==> ids[1..][k] == ids[k + 1];
      match ParseInt(ids[0])
      case Some(n) => [n] + rest
      case None => rest
  }

  /** A row of table `lojas` as the lookup query returns it (`id, nome_loja, segmento`). */
  datatype LojaRow = LojaRow(id: int, nomeLoja: Value, segmento: Value)

  /** A value of `lojaLookup`. */
  datatype LojaEntry = LojaEntry(loja: Value, segmento: Value)

  type Lookup = map<string, LojaEntry>

  function EntryOf(item: LojaRow): LojaEntry {
    LojaEntry(item.nomeLoja, item.segmento)
  }

  /** A `Map` after `set(key, value)` for each pair in order: a later pair overwrites an earlier one. */
  function LastWins<K, V>(pairs: seq<(K, V)>): map<K, V>
    decreases |pairs|
  {
    if pairs == [] then map[]
    else
      var last := pairs[|pairs| - 1];
      LastWins(pairs[..|pairs| - 1])[last.0 := last.1]
  }

  /** No later pair has the key of pair `i`. */
  predicate IsLastKey<K(==), V>(pairs: seq<(K, V)>, i: nat)
    requires i < |pairs|
  {
    forall j :: i < j < |pairs| ==> pairs[j].0 != pairs[i].0
  }

  /** The map's keys are exactly the pairs' keys. */
  lemma {:induction false} LastWinsKeys<K, V>(pairs: seq<(K, V)>)
    ensures forall k :: k in LastWins(pairs) <==> exists i :: 0 <= i < |pairs| && pairs[i].0 == k
    decreases |pairs|
  {
    if pairs != [] {
      var n := |pairs| - 1;
      var prefix := pairs[..n];
      LastWinsKeys(prefix);
      assert forall i :: 0 <= i < n ==> prefix[i] == pairs[i];
    }
  }

  /** Each key maps to the value of its last pair. */
  lemma {:induction false} LastWinsValues<K, V>(pairs: seq<(K, V)>)
    ensures forall i :: 0 <= i < |pairs| && IsLastKey(pairs, i) ==>
      pairs[i].0 in LastWins(pairs) && LastWins(pairs)[pairs[i].0] == pairs[i].1
    decreases |pairs|
  {
    if pairs != [] {
      var n := |pairs| - 1;
      var prefix := pairs[..n];
      LastWinsValues(prefix);
      forall i | 0 <= i < n && IsLastKey(pairs, i)
        ensures pairs[i].0 in LastWins(pairs) && LastWins(pairs)[pairs[i].0] == pairs[i].1
      {
        assert prefix[i] == pairs[i];
        assert IsLastKey(prefix, i);
        assert pairs[n].0 != pairs[i].0;
      }
    }
  }

  /** What `lojasData.forEach` passes to `lojaLookup.set`, in order. */
  function LojaPairs(lojas: seq<LojaRow>): (pairs: seq<(string, LojaEntry)>)
    ensures |pairs| == |lojas|
  {
    seq(|lojas|, i requires 0 <= i < |lojas| => (IntToString(lojas[i].id), EntryOf(lojas[i])))
  }

  /** `lojaLookup` after `lojasData.forEach(item => lojaLookup.set(String(item.id), ...))`. */
  function LookupOf(lojas: seq<LojaRow>): Lookup {
    LastWins(LojaPairs(lojas))
  }

  /** No later row of `lojas` carries the id of row `i`. */
  predicate IsLastWithId(lojas: seq<LojaRow>, i: nat)
    requires i < |lojas|
  {
    forall j :: i < j < |lojas| ==> lojas[j].id != lojas[i].id
  }

  /**
   * The lookup map's keys are the decimal spellings of the returned ids, and
   * each maps to the last returned row with that id: distinct ids never share
   * a spelling.
   */
  lemma LookupOfSpec(lojas: seq<LojaRow>)
    ensures forall k :: k in LookupOf(lojas) <==> exists i :: 0 <= i < |lojas| && IntToString(lojas[i].id) == k
    ensures forall i :: 0 <= i < |lojas| && IsLastWithId(lojas, i) ==>
      IntToString(lojas[i].id) in LookupOf(lojas) && LookupOf(lojas)[IntToString(lojas[i].id)] == EntryOf(lojas[i])
  {
    var pairs := LojaPairs(lojas);
    LastWinsKeys(pairs);
    LastWinsValues(pairs);
    forall k ensures k in LookupOf(lojas) <==> exists i :: 0 <= i < |lojas| && IntToString(lojas[i].id) == k {
      if exists i :: 0 <= i < |lojas| && IntToString(lojas[i].id) == k {
        var i :| 0 <= i < |lojas| && IntToString(lojas[i].id) == k;
        assert pairs[i].0 == k;
      }
    }
    forall i | 0 <= i < |lojas| && IsLastWithId(lojas, i) ensures IsLastKey(pairs, i) {
      forall j | i < j < |lojas| ensures pairs[j].0 != pairs[i].0 {
        if pairs[j].0 == pairs[i].0 {
          IntToStringInjective(lojas[j].id, lojas[i].id);
        }
      }
    }
  }

  // ---------------------------------------------------------------------------
  // Formulas and coercion
  // ---------------------------------------------------------------------------

  /**
   * What one processing run shares across rows: the Empresa and Produto the
   * operator selected, the lookup map, and `new Date().getFullYear()`.
   */
  datatype Context = Context(empresa: string, produto: string, lookup: Lookup, currentYear: int)

  /**
   * `ID` and `fornecedor` from the `ID - Fornecedor` cell: a truthy string
   * holding " - " is cut at its first occurrence, `ID` the trimmed text before
   * it and `fornecedor` the trimmed text after it, later separators included;
   * any other cell gives a null `ID` and is `fornecedor` as it is.
   */
  function SplitSupplier(raw: Value): (Value, Value) {
    if raw.Str? && raw.s != "" then
      match IndexOf(raw.s, Separator)
      case Some(i) => (Str(Trim(raw.s[..i])), Str(Trim(raw.s[i + |Separator|..])))
      case None => (Null, raw)
    else (Null, raw)
  }

  /**
   * The cut agrees with the source's spelling: `parts[0].trim()` and
   * `parts.slice(1).join(' - ').trim()` of `parts = raw.split(' - ')`.
   */
  lemma SupplierAsWritten(s: string)
    requires s != "" && Includes(s, Separator)
    ensures IdPrefix(Str(s)) == Some(Trim(Split(s, Separator)[0]))
    ensures SplitSupplier(Str(s)) == (Str(Trim(Split(s, Separator)[0])), Str(Trim(Join(Split(s, Separator)[1..], Separator))))
  {
    JoinTail(s, Separator);
  }

  /**
   * `ano` before coercion: the third "/" piece of DATA when DATA holds a "/",
   * else the current year as a string. With fewer than three pieces the source
   * stores `undefined`, which the coercion turns into null just as it does null.
   */
  function YearOf(data: Value, currentYear: int): Value {
    if data.Str? && data.s != "" && Includes(data.s, "/") then
      var parts := Split(data.s, "/");
      if |parts| > 2 then Str(parts[2]) else Null
    else Str(IntToString(currentYear))
  }

  /** The `lojaLookup.has(idFornecedor)` test: a truthy id that is a key of the map. */
  predicate Resolves(id: Value, lookup: Lookup) {
    id.Str? && id.s != "" && id.s in lookup
  }

  /** `loja` and `Segmento`: the lookup entry, or the "SEERRO" fallback to `fornecedor` and null. */
  function Procv(id: Value, fornecedor: Value, lookup: Lookup): LojaEntry {
    if Resolves(id, lookup) then lookup[id.s] else LojaEntry(fornecedor, Null)
  }

  /** `row['Emp'] = selectedEmpresa; row['Produto'] = selectedProduto;` */
  function WithFilters(row: Row, ctx: Context): Row {
    row[Emp := Str(ctx.empresa)][Produto := Str(ctx.produto)]
  }

  /** The `ID` / `fornecedor` formula. */
  function WithSupplier(row: Row): Row
    requires IdFornecedor in row
  {
    var (id, fornecedor) := SplitSupplier(row[IdFornecedor]);
    row[Id := id][Fornecedor := fornecedor]
  }

  /** The `ano` formula. */
  function WithYear(row: Row, currentYear: int): Row
    requires Data in row
  {
    row[Ano := YearOf(row[Data], currentYear)]
  }

  /** `row['Coluna1'] = null; row['Coluna2'] = null;` */
  function WithPlaceholders(row: Row): Row {
    row[Coluna1 := Null][Coluna2 := Null]
  }

  /** The PROCV step, reading the `ID` and `fornecedor` the supplier formula wrote. */
  function WithProcv(row: Row, lookup: Lookup): Row
    requires Id in row && Fornecedor in row
  {
    var entry := Procv(row[Id], row[Fornecedor], lookup);
    row[Loja := entry.loja][Segmento := entry.segmento]
  }

  /** The formulas' steps in source order, each one updating the row object. */
  function Steps(row: Row, ctx: Context): Row
    requires IdFornecedor in row && Data in row
  {
    WithProcv(WithPlaceholders(WithYear(WithSupplier(WithFilters(row, ctx)), ctx.currentYear)), ctx.lookup)
  }

  /** The values the formulas compute for one row (`Coluna1` and `Coluna2` are always null). */
  datatype Formulas = Formulas(emp: Value, produto: Value, id: Value, fornecedor: Value,
                               ano: Value, loja: Value, segmento: Value)

  /** The formulas' values for `row`: PROCV reads the `ID` and `fornecedor` the supplier formula yields. */
  function FormulasOf(row: Row, ctx: Context): Formulas
    requires IdFornecedor in row && Data in row
  {
    Formulas(Str(ctx.empresa), Str(ctx.produto),
             SplitSupplier(row[IdFornecedor]).0, SplitSupplier(row[IdFornecedor]).1,
             YearOf(row[Data], ctx.currentYear),
             ProcvOf(row[IdFornecedor], ctx.lookup).loja, ProcvOf(row[IdFornecedor], ctx.lookup).segmento)
  }

  /** The PROCV entry for a supplier cell: the lookup of the `ID` part, or the fallback to the `fornecedor` part. */
  function ProcvOf(raw: Value, lookup: Lookup): LojaEntry {
    Procv(SplitSupplier(raw).0, SplitSupplier(raw).1, lookup)
  }

  /** The row holding `row`'s parsed cells and the formulas' values `f` under the derived columns. */
  function Assemble(row: Row, f: Formulas): Row {
    map c | c in row.Keys + DerivedColumns :: CellOf(row, f, c)
  }

  function CellOf(row: Row, f: Formulas, c: Column): Value
    requires c in row || c in DerivedColumns
  {
    match c
    case Emp => f.emp
    case Produto => f.produto
    case Id => f.id
    case Fornecedor => f.fornecedor
    case Ano => f.ano
    case Coluna1 => Null
    case Coluna2 => Null
    case Loja => f.loja
    case Segmento => f.segmento
    case _ => row[c]
  }

  /** The row after the formulas and before the type conversion. */
  function Enriched(row: Row, ctx: Context): Row
    requires IdFornecedor in row && Data in row
  {
    Assemble(row, FormulasOf(row, ctx))
  }

  /** The assembled row keeps the row's columns and adds the nine derived ones. */
  lemma AssembleKeys(row: Row, f: Formulas)
    ensures Assemble(row, f).Keys == row.Keys + DerivedColumns
  {
  }

  /** The steps build the row the formulas' values assemble: applied in source order, each reads what the previous wrote. */
  lemma StepsEnriched(row: Row, ctx: Context)
    requires IdFornecedor in row && Data in row
    ensures Steps(row, ctx) == Enriched(row, ctx)
  {
    var f := FormulasOf(row, ctx);
    var a, b := Steps(row, ctx), Assemble(row, f);
    StepsKeys(row, ctx);
    AssembleKeys(row, f);
    forall c | c in a ensures a[c] == b[c] {
      StepsCell(row, ctx, c);
    }
    SameMap(a, b);
  }

  /** Two maps with the same keys and the same value under each key are equal. */
  lemma SameMap<K, V>(a: map<K, V>, b: map<K, V>)
    requires a.Keys == b.Keys
    requires forall k :: k in a ==> a[k] == b[k]
    ensures a == b
  {
  }

  lemma StepsCell(row: Row, ctx: Context, c: Column)
    requires IdFornecedor in row && Data in row
    requires c in row || c in DerivedColumns
    ensures Steps(row, ctx)[c] == CellOf(row, FormulasOf(row, ctx), c)
  {
    var f := FormulasOf(row, ctx);
    match c
    case Emp | Produto | Ano | Coluna1 | Coluna2 => StepsFormulas(row, ctx, f);
    case Id | Fornecedor => StepsSupplier(row, ctx, f);
    case Loja | Segmento => StepsProcv(row, ctx, f);
    case _ => StepsParsed(row, ctx, c);
  }

  lemma StepsKeys(row: Row, ctx: Context)
    requires IdFornecedor in row && Data in row
    ensures Steps(row, ctx).Keys == row.Keys + DerivedColumns
  {
  }

  lemma StepsFormulas(row: Row, ctx: Context, f: Formulas)
    requires IdFornecedor in row && Data in row && f == FormulasOf(row, ctx)
    ensures var a := Steps(row, ctx);
      && a[Emp] == f.emp && a[Produto] == f.produto && a[Ano] == f.ano
      && a[Coluna1] == Null && a[Coluna2] == Null
  {
  }

  lemma StepsSupplier(row: Row, ctx: Context, f: Formulas)
    requires IdFornecedor in row && Data in row && f == FormulasOf(row, ctx)
    ensures var a := Steps(row, ctx);
      a[Id] == f.id && a[Fornecedor] == f.fornecedor
  {
  }

  lemma StepsProcv(row: Row, ctx: Context, f: Formulas)
    requires IdFornecedor in row && Data in row && f == FormulasOf(row, ctx)
    ensures var a := Steps(row, ctx);
      a[Loja] == f.loja && a[Segmento] == f.segmento
  {
    var r2 := WithSupplier(WithFilters(row, ctx));
    var r4 := WithPlaceholders(WithYear(r2, ctx.currentYear));
    assert r4[Id] == r2[Id] == f.id;
    assert r4[Fornecedor] == r2[Fornecedor] == f.fornecedor;
  }

  lemma StepsParsed(row: Row, ctx: Context, c: Column)
    requires IdFornecedor in row && Data in row
    requires c in row && IsPositional(c)
    ensures c in Steps(row, ctx) && Steps(row, ctx)[c] == row[c]
  {
    var r1 := WithFilters(row, ctx);
    assert c in r1 && r1[c] == row[c];
    var r2 := WithSupplier(r1);
    assert c in r2 && r2[c] == row[c];
    var r3 := WithYear(r2, ctx.currentYear);
    assert c in r3 && r3[c] == row[c];
    var r4 := WithPlaceholders(r3);
    assert c in r4 && r4[c] == row[c];
  }

  /** A bigint cell: `row[key] ? parseInt(row[key], 10) : null`, then NaN to null. */
  function ToBigInt(v: Value): (r: Value)
    ensures r.Null? || r.Int?
    ensures !Truthy(v) ==> r == Null
    ensures Truthy(v) ==> (r.Null? <==> ParseInt(ToJsString(v)).None?)
    ensures r.Int? ==> ParseInt(ToJsString(v)) == Some(r.n)
  {
    if !Truthy(v) then Null
    else match ParseInt(ToJsString(v))
      case Some(n) => Int(n)
      case None => Null
  }

  /** A timestamp cell: `formatBRLDateToISO(row[key]) || null`; null and "" fail `!dateString`. */
  function ToTimestamp(v: Value): (r: Value)
    requires !v.Int?
    ensures r.Null? || r.Str?
    ensures v.Str? && r.Str? ==> FormatBrlDateToIso(v.s) == Some(r.s)
    ensures v.Str? && FormatBrlDateToIso(v.s).Some? ==> r == Str(FormatBrlDateToIso(v.s).value)
    ensures !v.Str? ==> r == Null
  {
    match v
    case Str(s) =>
      (match FormatBrlDateToIso(s)
       case Some(t) => Str(t)
       case None => Null)
    case _ => Null
  }

  /** A bigint cell holding the decimal spelling of a number becomes that number. */
  lemma ToBigIntOfString(n: int)
    ensures ToBigInt(Str(IntToString(n))) == Int(n)
  {
    ParseIntOfString(n);
  }

  /** A non-empty bigint cell that `parseInt` reads as NaN becomes null. */
  lemma ToBigIntNaN(s: string)
    requires s != "" && ParseInt(s).None?
    ensures ToBigInt(Str(s)) == Null
  {
  }

  /** What the conversion loop does to the cell under column `c`. */
  function CoerceCell(c: Column, v: Value): Value
    requires TypeOf(c) == Some(Timestamp) ==> !v.Int?
  {
    match TypeOf(c)
    case Some(BigInt) => ToBigInt(v)
    case Some(Timestamp) => ToTimestamp(v)
    case None => v
  }

  /** No timestamp-typed cell holds a number, as before coercion. */
  predicate TimestampsUncoerced(row: Row) {
    && (Data in row ==> !row[Data].Int?)
    && (Data2 in row ==> !row[Data2].Int?)
  }

  /** The row after `for (const key in row)`: every cell converted by its column's type. */
  function Coerced(row: Row): (r: Row)
    requires TimestampsUncoerced(row)
  {
    map c | c in row :: CoerceCell(c, row[c])
  }

  /**
   * What the formulas and the conversion need of a row: the two cells the
   * formulas read, and no number in a timestamp column. Every parsed record
   * qualifies.
   */
  predicate Transformable(row: Row) {
    IdFornecedor in row && Data in row && TimestampsUncoerced(row)
  }

  lemma RawRecordTransformable(row: Row)
    requires IsRawRecord(row)
    ensures Transformable(row)
  {
  }

  /** The row the transform yields for `row`. */
  function Transformed(row: Row, ctx: Context): Row
    requires Transformable(row)
  {
    EnrichedUncoerced(row, ctx);
    Coerced(Enriched(row, ctx))
  }

  /** The formulas write no timestamp column. */
  lemma EnrichedUncoerced(row: Row, ctx: Context)
    requires Transformable(row)
    ensures TimestampsUncoerced(Enriched(row, ctx))
  {
  }

  /** The formulas add the nine derived columns. */
  lemma EnrichedKeys(row: Row, ctx: Context)
    requires IdFornecedor in row && Data in row
    ensures Enriched(row, ctx).Keys == row.Keys + DerivedColumns
  {
    AssembleKeys(row, FormulasOf(row, ctx));
  }

  /** The conversion treats each cell of the formulas' row on its own. */
  lemma TransformedCell(row: Row, ctx: Context, c: Column)
    requires Transformable(row) && (c in row || c in DerivedColumns)
    ensures TypeOf(c) == Some(Timestamp) ==> !CellOf(row, FormulasOf(row, ctx), c).Int?
    ensures c in Transformed(row, ctx) && Transformed(row, ctx)[c] == CoerceCell(c, CellOf(row, FormulasOf(row, ctx), c))
  {
    var e := Enriched(row, ctx);
    EnrichedKeys(row, ctx);
    EnrichedUncoerced(row, ctx);
    assert c in e && e[c] == CellOf(row, FormulasOf(row, ctx), c);
    assert Transformed(row, ctx) == Coerced(e);
  }

  /**
   * The conversion loop over the row's keys, updating the row in place.
   * Iterating the typed columns present in the row is the same as iterating
   * the row's keys and looking each up in COLUMN_TYPES, since one key's
   * conversion does not read another's cell.
   */
  method CoerceRow(row: Row) returns (r: Row)
    requires TimestampsUncoerced(row)
    ensures r == Coerced(row)
  {
    r := row;
    var i := 0;
    while i < |TypedColumns|
      invariant 0 <= i <= |TypedColumns|
      invariant CoercedBefore(row, r, i)
    {
      var key := TypedColumns[i];
      if key in r {
        CoerceStep(row, r, i);
        r := r[key := CoerceCell(key, r[key])];
      } else {
        CoerceSkip(row, r, i);
      }
      i := i + 1;
    }
    CoercedAll(row, r);
  }

  /** After the conversion loop's first `i` steps: the typed columns among the first `i` are converted, the rest as parsed. */
  predicate CoercedBefore(row: Row, r: Row, i: nat)
    requires TimestampsUncoerced(row)
  {
    && r.Keys == row.Keys
    && forall c :: c in row ==> r[c] == if TypeOf(c).Some? && TypeIndex(c) < i then CoerceCell(c, row[c]) else row[c]
  }

  lemma CoerceStep(row: Row, r: Row, i: nat)
    requires TimestampsUncoerced(row) && i < |TypedColumns| && CoercedBefore(row, r, i)
    requires TypedColumns[i] in r
    ensures var key := TypedColumns[i];
      && r[key] == row[key]
      && (TypeOf(key) == Some(Timestamp) ==> !row[key].Int?)
      && CoercedBefore(row, r[key := CoerceCell(key, row[key])], i + 1)
  {
    TypeIndexOfTypedColumns();
  }

  lemma CoerceSkip(row: Row, r: Row, i: nat)
    requires TimestampsUncoerced(row) && i < |TypedColumns| && CoercedBefore(row, r, i)
    requires TypedColumns[i] !in r
    ensures CoercedBefore(row, r, i + 1)
  {
    TypeIndexOfTypedColumns();
  }

  lemma CoercedAll(row: Row, r: Row)
    requires TimestampsUncoerced(row) && CoercedBefore(row, r, |TypedColumns|)
    ensures r == Coerced(row)
  {
    SameMap(r, Coerced(row));
  }

  /** The callback of `newRows.map(row => { ... })`, updating the row object step by step. */
  method TransformRow(row: Row, ctx: Context) returns (r: Row)
    requires Transformable(row)
    ensures r == Transformed(row, ctx)
  {
    r := row;
    r := r[Emp := Str(ctx.empresa)];
    r := r[Produto := Str(ctx.produto)];
    var idFornecedor;
    r, idFornecedor := SetSupplier(r);
    r := SetYear(r, ctx.currentYear);
    r := r[Coluna1 := Null];
    r := r[Coluna2 := Null];
    r := SetProcv(r, idFornecedor, ctx.lookup);
    StepsEnriched(row, ctx);
    EnrichedUncoerced(row, ctx);
    r := CoerceRow(r);
  }

  /** The `ID` / `fornecedor` block; `idFornecedor` is what it wrote to `ID`. */
  method SetSupplier(row: Row) returns (r: Row, idFornecedor: Value)
    requires IdFornecedor in row
    ensures r == WithSupplier(row) && idFornecedor == r[Id]
  {
    r := row;
    idFornecedor := Null;
    var rawFornecedor := r[IdFornecedor];
    if rawFornecedor.Str? && rawFornecedor.s != "" && Includes(rawFornecedor.s, Separator) {
      var parts := Split(rawFornecedor.s, Separator);
      SupplierAsWritten(rawFornecedor.s);
      idFornecedor := Str(Trim(parts[0]));
      r := r[Id := idFornecedor];
      r := r[Fornecedor := Str(Trim(Join(parts[1..], Separator)))];
    } else {
      r := r[Id := Null];
      r := r[Fornecedor := rawFornecedor];
    }
  }

  /** The `ano` block. */
  method SetYear(row: Row, currentYear: int) returns (r: Row)
    requires Data in row
    ensures r == WithYear(row, currentYear)
  {
    r := row;
    var dataCompleta := r[Data];
    if dataCompleta.Str? && dataCompleta.s != "" && Includes(dataCompleta.s, "/") {
      var pieces := Split(dataCompleta.s, "/");
      r := r[Ano := if |pieces| > 2 then Str(pieces[2]) else Null];
    } else {
      r := r[Ano := Str(IntToString(currentYear))];
    }
  }

  /** The PROCV block. */
  method SetProcv(row: Row, idFornecedor: Value, lookup: Lookup) returns (r: Row)
    requires Id in row && Fornecedor in row && idFornecedor == row[Id]
    ensures r == WithProcv(row, lookup)
  {
    r := row;
    if idFornecedor.Str? && idFornecedor.s != "" && idFornecedor.s in lookup {
      var lookupData := lookup[idFornecedor.s];
      r := r[Loja := lookupData.loja];
      r := r[Segmento := lookupData.segmento];
    } else {
      r := r[Loja := r[Fornecedor]];
      r := r[Segmento := Null];
    }
  }

  // ---------------------------------------------------------------------------
  // What a transformed row holds
  // ---------------------------------------------------------------------------

  /** The transform keeps the row's columns and adds the nine derived ones. */
  lemma TransformedKeys(row: Row, ctx: Context)
    requires Transformable(row)
    ensures Transformed(row, ctx).Keys == row.Keys + DerivedColumns
  {
    EnrichedKeys(row, ctx);
    EnrichedUncoerced(row, ctx);
  }

  /** A parsed record comes out with all twenty columns (the row `insert` receives). */
  lemma TransformedHasAllColumns(row: Row, ctx: Context)
    requires IsRawRecord(row)
    ensures Transformable(row) && HasAllColumns(Transformed(row, ctx))
  {
    RawColumnsArePositional();
    TransformedKeys(row, ctx);
  }

  /** Each bigint column holds an integer or null, each timestamp column null or an ISO timestamp. */
  lemma TransformedTypes(row: Row, ctx: Context)
    requires Transformable(row)
    ensures forall c :: c in Transformed(row, ctx) && TypeOf(c) == Some(BigInt) ==>
      Transformed(row, ctx)[c].Null? || Transformed(row, ctx)[c].Int?
    ensures forall c :: c in Transformed(row, ctx) && TypeOf(c) == Some(Timestamp) ==>
      Transformed(row, ctx)[c] == Null || (Transformed(row, ctx)[c].Str? && IsIsoTimestamp(Transformed(row, ctx)[c].s))
  {
    forall c | c in Transformed(row, ctx) && TypeOf(c).Some?
      ensures TypeOf(c) == Some(BigInt) ==> Transformed(row, ctx)[c].Null? || Transformed(row, ctx)[c].Int?
      ensures TypeOf(c) == Some(Timestamp) ==>
        Transformed(row, ctx)[c] == Null || (Transformed(row, ctx)[c].Str? && IsIsoTimestamp(Transformed(row, ctx)[c].s))
    {
      TransformedTypedCell(row, ctx, c);
    }
  }

  lemma TransformedTypedCell(row: Row, ctx: Context, c: Column)
    requires Transformable(row) && c in Transformed(row, ctx) && TypeOf(c).Some?
    ensures TypeOf(c) == Some(BigInt) ==> Transformed(row, ctx)[c].Null? || Transformed(row, ctx)[c].Int?
    ensures TypeOf(c) == Some(Timestamp) ==>
      Transformed(row, ctx)[c] == Null || (Transformed(row, ctx)[c].Str? && IsIsoTimestamp(Transformed(row, ctx)[c].s))
  {
    TransformedKeys(row, ctx);
    TransformedCell(row, ctx, c);
    var v := CellOf(row, FormulasOf(row, ctx), c);
    if TypeOf(c) == Some(Timestamp) && v.Str? {
      FormatIsIso(v.s);
    }
  }

  /** The untyped parsed columns (TIPO, LOCAL, OPERAÇÃO, ID - Fornecedor, usuario) pass through unchanged. */
  lemma TransformedUntypedParsed(row: Row, ctx: Context)
    requires Transformable(row)
    ensures forall c :: c in row && IsPositional(c) && TypeOf(c).None? ==> Transformed(row, ctx)[c] == row[c]
  {
    forall c | c in row && IsPositional(c) && TypeOf(c).None? ensures Transformed(row, ctx)[c] == row[c] {
      TransformedParsedCell(row, ctx, c);
    }
  }

  /** The typed parsed columns are the parsed cells converted. */
  lemma TransformedTypedParsed(row: Row, ctx: Context)
    requires Transformable(row)
    ensures forall c :: c in row && IsPositional(c) && TypeOf(c) == Some(BigInt) ==> Transformed(row, ctx)[c] == ToBigInt(row[c])
  {
    forall c | c in row && IsPositional(c) && TypeOf(c) == Some(BigInt) ensures Transformed(row, ctx)[c] == ToBigInt(row[c]) {
      TransformedParsedCell(row, ctx, c);
    }
  }

  /** A timestamp column (DATA or data2) is its parsed cell through `formatBRLDateToISO`. */
  lemma TransformedTimestampParsed(row: Row, ctx: Context, c: Column)
    requires Transformable(row) && c in row && TypeOf(c) == Some(Timestamp)
    ensures !row[c].Int? && Transformed(row, ctx)[c] == ToTimestamp(row[c])
  {
    assert c == Data || c == Data2;
    TransformedParsedCell(row, ctx, c);
  }

  /** A parsed column's cell comes out as the parsed cell converted by its COLUMN_TYPES entry. */
  lemma TransformedParsedCell(row: Row, ctx: Context, c: Column)
    requires Transformable(row) && c in row && IsPositional(c)
    ensures c in Transformed(row, ctx) && Transformed(row, ctx)[c] == CoerceCell(c, row[c])
  {
    TransformedCell(row, ctx, c);
    assert CellOf(row, FormulasOf(row, ctx), c) == row[c];
  }

  /** `Emp` is the selected Empresa read as a bigint. */
  lemma TransformedEmp(row: Row, ctx: Context)
    requires Transformable(row)
    ensures Transformed(row, ctx)[Emp] == ToBigInt(Str(ctx.empresa))
  {
    TransformedCell(row, ctx, Emp);
  }

  /** `Produto` is the selected Produto; `Coluna1` and `Coluna2` are null. */
  lemma TransformedProdutoAndPlaceholders(row: Row, ctx: Context)
    requires Transformable(row)
    ensures Transformed(row, ctx)[Produto] == Str(ctx.produto)
    ensures Transformed(row, ctx)[Coluna1] == Null && Transformed(row, ctx)[Coluna2] == Null
  {
    TransformedPlain(row, ctx, Produto);
    TransformedPlain(row, ctx, Coluna1);
    TransformedPlain(row, ctx, Coluna2);
  }

  /** A derived column COLUMN_TYPES does not list holds the formula's value as it is. */
  lemma TransformedPlain(row: Row, ctx: Context, c: Column)
    requires Transformable(row) && !IsPositional(c) && TypeOf(c).None?
    ensures Transformed(row, ctx)[c] == CellOf(row, FormulasOf(row, ctx), c)
  {
    TransformedCell(row, ctx, c);
  }

  /** `ano` is the year formula's value read as a bigint. */
  lemma TransformedAno(row: Row, ctx: Context)
    requires Transformable(row)
    ensures Transformed(row, ctx)[Ano] == ToBigInt(YearOf(row[Data], ctx.currentYear))
  {
    TransformedCell(row, ctx, Ano);
    var y := YearOf(row[Data], ctx.currentYear);
    assert CellOf(row, FormulasOf(row, ctx), Ano) == y;
    assert CoerceCell(Ano, y) == ToBigInt(y);
  }

  /** When DATA holds no "/" (or is null or empty), `ano` is the current year. */
  lemma TransformedYearCurrent(row: Row, ctx: Context)
    requires Transformable(row)
    requires !(row[Data].Str? && Includes(row[Data].s, "/"))
    ensures Transformed(row, ctx)[Ano] == Int(ctx.currentYear)
  {
    TransformedAno(row, ctx);
    var y := IntToString(ctx.currentYear);
    assert YearOf(row[Data], ctx.currentYear) == Str(y);
    ParseIntOfString(ctx.currentYear);
    assert y != "";
  }

  /** When DATA is a date `DD/MM/YYYY`, with or without ` HH:MM:SS`, `ano` is its year. */
  lemma TransformedYearOfDate(row: Row, ctx: Context, d: DateTime)
    requires Transformable(row) && WellFormed(d)
    requires row[Data] == Str(BrlOf(d)) || row[Data] == Str(BrlDateOnly(d))
    ensures Transformed(row, ctx)[Ano] == Int(DigitsValue(d.year))
  {
    TransformedAno(row, ctx);
    var s := row[Data].s;
    if row[Data] == Str(BrlOf(d)) {
      BrlYearPiece(d);
    } else {
      BrlDateOnlyYearPiece(d);
    }
    var piece := Split(s, "/")[2];
    assert YearOf(row[Data], ctx.currentYear) == Str(piece);
    assert piece != "";
  }

  /** A valid DATA `DD/MM/YYYY HH:MM:SS` is stored as its ISO timestamp. */
  lemma TransformedDate(row: Row, ctx: Context, d: DateTime)
    requires Transformable(row) && WellFormed(d) && ValidDateTime(d)
    requires row[Data] == Str(BrlOf(d))
    ensures Transformed(row, ctx)[Data] == Str(IsoOf(d))
  {
    TransformedParsedCell(row, ctx, Data);
    BrlRoundTrip(d);
  }

  /** `ID` is the part of the supplier cell before " - ", read as a bigint. */
  lemma TransformedId(row: Row, ctx: Context)
    requires Transformable(row)
    ensures Transformed(row, ctx)[Id] == ToBigInt(SplitSupplier(row[IdFornecedor]).0)
  {
    TransformedCell(row, ctx, Id);
    assert CellOf(row, FormulasOf(row, ctx), Id) == SplitSupplier(row[IdFornecedor]).0;
  }

  /** `fornecedor` is the part of the supplier cell after " - ", or the whole cell. */
  lemma TransformedFornecedor(row: Row, ctx: Context)
    requires Transformable(row)
    ensures Transformed(row, ctx)[Fornecedor] == SplitSupplier(row[IdFornecedor]).1
  {
    TransformedPlain(row, ctx, Fornecedor);
  }

  /** `loja` is the store name PROCV finds for the supplier cell's split. */
  lemma TransformedLoja(row: Row, ctx: Context)
    requires Transformable(row)
    ensures Transformed(row, ctx)[Loja] == ProcvOf(row[IdFornecedor], ctx.lookup).loja
  {
    TransformedPlain(row, ctx, Loja);
  }

  /** `Segmento` is the segment PROCV finds for the supplier cell's split. */
  lemma TransformedSegmento(row: Row, ctx: Context)
    requires Transformable(row)
    ensures Transformed(row, ctx)[Segmento] == ProcvOf(row[IdFornecedor], ctx.lookup).segmento
  {
    TransformedPlain(row, ctx, Segmento);
  }

  /** PROCV hit: an id spelled as a returned `lojas` id takes the last such row's name and segment. */
  lemma ProcvHit(lojas: seq<LojaRow>, k: nat, fornecedor: Value)
    requires k < |lojas| && IsLastWithId(lojas, k)
    ensures Procv(Str(IntToString(lojas[k].id)), fornecedor, LookupOf(lojas)) == EntryOf(lojas[k])
  {
    LookupOfSpec(lojas);
  }

  /** PROCV miss ("SEERRO"): an id no returned row carries falls back to `fornecedor` and a null segment. */
  lemma ProcvMiss(lojas: seq<LojaRow>, id: Value, fornecedor: Value)
    requires !(id.Str? && exists k :: 0 <= k < |lojas| && IntToString(lojas[k].id) == id.s)
    ensures Procv(id, fornecedor, LookupOf(lojas)) == LojaEntry(fornecedor, Null)
  {
    LookupOfSpec(lojas);
  }

  /**
   * The lookup is keyed by `String(item.id)`, so an id written with a leading
   * zero ("07") never resolves, even though `parseInt` put its value into the
   * `lojas` query: such a row takes the "SEERRO" fallback.
   */
  lemma ZeroPaddedIdMisses(id: string, lojas: seq<LojaRow>)
    requires |id| > 1 && id[0] == '0'
    ensures !Resolves(Str(id), LookupOf(lojas))
  {
    LookupOfSpec(lojas);
    if id in LookupOf(lojas) {
      var k :| 0 <= k < |lojas| && IntToString(lojas[k].id) == id;
      NoLeadingZero(lojas[k].id);
    }
  }

  /**
   * End to end: a supplier cell `<id> - <name>` whose id is the spelling of a
   * returned `lojas` id (the last row with it) gets that row's name and segment.
   */
  lemma ProcvFindsLoja(row: Row, ctx: Context, lojas: seq<LojaRow>, s: string, i: nat, k: nat)
    requires Transformable(row) && ctx.lookup == LookupOf(lojas)
    requires row[IdFornecedor] == Str(s) && IndexOf(s, Separator) == Some(i)
    requires k < |lojas| && IsLastWithId(lojas, k) && Trim(s[..i]) == IntToString(lojas[k].id)
    ensures Transformed(row, ctx)[Loja] == lojas[k].nomeLoja
    ensures Transformed(row, ctx)[Segmento] == lojas[k].segmento
  {
    var id, name := Str(Trim(s[..i])), Str(Trim(s[i + |Separator|..]));
    assert SplitSupplier(row[IdFornecedor]) == (id, name);
    assert ProcvOf(row[IdFornecedor], ctx.lookup) == Procv(id, name, ctx.lookup);
    TransformedLoja(row, ctx);
    TransformedSegmento(row, ctx);
    ProcvHit(lojas, k, name);
  }

  /**
   * End to end, "SEERRO": a supplier cell `<id> - <name>` whose id no returned
   * row carries gets `loja` = `<name>` trimmed and a null `Segmento`.
   */
  lemma ProcvFallback(row: Row, ctx: Context, lojas: seq<LojaRow>, s: string, i: nat)
    requires Transformable(row) && ctx.lookup == LookupOf(lojas)
    requires row[IdFornecedor] == Str(s) && IndexOf(s, Separator) == Some(i)
    requires forall k :: 0 <= k < |lojas| ==> IntToString(lojas[k].id) != Trim(s[..i])
    ensures i + |Separator| <= |s|
    ensures Transformed(row, ctx)[Loja] == Str(Trim(s[i + |Separator|..]))
    ensures Transformed(row, ctx)[Segmento] == Null
  {
    var id, name := Str(Trim(s[..i])), Str(Trim(s[i + |Separator|..]));
    assert SplitSupplier(row[IdFornecedor]) == (id, name);
    assert ProcvOf(row[IdFornecedor], ctx.lookup) == Procv(id, name, ctx.lookup);
    TransformedLoja(row, ctx);
    TransformedSegmento(row, ctx);
    ProcvMiss(lojas, id, name);
  }

  /** A supplier cell without " - " (or null) yields a null `ID` and `Segmento`, and is itself `fornecedor` and `loja`. */
  lemma TransformedUnseparated(row: Row, ctx: Context)
    requires Transformable(row)
    requires !(row[IdFornecedor].Str? && Includes(row[IdFornecedor].s, Separator))
    ensures Transformed(row, ctx)[Id] == Null && Transformed(row, ctx)[Segmento] == Null
    ensures Transformed(row, ctx)[Fornecedor] == row[IdFornecedor] && Transformed(row, ctx)[Loja] == row[IdFornecedor]
  {
    TransformedId(row, ctx);
    TransformedFornecedor(row, ctx);
    TransformedLoja(row, ctx);
    TransformedSegmento(row, ctx);
  }

  /** `newRows.map(...)`: one transformed row per new row, in order. */
  method TransformRows(rows: seq<Row>, ctx: Context) returns (out: seq<Row>)
    requires forall j :: 0 <= j < |rows| ==> Transformable(rows[j])
    ensures |out| == |rows|
    ensures forall j :: 0 <= j < |rows| ==> out[j] == Transformed(rows[j], ctx)
  {
    out := [];
    var i := 0;
    while i < |rows|
      invariant 0 <= i <= |rows|
      invariant |out| == i
      invariant forall j :: 0 <= j < i ==> out[j] == Transformed(rows[j], ctx)
    {
      var t := TransformRow(rows[i], ctx);
      out := out + [t];
      i := i + 1;
    }
  }

  /** The `forEach` that fills `idFornecedorSet` (a set keeps first-insertion order). */
  method CollectIds(rows: seq<Row>) returns (ids: seq<string>)
    requires AllHaveSupplier(rows)
    ensures ids == IdStrings(rows)
    ensures NoDuplicates(ids)
    ensures forall id :: id in ids <==> exists j :: 0 <= j < |rows| && RowId(rows[j]) == Some(id)
  {
    ids := [];
    var i := 0;
    ghost var offered := OfferedIds(rows);
    while i < |rows|
      invariant 0 <= i <= |rows|
      invariant ids == Dedup(offered[..i])
    {
      var rawFornecedor := rows[i][IdFornecedor];
      assert offered[..i + 1][..i] == offered[..i];
      assert offered[i] == RowId(rows[i]);
      if rawFornecedor.Str? && rawFornecedor.s != "" && Includes(rawFornecedor.s, Separator) {
        var id := Trim(Split(rawFornecedor.s, Separator)[0]);
        if id != "" && id !in ids {
          ids := ids + [id];
        }
      }
      i := i + 1;
    }
    assert offered[..|rows|] == offered;
    IdStringsSpec(rows);
  }

  /** The `forEach` that fills `lojaLookup` from the rows the lookup query returned. */
  method BuildLookup(lojas: seq<LojaRow>) returns (m: Lookup)
    ensures m == LookupOf(lojas)
    ensures forall k :: k in m <==> exists i :: 0 <= i < |lojas| && IntToString(lojas[i].id) == k
  {
    m := map[];
    var i := 0;
    ghost var pairs := LojaPairs(lojas);
    while i < |lojas|
      invariant 0 <= i <= |lojas|
      invariant m == LastWins(pairs[..i])
    {
      var item := lojas[i];
      assert pairs[..i + 1][..i] == pairs[..i];
      m := m[IntToString(item.id) := LojaEntry(item.nomeLoja, item.segmento)];
      i := i + 1;
    }
    assert pairs[..|lojas|] == pairs;
    LookupOfSpec(lojas);
  }
}
