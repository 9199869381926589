/**
 A DML row as the connector hands it over (one JSON value), and how its primary
 key and tier key are read off it.  `encode_text` and the JSON parser belong to
 code outside this repository, so they are parameters of the table schema;
 `encode_pk` is assumed injective, so a key is the list of its column texts.
 */
module Rows {
  import opened Wrappers

  datatype Json =
    | Null
    | Bool(b: bool)
    | Number(text: string)   // the number as its printer renders it
    | Text(s: string)
    | Array(items: seq<Json>)
    | Object(fields: map<string, Json>)

  datatype Error =
    | MissingField(field: string)
    | UnsupportedType(field: string)
    | BadTierKey(text: string)
    | BelowRetention(tier: int, line: Option<int>)
    | UnknownKeyColumn
    | MissingOld
    | MissingNew
    | NotRegistered
    | NoCatalog
    | StatementFailed        // Postgres refused a statement

  datatype Column = Column(name: string, pgType: string)

  datatype TableSchema = TableSchema(
    tierCol: string,
    pkCols: seq<string>,
    columns: seq<Column>,
    encodeText: string -> Option<int>,
    parseJson: string -> Option<Json>,
    heapTakes: Json -> bool)   // whether a heap key column takes this array or object

  // One cell per primary-key column.  The delta only ever sees texts; the heap may
  // hold structured cells, and only a lake row can carry SQL NULL.
  datatype Cell = NullCell | TextCell(text: string) | StructCell(value: Json)

  datatype Key = Key(cells: seq<Cell>)

  function Get(row: Json, field: string): Option<Json> {
    if row.Object? && field in row.fields then Some(row.fields[field]) else None
  }

  function FieldText(row: Json, field: string): Result<string, Error> {
    match Get(row, field)
    case Some(Text(s)) => Ok(s)
    case Some(Number(n)) => Ok(n)
    case Some(Bool(b)) => Ok(if b then "true" else "false")
    case Some(Null) => Err(MissingField(field))
    case None => Err(MissingField(field))
    case Some(_) => Err(UnsupportedType(field))
  }

  function ReadTier(ts: TableSchema, row: Json): Result<int, Error> {
    match FieldText(row, ts.tierCol)
    case Err(e) => Err(e)
    case Ok(text) =>
      match ts.encodeText(text)
      case None => Err(BadTierKey(text))
      case Some(tier) => Ok(tier)
  }

  function CellOf(row: Json, col: string): Cell {
    match Get(row, col)
    case None => NullCell
    case Some(Null) => NullCell
    case Some(v) => match FieldText(row, col) case Ok(text) => TextCell(text) case Err(_) => StructCell(v)
  }

  function Cells(row: Json, cols: seq<string>): seq<Cell> {
    if cols == [] then [] else [CellOf(row, cols[0])] + Cells(row, cols[1..])
  }

  function KeyOf(row: Json, cols: seq<string>): Key {
    Key(Cells(row, cols))
  }

  /** Reads the key columns in order; the first unreadable one is the error. */
  function ReadKey(row: Json, cols: seq<string>): (r: Result<Key, Error>)
    ensures r.Ok? <==> forall c <- cols :: FieldText(row, c).Ok?
    ensures r.Ok? ==> r.value == KeyOf(row, cols)
    ensures r.Err? ==> exists i :: 0 <= i < |cols| && FieldText(row, cols[i]) == Err(r.error)
                                   && forall j :: 0 <= j < i ==> FieldText(row, cols[j]).Ok?
  {
    if cols == [] then Ok(Key([]))
    else
      match FieldText(row, cols[0])
      case Err(e) => Err(e)
      case Ok(text) =>
        match ReadKey(row, cols[1..])
        case Err(e) =>
          var i :| 0 <= i < |cols[1..]| && FieldText(row, cols[1..][i]) == Err(e)
                   && forall j :: 0 <= j < i ==> FieldText(row, cols[1..][j]).Ok?;
          assert FieldText(row, cols[i + 1]) == Err(e);
          Err(e)
        case Ok(rest) => Ok(Key([TextCell(text)] + rest.cells))
  }

  // ---------- json and jsonb columns ----------

  predicate IsSpace(c: char) {
    c == ' ' || '\t' <= c <= '\r'
  }

  function TrimLeft(s: string): string {
    if s != "" && IsSpace(s[0]) then TrimLeft(s[1..]) else s
  }

  function TrimRight(s: string): string {
    if s != "" && IsSpace(s[|s| - 1]) then TrimRight(s[..|s| - 1]) else s
  }

  function Lower(s: string): string {
    seq(|s|, i requires 0 <= i < |s| => if 'A' <= s[i] <= 'Z' then s[i] - 'A' + 'a' else s[i])
  }

  function UpTo(s: string, stop: char): string {
    if s == "" || s[0] == stop then "" else [s[0]] + UpTo(s[1..], stop)
  }

  predicate IsJsonType(pgType: string) {
    TrimRight(TrimLeft(UpTo(Lower(TrimRight(TrimLeft(pgType))), '('))) in {"json", "jsonb"}
  }

  function NormalizeColumn(ts: TableSchema, fields: map<string, Json>, c: Column): map<string, Json> {
    if IsJsonType(c.pgType) && c.name in fields && fields[c.name].Text? then
      match ts.parseJson(fields[c.name].s)
      case Some(parsed) => fields[c.name := parsed]
      case None => fields
    else fields
  }

  function NormalizeFields(ts: TableSchema, fields: map<string, Json>, cols: seq<Column>): map<string, Json> {
    if cols == [] then fields else NormalizeFields(ts, NormalizeColumn(ts, fields, cols[0]), cols[1..])
  }

  function Normalize(ts: TableSchema, row: Json): Json {
    if row.Object? then Object(NormalizeFields(ts, row.fields, ts.columns)) else row
  }

  /** The loop that edits the row column by column. */
  method NormalizeJsonColumns(ts: TableSchema, row: Json) returns (r: Json)
    ensures r == Normalize(ts, row)
  {
    if !row.Object? {
      return row;
    }
    var fields := row.fields;
    for i := 0 to |ts.columns|
      invariant NormalizeFields(ts, fields, ts.columns[i..]) == NormalizeFields(ts, row.fields, ts.columns)
    {
      var c := ts.columns[i];
      if IsJsonType(c.pgType) && c.name in fields && fields[c.name].Text? {
        match ts.parseJson(fields[c.name].s) {
          case Some(parsed) => fields := fields[c.name := parsed];
          case None =>
        }
      }
      assert ts.columns[i..][1..] == ts.columns[i + 1..];
    }
    return Object(fields);
  }

  function TombstonePayload(row: Json, pkCols: seq<string>): Json {
    Object(map c | c in pkCols :: match Get(row, c) case Some(v) => v case None => Null)
  }

  // ---------- what normalisation means ----------

  predicate DistinctNames(cols: seq<Column>) {
    forall i, j :: 0 <= i < j < |cols| ==> cols[i].name != cols[j].name
  }

  predicate JsonColumn(cols: seq<Column>, name: string) {
    exists c <- cols :: c.name == name && IsJsonType(c.pgType)
  }

  function Reparsed(ts: TableSchema, v: Json): Json {
    if v.Text? then
      match ts.parseJson(v.s) case Some(parsed) => parsed case None => v
    else v
  }

  /** Normalisation neither adds nor drops a field, leaves every column that is
      not json alone, and reparses each json column exactly once. */
  lemma {:induction false} NormalizePointwise(ts: TableSchema, fields: map<string, Json>, cols: seq<Column>,
                                           name: string)
    requires DistinctNames(cols) && name in fields
    ensures NormalizeFields(ts, fields, cols).Keys == fields.Keys
    ensures NormalizeFields(ts, fields, cols)[name] ==
            if JsonColumn(cols, name) then Reparsed(ts, fields[name]) else fields[name]
    decreases |cols|
  {
    if cols != [] {
      var next := NormalizeColumn(ts, fields, cols[0]);
      assert next.Keys == fields.Keys;
      forall i, j | 0 <= i < j < |cols[1..]| ensures cols[1..][i].name != cols[1..][j].name {
        assert cols[i + 1].name != cols[j + 1].name;
      }
      NormalizePointwise(ts, next, cols[1..], name);
      assert cols == [cols[0]] + cols[1..];
      assert JsonColumn(cols, name) <==>
             (cols[0].name == name && IsJsonType(cols[0].pgType)) || JsonColumn(cols[1..], name);
    }
  }

  /** A column that is not json keeps its text, even when names repeat. */
  lemma {:induction false} NormalizeKeepsPlainColumn(ts: TableSchema, fields: map<string, Json>, cols: seq<Column>,
                                                  name: string)
    requires !JsonColumn(cols, name)
    ensures name in NormalizeFields(ts, fields, cols) <==> name in fields
    ensures name in fields ==> NormalizeFields(ts, fields, cols)[name] == fields[name]
    decreases |cols|
  {
    if cols != [] {
      assert cols[0] in cols;
      assert forall c :: c in cols[1..] ==> c in cols;
      NormalizeKeepsPlainColumn(ts, NormalizeColumn(ts, fields, cols[0]), cols[1..], name);
    }
  }

  lemma {:induction false} NormalizePlainTable(ts: TableSchema, fields: map<string, Json>, cols: seq<Column>)
    requires forall c <- cols :: !IsJsonType(c.pgType)
    ensures NormalizeFields(ts, fields, cols) == fields
    decreases |cols|
  {
    if cols != [] {
      assert cols[0] in cols && forall c :: c in cols[1..] ==> c in cols;
      NormalizePlainTable(ts, fields, cols[1..]);
    }
  }

  // ---------- upsert and tombstone address the same delta slot ----------

  function RoutingCols(ts: TableSchema): seq<string> {
    ts.pkCols + [ts.tierCol]
  }

  // The routing-key payload of a row: any object carrying the same value in
  // every routing column.
  predicate RoutesLike(ts: TableSchema, payload: Json, row: Json) {
    forall c <- RoutingCols(ts) :: Get(payload, c) == Get(row, c)
  }

  lemma {:induction false} KeyFollowsTexts(a: Json, b: Json, cols: seq<string>)
    requires forall c <- cols :: FieldText(a, c) == FieldText(b, c)
    ensures ReadKey(a, cols) == ReadKey(b, cols)
    decreases |cols|
  {
    if cols != [] {
      assert cols[0] in cols;
      assert forall c :: c in cols[1..] ==> c in cols;
      KeyFollowsTexts(a, b, cols[1..]);
    }
  }

  /** A tombstone carries the key of the row it stands for. */
  lemma TombstoneKeepsKey(row: Json, pkCols: seq<string>)
    ensures ReadKey(TombstonePayload(row, pkCols), pkCols) == ReadKey(row, pkCols)
    ensures TombstonePayload(row, pkCols).fields.Keys == set c | c in pkCols
  {
    forall c | c in pkCols ensures FieldText(TombstonePayload(row, pkCols), c) == FieldText(row, c) {
      assert Get(TombstonePayload(row, pkCols), c) == match Get(row, c) case Some(v) => Some(v) case None => Some(Null);
    }
    KeyFollowsTexts(TombstonePayload(row, pkCols), row, pkCols);
  }

  /** For rows whose routing columns are not json, the key and tier an upsert
      computes after normalisation are those a tombstone computes without it. */
  lemma KeyAgreement(ts: TableSchema, row: Json, payload: Json)
    requires forall c <- RoutingCols(ts) :: !JsonColumn(ts.columns, c)
    requires RoutesLike(ts, payload, row)
    ensures ReadKey(Normalize(ts, row), ts.pkCols) == ReadKey(payload, ts.pkCols)
    ensures ReadTier(ts, Normalize(ts, row)) == ReadTier(ts, payload)
  {
    forall c | c in RoutingCols(ts) ensures FieldText(Normalize(ts, row), c) == FieldText(payload, c) {
      if row.Object? {
        NormalizeKeepsPlainColumn(ts, row.fields, ts.columns, c);
      }
      assert Get(Normalize(ts, row), c) == Get(row, c) == Get(payload, c);
    }
    assert ts.tierCol in RoutingCols(ts);
    assert forall c :: c in ts.pkCols ==> c in RoutingCols(ts);
    KeyFollowsTexts(Normalize(ts, row), payload, ts.pkCols);
  }

  // ---------- exactly which tables have this ----------

  ghost predicate KeysAgree(ts: TableSchema) {
    forall row: Json, payload: Json :: RoutesLike(ts, payload, row) ==>
      ReadKey(Normalize(ts, row), ts.pkCols) == ReadKey(payload, ts.pkCols)
  }

  function Tier(ts: TableSchema, row: Json): Option<int> {
    match ReadTier(ts, row) case Ok(tier) => Some(tier) case Err(_) => None
  }

  ghost predicate TiersAgree(ts: TableSchema) {
    forall row: Json, payload: Json :: RoutesLike(ts, payload, row) ==>
      Tier(ts, Normalize(ts, row)) == Tier(ts, payload)
  }

  // A row whose routing columns all hold the JSON string literal "a", but for the
  // tier key, which holds the given text.
  function LiteralRow(ts: TableSchema, tierText: string): Json {
    Object(map c | c in RoutingCols(ts) :: Text(if c == ts.tierCol then tierText else "\"a\""))
  }

  predicate ParsesLiteral(ts: TableSchema) {
    ts.parseJson("\"a\"") == Some(Text("a"))   // a JSON string literal parses to its contents
  }

  lemma {:induction false} CellsAt(row: Json, cols: seq<string>, i: nat)
    requires i < |cols|
    ensures |Cells(row, cols)| == |cols| && Cells(row, cols)[i] == CellOf(row, cols[i])
    decreases |cols|
  {
    if i > 0 {
      CellsAt(row, cols[1..], i - 1);
    } else if |cols| > 1 {
      CellsAt(row, cols[1..], 0);
    }
  }

  lemma LiteralText(ts: TableSchema, tierText: string, n: string)
    requires DistinctNames(ts.columns) && ParsesLiteral(ts) && n in RoutingCols(ts)
    requires JsonColumn(ts.columns, ts.tierCol) ==> tierText == "\"a\""
    ensures FieldText(LiteralRow(ts, tierText), n).Ok? && FieldText(Normalize(ts, LiteralRow(ts, tierText)), n).Ok?
  {
    NormalizePointwise(ts, LiteralRow(ts, tierText).fields, ts.columns, n);
  }

  lemma LiteralTexts(ts: TableSchema, tierText: string)
    requires DistinctNames(ts.columns) && ParsesLiteral(ts)
    requires JsonColumn(ts.columns, ts.tierCol) ==> tierText == "\"a\""
    ensures var row := LiteralRow(ts, tierText);
            forall n :: n in RoutingCols(ts) ==> FieldText(row, n).Ok? && FieldText(Normalize(ts, row), n).Ok?
  {
    forall n | n in RoutingCols(ts)
      ensures FieldText(LiteralRow(ts, tierText), n).Ok? && FieldText(Normalize(ts, LiteralRow(ts, tierText)), n).Ok?
    {
      LiteralText(ts, tierText, n);
    }
  }

  lemma LiteralTier(ts: TableSchema, tierText: string)
    requires !JsonColumn(ts.columns, ts.tierCol)
    ensures var row := LiteralRow(ts, tierText);
            FieldText(row, ts.tierCol) == FieldText(Normalize(ts, row), ts.tierCol) == Ok(tierText)
  {
    NormalizeKeepsPlainColumn(ts, LiteralRow(ts, tierText).fields, ts.columns, ts.tierCol);
  }

  /** Such a row is readable on both sides, and under a json key column its upsert
      and its tombstone go by different keys. */
  lemma JsonKeyWitness(ts: TableSchema, c: string, tierText: string)
    requires DistinctNames(ts.columns) && ParsesLiteral(ts)
    requires c in ts.pkCols && JsonColumn(ts.columns, c)
    requires c == ts.tierCol ==> tierText == "\"a\""
    requires JsonColumn(ts.columns, ts.tierCol) ==> tierText == "\"a\""
    ensures var row := LiteralRow(ts, tierText);
            var written, removed := ReadKey(Normalize(ts, row), ts.pkCols), ReadKey(row, ts.pkCols);
            RoutesLike(ts, row, row) && written.Ok? && removed.Ok? && written.value != removed.value
  {
    var row := LiteralRow(ts, tierText);
    LiteralTexts(ts, tierText);
    assert forall n :: n in ts.pkCols ==> n in RoutingCols(ts);
    assert c in RoutingCols(ts);
    NormalizePointwise(ts, row.fields, ts.columns, c);
    assert FieldText(row, c) == Ok("\"a\"") && FieldText(Normalize(ts, row), c) == Ok("a");
    assert |"a"| != |"\"a\""|;
    var i :| 0 <= i < |ts.pkCols| && ts.pkCols[i] == c;
    CellsAt(row, ts.pkCols, i);
    CellsAt(Normalize(ts, row), ts.pkCols, i);
  }

  /** The key restriction is exact: upsert and tombstone agree on the key of every
      row if and only if no key column is json. */
  lemma KeyAgreementExact(ts: TableSchema)
    requires DistinctNames(ts.columns) && ParsesLiteral(ts)
    ensures KeysAgree(ts) <==> forall c <- ts.pkCols :: !JsonColumn(ts.columns, c)
  {
    if c :| c in ts.pkCols && JsonColumn(ts.columns, c) {
      JsonKeyWitness(ts, c, "\"a\"");
    } else {
      forall row: Json, payload: Json | RoutesLike(ts, payload, row)
        ensures ReadKey(Normalize(ts, row), ts.pkCols) == ReadKey(payload, ts.pkCols)
      {
        forall c | c in ts.pkCols ensures FieldText(Normalize(ts, row), c) == FieldText(payload, c) {
          assert c in RoutingCols(ts);
          if row.Object? {
            NormalizeKeepsPlainColumn(ts, row.fields, ts.columns, c);
          }
          assert Get(Normalize(ts, row), c) == Get(row, c) == Get(payload, c);
        }
        KeyFollowsTexts(Normalize(ts, row), payload, ts.pkCols);
      }
    }
  }

  // The tier read off a scalar tier-key value.
  function ValueTier(ts: TableSchema, v: Json): Option<int> {
    match v
    case Text(s) => ts.encodeText(s)
    case Number(n) => ts.encodeText(n)
    case Bool(b) => ts.encodeText(if b then "true" else "false")
    case _ => None
  }

  lemma TierOfValue(ts: TableSchema, row: Json)
    ensures Tier(ts, row) == match Get(row, ts.tierCol) case Some(v) => ValueTier(ts, v) case None => None
  {
  }

  /** And for the tier: it agrees for every row if and only if the tier column is
      not json or reparsing a text never changes what it encodes to. */
  lemma TierAgreementExact(ts: TableSchema)
    requires DistinctNames(ts.columns)
    ensures TiersAgree(ts) <==>
            (!JsonColumn(ts.columns, ts.tierCol) ||
             forall text: string :: ValueTier(ts, Reparsed(ts, Text(text))) == ts.encodeText(text))
  {
    if JsonColumn(ts.columns, ts.tierCol) {
      if text: string :| ValueTier(ts, Reparsed(ts, Text(text))) != ts.encodeText(text) {
        var row := Object(map[ts.tierCol := Text(text)]);
        TierAfterNormalize(ts, row);
        TierOfValue(ts, row);
        assert RoutesLike(ts, row, row);
      }
    }
    forall row: Json, payload: Json | RoutesLike(ts, payload, row)
      ensures !JsonColumn(ts.columns, ts.tierCol) ||
              (forall text: string :: ValueTier(ts, Reparsed(ts, Text(text))) == ts.encodeText(text)) ==>
              Tier(ts, Normalize(ts, row)) == Tier(ts, payload)
    {
      assert ts.tierCol in RoutingCols(ts);
      TierAfterNormalize(ts, row);
      TierOfValue(ts, payload);
    }
  }

  lemma TierAfterNormalize(ts: TableSchema, row: Json)
    requires DistinctNames(ts.columns)
    ensures Tier(ts, Normalize(ts, row)) ==
            match Get(row, ts.tierCol)
            case None => None
            case Some(v) => ValueTier(ts, if JsonColumn(ts.columns, ts.tierCol) then Reparsed(ts, v) else v)
  {
    TierOfValue(ts, Normalize(ts, row));
    if row.Object? && ts.tierCol in row.fields {
      NormalizePointwise(ts, row.fields, ts.columns, ts.tierCol);
    } else if row.Object? {
      NormalizeAddsNothing(ts, row.fields, ts.columns);
    }
  }

  lemma {:induction false} NormalizeAddsNothing(ts: TableSchema, fields: map<string, Json>, cols: seq<Column>)
    ensures NormalizeFields(ts, fields, cols).Keys == fields.Keys
    decreases |cols|
  {
    if cols != [] {
      assert NormalizeColumn(ts, fields, cols[0]).Keys == fields.Keys;
      NormalizeAddsNothing(ts, NormalizeColumn(ts, fields, cols[0]), cols[1..]);
    }
  }
}
