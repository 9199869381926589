/**
 The SQL a scan runs over the merged read, and a reader for it.  Delimited
 identifiers are those of section 5.2 of ISO/IEC 9075-2: at least one character,
 a double quote inside written twice.
 */
module Projection {
  import opened Wrappers
  import opened Rows

  datatype Item = Ident(name: string) | One

  // Virtual columns map back to the heap column they stand for.
  datatype BindData = BindData(columnNames: seq<string>, virtualNames: map<nat, string>, sql: string)

  const ONE := "CAST(1 AS BIGINT)"
  const SELECT := "SELECT "
  const FROM := " FROM ("
  const MERGED := ") tierdb_merged"

  // ---------- building ----------

  function Escape(name: string): string {
    if name == "" then ""
    else Escape(name[..|name| - 1]) + (if name[|name| - 1] == '"' then "\"\"" else [name[|name| - 1]])
  }

  function Quoted(name: string): string {
    "\"" + Escape(name) + "\""
  }

  method QuoteIdent(name: string) returns (out: string)
    ensures out == Quoted(name)
  {
    out := "\"";
    for i := 0 to |name|
      invariant out == "\"" + Escape(name[..i])
    {
      assert name[..i + 1][..i] == name[..i];
      if name[i] == '"' {
        out := out + "\"";
      }
      out := out + [name[i]];
    }
    assert name[..|name|] == name;
    out := out + "\"";
  }

  function Resolve(b: BindData, id: nat): Item {
    if id < |b.columnNames| then Ident(b.columnNames[id])
    else if id in b.virtualNames then Ident(b.virtualNames[id])
    else One
  }

  function Requested(b: BindData, ids: seq<nat>): seq<Item> {
    seq(|ids|, i requires 0 <= i < |ids| => Resolve(b, ids[i]))
  }

  function Render(item: Item): string {
    if item.Ident? then Quoted(item.name) else ONE
  }

  function RenderList(items: seq<Item>): string {
    if items == [] then ""
    else RenderList(items[..|items| - 1]) + (if |items| > 1 then ", " else "") + Render(items[|items| - 1])
  }

  // A scan of no columns still has to produce its rows.
  function Asked(b: BindData, ids: seq<nat>): seq<Item> {
    if ids == [] then [One] else Requested(b, ids)
  }

  function ScanSql(b: BindData, ids: seq<nat>): string {
    SELECT + RenderList(Asked(b, ids)) + FROM + b.sql + MERGED
  }

  lemma {:induction false} RenderListNonempty(items: seq<Item>)
    ensures items != [] ==> RenderList(items) != ""
  {
    if items != [] {
      assert |Render(items[|items| - 1])| > 0;
    }
  }

  method ProjectColumn(b: BindData, id: nat) returns (text: string)
    ensures text == Render(Resolve(b, id))
  {
    if id < |b.columnNames| {
      text := QuoteIdent(b.columnNames[id]);
    } else if id in b.virtualNames {
      text := QuoteIdent(b.virtualNames[id]);
    } else {
      text := ONE;
    }
  }

  method ProjectColumns(b: BindData, ids: seq<nat>) returns (projection: string)
    ensures projection == RenderList(Requested(b, ids))
  {
    projection := "";
    ghost var items := Requested(b, ids);
    for i := 0 to |ids|
      invariant projection == RenderList(items[..i])
    {
      RenderListStep(items, i, ", ");
      var column := ProjectColumn(b, ids[i]);
      if i > 0 {
        projection := projection + ", ";
      }
      projection := projection + column;
    }
    assert items[..|ids|] == items;
  }

  lemma RenderListStep(items: seq<Item>, i: nat, comma: string)
    requires i < |items| && comma == ", "
    ensures RenderList(items[..i + 1]) ==
            if i > 0 then RenderList(items[..i]) + comma + Render(items[i])
            else RenderList(items[..i]) + Render(items[i])
  {
    assert items[..i + 1][..i] == items[..i];
    assert RenderList(items[..i]) + "" == RenderList(items[..i]);
  }

  method ProjectedScanSql(b: BindData, ids: seq<nat>) returns (sql: string)
    ensures sql == ScanSql(b, ids)
  {
    var projection := ProjectColumns(b, ids);
    RenderListNonempty(Requested(b, ids));
    if projection == "" {
      RenderListOne([One]);
      projection := ONE;
    }
    sql := SELECT + projection + FROM + b.sql + MERGED;
  }

  // ---------- reading ----------

  function Skip(word: string, s: string): Option<string> {
    if word <= s then Some(s[|word|..]) else None
  }

  lemma Skips(word: string, rest: string)
    ensures Skip(word, word + rest) == Some(rest)
  {
    assert (word + rest)[|word|..] == rest;
  }

  // The rest of a delimited identifier, its opening quote already read.
  function ReadIdent(s: string): Option<(string, string)> {
    if s == "" then None
    else if s[0] != '"' then
      match ReadIdent(s[1..])
      case None => None
      case Some((name, rest)) => Some(([s[0]] + name, rest))
    else if |s| > 1 && s[1] == '"' then
      match ReadIdent(s[2..])
      case None => None
      case Some((name, rest)) => Some((['"'] + name, rest))
    else Some(("", s[1..]))
  }

  function ReadItem(s: string): Option<(Item, string)> {
    if s != "" && s[0] == '"' then
      match ReadIdent(s[1..])
      case None => None
      case Some((name, rest)) => if name == "" then None else Some((Ident(name), rest))
    else
      match Skip(ONE, s)
      case None => None
      case Some(rest) => Some((One, rest))
  }

  function ReadList(s: string): Option<(seq<Item>, string)>
    decreases |s|
  {
    match ReadItem(s)
    case None => None
    case Some((item, rest)) =>
      match Skip(", ", rest)
      case None => Some(([item], rest))
      case Some(next) =>
        if |next| >= |s| then None
        else
          match ReadList(next)
          case None => None
          case Some((items, tail)) => Some(([item] + items, tail))
  }

  // The query without the words around it.
  function ReadSelect(s: string): Option<(seq<Item>, string)> {
    match Skip(SELECT, s)
    case None => None
    case Some(list) =>
      match ReadList(list)
      case None => None
      case Some((items, rest)) =>
        match Skip(FROM, rest)
        case None => None
        case Some(inner) =>
          if |inner| >= |MERGED| && inner[|inner| - |MERGED|..] == MERGED
          then Some((items, inner[..|inner| - |MERGED|]))
          else None
  }

  // ---------- round trip ----------

  lemma {:induction false} EscapeCons(name: string)
    requires name != ""
    ensures Escape(name) == (if name[0] == '"' then "\"\"" else [name[0]]) + Escape(name[1..])
    decreases |name|
  {
    if |name| == 1 {
      assert name[..0] == "" && name[1..] == "";
    } else {
      EscapeCons(name[..|name| - 1]);
      assert name[1..][..|name[1..]| - 1] == name[..|name| - 1][1..];
    }
  }

  lemma {:induction false} ReadsIdentBack(name: string, rest: string)
    requires rest != "" ==> rest[0] != '"'
    ensures ReadIdent(Escape(name) + "\"" + rest) == Some((name, rest))
    decreases |name|
  {
    var s := Escape(name) + "\"" + rest;
    if name == "" {
      assert s == "\"" + rest && s[1..] == rest;
    } else {
      EscapeCons(name);
      ReadsIdentBack(name[1..], rest);
      var tail := Escape(name[1..]) + "\"" + rest;
      if name[0] == '"' {
        assert s == "\"\"" + tail && s[2..] == tail;
      } else {
        assert s == [name[0]] + tail && s[1..] == tail;
      }
      assert [name[0]] + name[1..] == name;
    }
  }

  predicate Named(item: Item) {
    item.Ident? ==> item.name != ""
  }

  lemma Assoc(a: string, b: string, c: string)
    ensures (a + b) + c == a + (b + c)
  {
  }

  lemma Words()
    ensures ONE != "" && ONE[0] != '"' && FROM != "" && FROM[0] == ' '
  {
  }

  lemma QuotedFirst(name: string, rest: string)
    ensures var s := Quoted(name) + rest; s != "" && s[0] == '"' && s[1..] == Escape(name) + "\"" + rest
  {
    Assoc("\"", Escape(name), "\"");
    Assoc("\"", Escape(name) + "\"", rest);
    assert ("\"" + (Escape(name) + "\"" + rest))[1..] == Escape(name) + "\"" + rest;
  }

  lemma ReadsItemBack(item: Item, rest: string)
    requires Named(item) && (rest != "" ==> rest[0] != '"')
    ensures ReadItem(Render(item) + rest) == Some((item, rest))
  {
    match item
    case Ident(name) =>
      QuotedFirst(name, rest);
      ReadsIdentBack(name, rest);
    case One =>
      ReadsOneBack(ONE, rest);
  }

  lemma ReadsOneBack(one: string, rest: string)
    requires one == ONE
    ensures ReadItem(one + rest) == Some((One, rest))
  {
    Words();
    assert (one + rest)[0] == one[0];
    Skips(one, rest);
  }

  lemma RenderListSnoc(items: seq<Item>, comma: string)
    requires |items| > 1 && comma == ", "
    ensures RenderList(items) == RenderList(items[..|items| - 1]) + comma + Render(items[|items| - 1])
  {
  }

  lemma {:induction false} RenderListCons(items: seq<Item>, comma: string)
    requires |items| > 1 && comma == ", "
    ensures RenderList(items) == Render(items[0]) + (comma + RenderList(items[1..]))
    decreases |items|
  {
    var last := |items| - 1;
    var r0, r := Render(items[0]), Render(items[last]);
    RenderListSnoc(items, comma);
    if |items| == 2 {
      RenderListOne(items[..1]);
      RenderListOne(items[1..]);
      Assoc(r0, comma, r);
    } else {
      RenderListCons(items[..last], comma);
      RenderListSnoc(items[1..], comma);
      assert items[1..][..|items[1..]| - 1] == items[..last][1..];
      Regroup(r0, comma, RenderList(items[..last][1..]), r);
    }
  }

  lemma RenderListOne(items: seq<Item>)
    requires |items| == 1
    ensures RenderList(items) == Render(items[0])
  {
    assert RenderList(items[..0]) == "";
    assert "" + "" + Render(items[0]) == Render(items[0]);
  }

  lemma Regroup(a: string, c: string, m: string, r: string)
    ensures (a + (c + m)) + c + r == a + (c + (m + c + r))
  {
  }

  lemma {:induction false} ReadsListBack(items: seq<Item>, rest: string)
    requires items != [] && forall item <- items :: Named(item)
    requires rest != "" && rest[0] == ' '
    ensures ReadList(RenderList(items) + rest) == Some((items, rest))
    decreases |items|
  {
    assert items[0] in items;
    if |items| == 1 {
      RenderListOne(items);
      ReadsItemBack(items[0], rest);
      assert Skip(", ", rest) == None;
      assert [items[0]] == items;
    } else {
      var comma := ", ";
      var tail := RenderList(items[1..]) + rest;
      RenderListCons(items, comma);
      Assoc(Render(items[0]), comma + RenderList(items[1..]), rest);
      Assoc(comma, RenderList(items[1..]), rest);
      assert RenderList(items) + rest == Render(items[0]) + (comma + tail);
      ReadsItemBack(items[0], comma + tail);
      Skips(comma, tail);
      ReadsListBack(items[1..], rest);
      assert [items[0]] + items[1..] == items;
    }
  }

  lemma RegroupSelect(select: string, list: string, from: string, sql: string, merged: string)
    ensures select + list + from + sql + merged == select + (list + (from + (sql + merged)))
    ensures (sql + merged)[|sql + merged| - |merged|..] == merged && (sql + merged)[..|sql + merged| - |merged|] == sql
  {
  }

  lemma ReadsSelectBack(items: seq<Item>, sql: string, select: string, from: string, merged: string)
    requires items != [] && forall item <- items :: Named(item)
    requires select == SELECT && from == FROM && merged == MERGED
    ensures ReadSelect(select + RenderList(items) + from + sql + merged) == Some((items, sql))
  {
    var list, inner := RenderList(items), sql + merged;
    var rest := from + inner;
    Words();
    RegroupSelect(select, list, from, sql, merged);
    Skips(select, list + rest);
    assert rest[0] == from[0];
    ReadsListBack(items, rest);
    Skips(from, inner);
  }

  /** Reading the generated SQL back: one item for each requested id, in order,
      which is the column of that number, or else the column a virtual id maps to,
      or else a constant; a lone constant when nothing is requested; and the merged
      read it wraps.  Quotes, commas, spaces and parentheses in the names and in that
      read make no difference. */
  lemma ProjectionRoundTrip(b: BindData, ids: seq<nat>)
    requires forall i :: 0 <= i < |ids| ==>
               if ids[i] < |b.columnNames| then b.columnNames[ids[i]] != ""
               else ids[i] in b.virtualNames ==> b.virtualNames[ids[i]] != ""
    ensures var read := ReadSelect(ScanSql(b, ids));
            && read.Some? && read.value.1 == b.sql
            && var items := read.value.0;
            && (ids == [] ==> items == [One])
            && (ids != [] ==> |items| == |ids|)
            && (forall i :: 0 <= i < |ids| ==>
                  && (ids[i] < |b.columnNames| ==> items[i] == Ident(b.columnNames[ids[i]]))
                  && (ids[i] >= |b.columnNames| && ids[i] in b.virtualNames ==>
                        items[i] == Ident(b.virtualNames[ids[i]]))
                  && (ids[i] >= |b.columnNames| && ids[i] !in b.virtualNames ==> items[i] == One))
  {
    var asked := Asked(b, ids);
    forall item | item in asked ensures Named(item) {
      var i :| 0 <= i < |asked| && asked[i] == item;
    }
    ReadsSelectBack(asked, b.sql, SELECT, FROM, MERGED);
  }

  // ---------- the row-id columns ----------

  // DuckDB numbers virtual columns from here on, far above any column index.
  const VIRTUAL_COLUMN_START: nat := 0x8000_0000_0000_0000

  datatype RoutingColumn = RoutingColumn(virtualId: nat, name: string)

  method RoutingColumns(ts: TableSchema) returns (out: seq<RoutingColumn>)
    ensures |out| == |RoutingCols(ts)|
    ensures forall i :: 0 <= i < |out| ==> out[i] == RoutingColumn(VIRTUAL_COLUMN_START + 1 + i, RoutingCols(ts)[i])
  {
    out := [];
    for i := 0 to |ts.pkCols|
      invariant |out| == i
      invariant forall j :: 0 <= j < i ==> out[j] == RoutingColumn(VIRTUAL_COLUMN_START + 1 + j, ts.pkCols[j])
    {
      out := out + [RoutingColumn(VIRTUAL_COLUMN_START + 1 + |out|, ts.pkCols[i])];
    }
    out := out + [RoutingColumn(VIRTUAL_COLUMN_START + 1 + |out|, ts.tierCol)];
  }

  method GetRowIdColumns(ts: TableSchema) returns (ids: seq<nat>)
    ensures ids == RowIds(|RoutingCols(ts)|)
  {
    var columns := RoutingColumns(ts);
    ids := [];
    for i := 0 to |columns|
      invariant ids == RowIds(i)
    {
      ids := ids + [columns[i].virtualId];
    }
  }

  method VirtualNames(ts: TableSchema) returns (names: map<nat, string>)
    ensures names == RoutingNames(ts, |RoutingCols(ts)|)
  {
    var columns := RoutingColumns(ts);
    names := map[];
    for i := 0 to |columns|
      invariant names == RoutingNames(ts, i)
    {
      names := names[columns[i].virtualId := columns[i].name];
    }
  }

  function RowIds(count: nat): seq<nat> {
    seq(count, i requires 0 <= i < count => VIRTUAL_COLUMN_START + 1 + i)
  }

  // The virtual columns of the first `count` routing columns.
  function RoutingNames(ts: TableSchema, count: nat): map<nat, string>
    requires count <= |RoutingCols(ts)|
  {
    if count == 0 then map[]
    else RoutingNames(ts, count - 1)[VIRTUAL_COLUMN_START + count := RoutingCols(ts)[count - 1]]
  }

  lemma {:induction false} RoutingNamesAt(ts: TableSchema, count: nat, id: nat)
    requires count <= |RoutingCols(ts)|
    ensures id in RoutingNames(ts, count) <==> VIRTUAL_COLUMN_START < id <= VIRTUAL_COLUMN_START + count
    ensures id in RoutingNames(ts, count) ==>
              RoutingNames(ts, count)[id] == RoutingCols(ts)[id - VIRTUAL_COLUMN_START - 1]
    decreases count
  {
    if count > 0 {
      RoutingNamesAt(ts, count - 1, id);
    }
  }

  function RoutingItems(ts: TableSchema): seq<Item> {
    seq(|RoutingCols(ts)|, i requires 0 <= i < |RoutingCols(ts)| => Ident(RoutingCols(ts)[i]))
  }

  /** Asking for the row-id columns reads the real routing columns: the key columns
      in order, then the tier key. */
  lemma RowIdsReadRoutingKey(ts: TableSchema, columnNames: seq<string>, sql: string)
    requires |columnNames| <= VIRTUAL_COLUMN_START
    requires forall c <- RoutingCols(ts) :: c != ""
    ensures var b := BindData(columnNames, RoutingNames(ts, |RoutingCols(ts)|), sql);
            ReadSelect(ScanSql(b, RowIds(|RoutingCols(ts)|))) == Some((RoutingItems(ts), sql))
  {
    var n := |RoutingCols(ts)|;
    var b := BindData(columnNames, RoutingNames(ts, n), sql);
    forall i | 0 <= i < n ensures Resolve(b, RowIds(n)[i]) == RoutingItems(ts)[i] {
      RoutingNamesAt(ts, n, RowIds(n)[i]);
    }
    assert Asked(b, RowIds(n)) == RoutingItems(ts);
    forall item | item in RoutingItems(ts) ensures Named(item) {
      var i :| 0 <= i < n && RoutingItems(ts)[i] == item;
      assert RoutingCols(ts)[i] in RoutingCols(ts);
    }
    ReadsSelectBack(RoutingItems(ts), sql, SELECT, FROM, MERGED);
  }
}
