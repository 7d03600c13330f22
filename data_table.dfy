/**
 * The DataTable component: a header row built from the column list and a
 * virtualised body. Everything here is derived from the props; nothing is
 * state. The window of visible rows comes from the virtualiser, which is
 * not part of this model: the body takes its row indices as an argument.
 */
module DataTable {
  import opened Wrappers
  import Paging

  datatype Align = Left | Center | Right

  /** A field value of a row as the table sees it. */
  datatype Value = Undefined | Null | Number(n: int) | Text(s: string)

  /** A row: field name to value; every row the pages pass has an `id`. */
  type Row = map<string, Value>

  /** `row[key]`, `undefined` when the row has no such field. */
  function FieldOf(row: Row, key: string): Value {
    if key in row then row[key] else Undefined
  }

  /** A column: key, label, optional alignment, sortable flag (absent is false), optional renderer. */
  datatype Column = Column(key: string, caption: string, align: Option<Align>, sortable: bool,
                           render: Option<(Value, Row) -> string>)

  /** What a body cell holds: the raw field value or the renderer's output. */
  datatype Cell = Raw(value: Value) | Rendered(content: string)

  /** The sort arrow next to a header label. */
  datatype Indicator = NoIndicator | ArrowUp | ArrowDown | FadedArrowUp

  datatype HeaderCell = HeaderCell(key: string, caption: string, alignClass: string, indicator: Indicator)

  datatype BodyCell = BodyCell(key: string, alignClass: string, content: Cell)

  /** A rendered body row: its React key (the row's `id`) and one cell per column. */
  datatype BodyRow = BodyRow(key: Value, cells: seq<BodyCell>)

  /** The alignment class, the same expression in header and body. */
  function AlignClass(align: Option<Align>): (r: string)
    ensures r == "text-right" <==> align == Some(Right)
    ensures r == "text-center" <==> align == Some(Center)
    ensures r == "text-left" <==> align != Some(Right) && align != Some(Center)
  {
    if align == Some(Right) then "text-right"
    else if align == Some(Center) then "text-center"
    else "text-left"
  }

  /** A header click: the key handed to onSortChange, or None when nothing is dispatched. */
  function HeaderClick(col: Column, hasSortHandler: bool): (r: Option<string>)
    ensures r.Some? <==> col.sortable && hasSortHandler
    ensures r.Some? ==> r.value == col.key
  {
    if col.sortable && hasSortHandler then Some(col.key) else None
  }

  /** The arrow shown beside a header label. */
  function SortIndicator(col: Column, sortBy: Option<string>, sortOrder: Option<Paging.SortOrder>): (r: Indicator)
    ensures r == NoIndicator <==> !col.sortable
    ensures r == FadedArrowUp <==> col.sortable && sortBy != Some(col.key)
    ensures r == ArrowUp <==> col.sortable && sortBy == Some(col.key) && sortOrder == Some(Paging.Asc)
    ensures r == ArrowDown <==> col.sortable && sortBy == Some(col.key) && sortOrder != Some(Paging.Asc)
  {
    if !col.sortable then NoIndicator
    else if sortBy == Some(col.key) then
      (if sortOrder == Some(Paging.Asc) then ArrowUp else ArrowDown)
    else FadedArrowUp
  }

  /** A body cell's content: the renderer applied to the field and the row, else the field itself. */
  function CellContent(col: Column, row: Row): (r: Cell)
    ensures col.render.None? ==> r == Raw(FieldOf(row, col.key))
    ensures col.render.Some? ==> r.Rendered? && r.content == col.render.value(FieldOf(row, col.key), row)
  {
    match col.render
    case None => Raw(FieldOf(row, col.key))
    case Some(f) => Rendered(f(FieldOf(row, col.key), row))
  }

  /**
   * The memoised `sortedData`. Its sort column is initialised to null and
   * never set, so the data passes through: the local comparator is dead code.
   */
  function SortedData(data: seq<Row>): seq<Row> {
    data
  }

  /** The header row: one cell per column, in column order. */
  function Header(columns: seq<Column>, sortBy: Option<string>, sortOrder: Option<Paging.SortOrder>): (r: seq<HeaderCell>)
    ensures |r| == |columns|
    ensures forall i :: 0 <= i < |columns| ==>
              r[i].key == columns[i].key && r[i].caption == columns[i].caption &&
              r[i].alignClass == AlignClass(columns[i].align) &&
              r[i].indicator == SortIndicator(columns[i], sortBy, sortOrder)
  {
    seq(|columns|, i requires 0 <= i < |columns| =>
      HeaderCell(columns[i].key, columns[i].caption, AlignClass(columns[i].align), SortIndicator(columns[i], sortBy, sortOrder)))
  }

  /** One body row: keyed by the row's id, one cell per column, in column order. */
  function RenderRow(columns: seq<Column>, row: Row): (r: BodyRow)
    ensures r.key == FieldOf(row, "id")
    ensures |r.cells| == |columns|
    ensures forall i :: 0 <= i < |columns| ==>
              r.cells[i].key == columns[i].key &&
              r.cells[i].alignClass == AlignClass(columns[i].align) &&
              r.cells[i].content == CellContent(columns[i], row)
  {
    BodyRow(FieldOf(row, "id"),
      seq(|columns|, i requires 0 <= i < |columns| =>
        BodyCell(columns[i].key, AlignClass(columns[i].align), CellContent(columns[i], row))))
  }

  /** The virtualiser's row count: the length of `sortedData`. */
  function VirtualCount(data: seq<Row>): (n: nat)
    ensures n == |data|
  {
    |SortedData(data)|
  }

  /**
   * The virtualised body: one rendered row per index the virtualiser
   * yields, each index below its count.
   */
  function Body(data: seq<Row>, columns: seq<Column>, virtualIndices: seq<int>): (r: seq<BodyRow>)
    requires forall k :: 0 <= k < |virtualIndices| ==> 0 <= virtualIndices[k] < |SortedData(data)|
    ensures |r| == |virtualIndices|
    ensures forall k :: 0 <= k < |virtualIndices| ==> r[k] == RenderRow(columns, SortedData(data)[virtualIndices[k]])
  {
    var rows := SortedData(data);
    seq(|virtualIndices|, k requires 0 <= k < |virtualIndices| => RenderRow(columns, rows[virtualIndices[k]]))
  }

  /**
   * Header and body agree column by column: same key and the same alignment
   * class; a body cell shows the data row at the virtual index, keyed by its id.
   */
  lemma HeaderMatchesBody(data: seq<Row>, columns: seq<Column>, virtualIndices: seq<int>,
                          sortBy: Option<string>, sortOrder: Option<Paging.SortOrder>, k: int, i: int)
    requires forall j :: 0 <= j < |virtualIndices| ==> 0 <= virtualIndices[j] < |SortedData(data)|
    requires 0 <= k < |virtualIndices| && 0 <= i < |columns|
    ensures var body := Body(data, columns, virtualIndices);
            var header := Header(columns, sortBy, sortOrder);
            |body[k].cells| == |header| &&
            body[k].cells[i].key == header[i].key &&
            body[k].cells[i].alignClass == header[i].alignClass &&
            body[k].key == FieldOf(data[virtualIndices[k]], "id") &&
            body[k].cells[i].content == CellContent(columns[i], data[virtualIndices[k]])
  {
    var body := Body(data, columns, virtualIndices);
    assert body[k] == RenderRow(columns, data[virtualIndices[k]]);
  }
}
