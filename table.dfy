/** The generic admin table: date pre-formatting of the rows, the column
    filters, pagination, the date-filter conversion, the row menu and the
    delete-confirmation slot. The React state slots become the fields of
    `TableState`; every handler is also given as a pure step on a `TableView`
    so that whole event traces can be reasoned about. */
module Table {
  import opened Js
  import opened FormatDate
  import Modal

  /** The `type` of a column; only `date` changes behaviour. */
  datatype ColumnType = TextColumn | DateColumn | SelectColumn

  datatype Column = Column(key: string, header: string, kind: ColumnType)

  // ---------------------------------------------------------------- date pre-formatting

  /** One `forEach` step: a date column with a truthy value is rewritten by `formatDate`. */
  function FormatCell(item: Row, c: Column, parse: DateParser): (r: Row)
    ensures r.Keys == item.Keys
    ensures forall k :: k in item && k != c.key ==> r[k] == item[k]
    ensures forall k :: k in item ==> (Truthy(r[k]) <==> Truthy(item[k]))
    ensures forall k :: k in item && !Truthy(item[k]) ==> r[k] == item[k]
  {
    if c.kind == DateColumn && Truthy(Get(item, c.key)) then
      var v := item[c.key];
      assert Truthy(Format(v, parse)) by {
        if parse(v).Some? { DisplayShape(parse(v).value); }
      }
      item[c.key := Format(v, parse)]
    else item
  }

  /** `{ ...item }` after the `forEach` over `columns`. */
  function FormatRow(item: Row, cols: seq<Column>, parse: DateParser): (r: Row)
    ensures r.Keys == item.Keys
    ensures forall k :: k in item ==> (Truthy(r[k]) <==> Truthy(item[k]))
    ensures forall k :: k in item && !Truthy(item[k]) ==> r[k] == item[k]
    decreases |cols|
  {
    if cols == [] then item
    else FormatCell(FormatRow(item, cols[..|cols| - 1], parse), cols[|cols| - 1], parse)
  }

  /** The body of the `data.map` callback, written as the source's loop. */
  method FormatItem(item: Row, columns: seq<Column>, parse: DateParser) returns (newItem: Row)
    ensures newItem == FormatRow(item, columns, parse)
  {
    newItem := item;
    for i := 0 to |columns|
      invariant newItem == FormatRow(item, columns[..i], parse)
    {
      assert columns[..i + 1][..i] == columns[..i];
      ghost var before := newItem;
      var c := columns[i];
      if c.kind == DateColumn && Truthy(Get(newItem, c.key)) {
        newItem := newItem[c.key := Format(newItem[c.key], parse)];
      }
      assert newItem == FormatCell(before, c, parse);
    }
    assert columns[..|columns|] == columns;
  }

  /** `formattedData`. */
  function FormattedData(data: seq<Row>, cols: seq<Column>, parse: DateParser): (r: seq<Row>)
    ensures |r| == |data|
    ensures forall i :: 0 <= i < |r| ==> r[i].Keys == data[i].Keys
  {
    seq(|data|, i requires 0 <= i < |data| => FormatRow(data[i], cols, parse))
  }

  /** A key that some column of type `date` names. */
  predicate IsDateKey(cols: seq<Column>, k: string) {
    exists i :: 0 <= i < |cols| && cols[i].kind == DateColumn && cols[i].key == k
  }

  predicate DistinctKeys(cols: seq<Column>) {
    forall i, j :: 0 <= i < j < |cols| ==> cols[i].key != cols[j].key
  }

  /** Pre-formatting touches only the keys of date columns. */
  lemma {:induction false} FormatRowFrame(item: Row, cols: seq<Column>, parse: DateParser, k: string)
    requires k in item && !IsDateKey(cols, k)
    ensures FormatRow(item, cols, parse)[k] == item[k]
    decreases |cols|
  {
    if cols != [] {
      var init := cols[..|cols| - 1];
      forall j | 0 <= j < |init|
        ensures !(init[j].kind == DateColumn && init[j].key == k)
      {
        assert init[j] == cols[j];
      }
      FormatRowFrame(item, init, parse, k);
      assert cols[|cols| - 1].kind != DateColumn || cols[|cols| - 1].key != k;
    }
  }

  /** With distinct column keys, a date column's field ends up as `formatDate`
      of its original value when that value is truthy, and unchanged otherwise. */
  lemma {:induction false} FormatRowDate(item: Row, cols: seq<Column>, parse: DateParser, i: int)
    requires DistinctKeys(cols) && 0 <= i < |cols| && cols[i].kind == DateColumn && cols[i].key in item
    ensures var k := cols[i].key;
      FormatRow(item, cols, parse)[k] == if Truthy(item[k]) then Format(item[k], parse) else item[k]
    decreases |cols|
  {
    var k := cols[i].key;
    var init := cols[..|cols| - 1];
    if i == |cols| - 1 {
      forall j | 0 <= j < |init|
        ensures init[j].key != k
      {
        assert init[j] == cols[j];
      }
      FormatRowFrame(item, init, parse, k);
    } else {
      assert init[i] == cols[i];
      FormatRowDate(item, init, parse, i);
    }
  }

  // ---------------------------------------------------------------- filtering

  /** One entry of `filters`: an empty value passes; otherwise the cell text,
      lower-cased, must contain the lower-cased value. */
  predicate EntryPasses(item: Row, key: string, value: string) {
    value == "" || Contains(Lower(ToStr(Get(item, key))), Lower(value))
  }

  /** A filter entry passes a row exactly when it is empty or its lower-cased
      value occurs, at some offset, in the row's lower-cased cell text. */
  lemma EntryPassesIff(item: Row, key: string, value: string)
    ensures EntryPasses(item, key, value) <==>
      value == "" || exists i :: OccursAt(Lower(ToStr(Get(item, key))), Lower(value), i)
  {
    var cell, v := Lower(ToStr(Get(item, key))), Lower(value);
    ContainsIff(cell, v);
    if value == "" {
    } else if Contains(cell, v) {
      var i :| OccursAt(cell, v, i);
      assert OccursAt(Lower(ToStr(Get(item, key))), Lower(value), i);
      assert EntryPasses(item, key, value);
      assert exists j :: OccursAt(Lower(ToStr(Get(item, key))), Lower(value), j);
    } else {
      assert !EntryPasses(item, key, value);
      assert !exists i :: OccursAt(Lower(ToStr(Get(item, key))), Lower(value), i);
    }
  }

  /** `Object.entries(filters).every(...)`. */
  predicate Matches(item: Row, filters: map<string, string>) {
    forall k :: k in filters ==> EntryPasses(item, k, filters[k])
  }

  /** `filteredData`: the rows that every filter entry passes, in order. */
  function Visible(rows: seq<Row>, filters: map<string, string>): (r: seq<Row>)
    ensures |r| <= |rows|
  {
    if rows == [] then []
    else (if Matches(rows[0], filters) then [rows[0]] else []) + Visible(rows[1..], filters)
  }

  /** The visible rows are exactly the rows that pass every filter. */
  lemma {:induction false} VisibleMembers(rows: seq<Row>, filters: map<string, string>)
    ensures forall x :: x in Visible(rows, filters) <==> x in rows && Matches(x, filters)
  {
    if rows != [] {
      VisibleMembers(rows[1..], filters);
      assert rows == [rows[0]] + rows[1..];
    }
  }

  /** `a` is `b` with some elements deleted. */
  predicate IsSubsequence<T(==)>(a: seq<T>, b: seq<T>)
    decreases |b|
  {
    if b == [] then a == []
    else (a != [] && a[0] == b[0] && IsSubsequence(a[1..], b[1..])) || IsSubsequence(a, b[1..])
  }

  /** Filtering keeps the order of the rows it keeps. */
  lemma {:induction false} VisibleSubsequence(rows: seq<Row>, filters: map<string, string>)
    ensures IsSubsequence(Visible(rows, filters), rows)
  {
    if rows != [] {
      VisibleSubsequence(rows[1..], filters);
      var r := Visible(rows, filters);
      if Matches(rows[0], filters) {
        assert r[0] == rows[0] && r[1..] == Visible(rows[1..], filters);
      } else {
        assert r == Visible(rows[1..], filters);
      }
    }
  }

  /** Filtering distributes over concatenation. */
  lemma {:induction false} VisibleAppend(a: seq<Row>, b: seq<Row>, filters: map<string, string>)
    ensures Visible(a + b, filters) == Visible(a, filters) + Visible(b, filters)
  {
    if a == [] {
      assert a + b == b;
    } else {
      assert (a + b)[0] == a[0] && (a + b)[1..] == a[1..] + b;
      VisibleAppend(a[1..], b, filters);
    }
  }


  /** With no non-empty filter value every row is shown. */
  lemma {:induction false} VisibleNoActiveFilter(rows: seq<Row>, filters: map<string, string>)
    requires forall k :: k in filters ==> filters[k] == ""
    ensures Visible(rows, filters) == rows
  {
    if rows != [] {
      VisibleNoActiveFilter(rows[1..], filters);
      assert Matches(rows[0], filters);
    }
  }

  /** The filter is case-insensitive in the value typed. */
  lemma CaseInsensitive(item: Row, key: string, value: string)
    ensures EntryPasses(item, key, value) == EntryPasses(item, key, Lower(value))
  {
    LowerIdempotent(value);
  }

  // ---------------------------------------------------------------- pagination

  const PageSizeOptions: seq<int> := [10, 25, 50, 100]

  /** `Math.ceil(count / perPage)`. */
  function TotalPages(count: nat, perPage: int): (r: nat)
    requires perPage > 0
    ensures r * perPage >= count
    ensures r == 0 || (r - 1) * perPage < count
  {
    (count + perPage - 1) / perPage
  }

  /** The index `Array.prototype.slice` uses for an argument `i`: negative
      arguments count from the end, and both ends are clamped to the length. */
  function SliceIndex(i: int, len: nat): (r: nat)
    ensures r <= len
    ensures 0 <= i <= len ==> r == i
  {
    if i < 0 then (if len + i < 0 then 0 else len + i) else if i > len then len else i
  }

  /** `s.slice(start, end)`. */
  function Slice<T>(s: seq<T>, start: int, end: int): (r: seq<T>)
    ensures |r| <= |s|
  {
    var a := SliceIndex(start, |s|);
    var b := SliceIndex(end, |s|);
    if a < b then s[a..b] else []
  }

  function Min(a: int, b: int): int { if a <= b then a else b }

  /** `currentData`: the rows of page `page`. */
  function PageRows(rows: seq<Row>, page: int, perPage: int): seq<Row> {
    var start := (page - 1) * perPage;
    Slice(rows, start, start + perPage)
  }

  /** A page never holds more rows than the page size, and for a page number of
      at least 1 it is the window `[start, min(start + perPage, |rows|))`. */
  lemma PageWindow(rows: seq<Row>, page: int, perPage: int)
    requires page >= 1 && perPage > 0
    ensures var start := (page - 1) * perPage;
      && |PageRows(rows, page, perPage)| <= perPage
      && PageRows(rows, page, perPage) == rows[Min(start, |rows|)..Min(start + perPage, |rows|)]
  {
    var start := (page - 1) * perPage;
    assert start >= 0 by { MulNonNegative(page - 1, perPage); }
  }

  lemma MulNonNegative(a: int, b: int)
    requires a >= 0 && b >= 0
    ensures a * b >= 0
  {
  }

  /** A page at or after the first is non-empty exactly when its number is at most
      `totalPages`; past the last page the table is simply empty (no clamping). */
  lemma PageNonEmpty(rows: seq<Row>, page: int, perPage: int)
    requires page >= 1 && perPage > 0
    ensures PageRows(rows, page, perPage) != [] <==> page <= TotalPages(|rows|, perPage)
  {
    PageWindow(rows, page, perPage);
    PageStartBound(|rows|, page, perPage);
  }

  /** Page `page` starts before the end of `count` rows exactly when it is at
      most `totalPages`. */
  lemma PageStartBound(count: nat, page: int, perPage: int)
    requires page >= 1 && perPage > 0
    ensures (page - 1) * perPage < count <==> page <= TotalPages(count, perPage)
  {
    var t := TotalPages(count, perPage);
    if page <= t {
      MulMono(page - 1, t - 1, perPage);
    } else {
      MulMono(t, page - 1, perPage);
    }
  }

  lemma MulMono(a: int, b: int, c: int)
    requires 0 <= a <= b && c >= 0
    ensures a * c <= b * c
  {
    assert b * c - a * c == (b - a) * c;
    MulNonNegative(b - a, c);
  }

  /** The rows of pages `1..k`, one after the other. */
  function Pages(rows: seq<Row>, perPage: int, k: nat): seq<Row>
    decreases k
  {
    if k == 0 then [] else Pages(rows, perPage, k - 1) + PageRows(rows, k, perPage)
  }

  /** Pages `1..k` together are the first `k * perPage` rows. */
  lemma {:induction false} PagesPrefix(rows: seq<Row>, perPage: int, k: nat)
    requires perPage > 0
    ensures Pages(rows, perPage, k) == rows[..Min(k * perPage, |rows|)]
    decreases k
  {
    if k > 0 {
      PagesPrefix(rows, perPage, k - 1);
      PageWindow(rows, k, perPage);
      var start := (k - 1) * perPage;
      assert k * perPage == start + perPage;
      MulNonNegative(k - 1, perPage);
      var a := Min(start, |rows|);
      var b := Min(start + perPage, |rows|);
      assert PageRows(rows, k, perPage) == rows[a..b];
      assert rows[..a] + rows[a..b] == rows[..b];
    }
  }

  /** Walking the pages `1..totalPages` shows every filtered row exactly once, in order. */
  lemma PagesCoverAll(rows: seq<Row>, perPage: int)
    requires perPage > 0
    ensures Pages(rows, perPage, TotalPages(|rows|, perPage)) == rows
  {
    PagesPrefix(rows, perPage, TotalPages(|rows|, perPage));
  }

  /** The disabled state of the two pager buttons. */
  predicate PrevDisabled(page: int) { page == 1 }

  predicate NextDisabled(page: int, totalPages: int) { page == totalPages }

  /** Within the pages that exist, "Previous" is disabled exactly when there
      is no page before, and "Next" exactly when the page after is empty. */
  lemma PagerGuards(rows: seq<Row>, page: int, perPage: int)
    requires perPage > 0 && 1 <= page <= TotalPages(|rows|, perPage)
    ensures PrevDisabled(page) <==> page - 1 < 1
    ensures NextDisabled(page, TotalPages(|rows|, perPage)) <==> PageRows(rows, page + 1, perPage) == []
  {
    PageNonEmpty(rows, page + 1, perPage);
  }

  /** With nothing to show there are no pages, yet "Next" stays enabled on page 1. */
  lemma EmptyTableNextEnabled(perPage: int)
    requires perPage > 0
    ensures TotalPages(0, perPage) == 0 && !NextDisabled(1, TotalPages(0, perPage))
  {
  }

  // ---------------------------------------------------------------- date filters

  /** Part `i` of a destructured split: a missing part is `undefined`. */
  function Part(parts: seq<string>, i: nat): (r: string)
    requires forall k :: 0 <= k < |parts| ==> '-' !in parts[k]
    ensures '-' !in r
  {
    if i < |parts| then parts[i] else ToStr(Undefined)
  }

  /** `${c}-${b}-${a}` for the first three `-`-separated parts `a`, `b`, `c`. */
  function SwapDateParts(s: string): (r: string)
    ensures var p := Split(s, '-'); Split(r, '-') == [Part(p, 2), Part(p, 1), Part(p, 0)]
  {
    var p := Split(s, '-');
    assert '-' !in ToStr(Undefined);
    SplitDashed(Part(p, 2), Part(p, 1), Part(p, 0));
    Part(p, 2) + "-" + Part(p, 1) + "-" + Part(p, 0)
  }

  /** The date conversion of the filter panel, used in both directions: the
      value `handleFilterChange` stores for a date column (`YYYY-MM-DD` to
      `DD-MM-YYYY`) and `formatDateForInput`, which shows a stored value in
      the date input (`DD-MM-YYYY` to `YYYY-MM-DD`). Both destructure the
      first three dash-separated parts and join them in reverse order; an
      empty value stays empty. */
  function SwapDateFilter(value: string): (r: string)
    ensures value == "" ==> r == ""
    ensures value != "" ==> var p := Split(value, '-'); Split(r, '-') == [Part(p, 2), Part(p, 1), Part(p, 0)]
  {
    if value == "" then "" else SwapDateParts(value)
  }

  function Dashed(a: string, b: string, c: string): string { a + "-" + b + "-" + c }

  lemma SplitDashed(a: string, b: string, c: string)
    requires '-' !in a && '-' !in b && '-' !in c
    ensures Split(Dashed(a, b, c), '-') == [a, b, c]
  {
    assert Join([a, b, c], '-') == Dashed(a, b, c) by {
      assert [a, b, c][1..] == [b, c];
      assert [b, c][1..] == [c];
      assert Join([c], '-') == c;
      assert Join([b, c], '-') == b + "-" + c;
      assert Join([a, b, c], '-') == a + "-" + (b + "-" + c);
    }
    JoinSplit([a, b, c], '-');
  }

  /** A date typed as `Y-M-D` is stored as `D-M-Y`, and the date input shows
      `Y-M-D` again. */
  lemma DateFilterRoundTrip(y: string, m: string, d: string)
    requires '-' !in y && '-' !in m && '-' !in d
    ensures SwapDateFilter(Dashed(y, m, d)) == Dashed(d, m, y)
    ensures SwapDateFilter(SwapDateFilter(Dashed(y, m, d))) == Dashed(y, m, d)
  {
    SplitDashed(y, m, d);
    SplitDashed(d, m, y);
  }

  /** A stored date filter never matches a cell that pre-formatting rewrote:
      the filter holds two dashes and a display date at most one. */
  lemma DateFilterMissesFormattedCell(item: Row, key: string, p: DateParts, y: string, m: string, d: string)
    requires '-' !in y && '-' !in m && '-' !in d
    requires Get(item, key) == Str(Display(p))
    ensures !EntryPasses(item, key, SwapDateFilter(Dashed(y, m, d)))
  {
    DateFilterRoundTrip(y, m, d);
    var f := Dashed(d, m, y);
    var cell := Display(p);
    CountCharAbsent(d, '-');
    CountCharAbsent(m, '-');
    CountCharAbsent(y, '-');
    CountCharAppend(d, "-", '-');
    CountCharAppend(d + "-", m, '-');
    CountCharAppend(d + "-" + m, "-", '-');
    CountCharAppend(d + "-" + m + "-", y, '-');
    assert CountChar("-", '-') == 1;
    LowerCountChar(f, '-');
    LowerCountChar(cell, '-');
    DisplayDashes(p);
    if Contains(Lower(cell), Lower(f)) {
      CountCharContains(Lower(cell), Lower(f), '-');
    }
  }

  // ---------------------------------------------------------------- row menu

  datatype RowAction = ReplyAction | EditAction | DeleteAction

  /** `isReviewPage()`, on the current location's path. */
  predicate IsReviewPage(pathname: string): (r: bool)
    ensures r <==> exists i :: OccursAt(pathname, "/reviews", i)
  {
    ContainsIff(pathname, "/reviews");
    Contains(pathname, "/reviews")
  }

  /** The entries of a row's action menu. */
  function RowActions(pathname: string): (acts: seq<RowAction>)
    ensures ReplyAction in acts <==> IsReviewPage(pathname)
    ensures EditAction in acts <==> !IsReviewPage(pathname)
    ensures DeleteAction in acts <==> !IsReviewPage(pathname)
  {
    if IsReviewPage(pathname) then [ReplyAction] else [EditAction, DeleteAction]
  }

  // ---------------------------------------------------------------- the state slots and their handlers

  /** `deleteModal`: whether the dialog is open and the row it would delete. */
  datatype DeleteSlot = DeleteSlot(open: bool, item: Option<Row>)

  const ClosedSlot := DeleteSlot(false, None)

  /** The four state slots of the table (the filter panel toggle aside). */
  datatype TableView = TableView(currentPage: int, itemsPerPage: int, filters: map<string, string>, deleteModal: DeleteSlot)

  const InitialView := TableView(1, 10, map[], ClosedSlot)

  /** What the state slots can hold: the page is at least 1 and the page size
      is one of the offered options. */
  predicate ValidView(v: TableView) {
    v.currentPage >= 1 && v.itemsPerPage in PageSizeOptions
  }

  /** The table's props; `pathname` stands for `window.location.pathname` and
      each `has...` says whether that callback was passed. */
  datatype TableProps = TableProps(
    data: seq<Row>,
    columns: seq<Column>,
    parse: DateParser,
    pathname: string,
    hasOnDelete: bool,
    hasOnEdit: bool,
    hasOnReply: bool)

  /** A call the table makes to its parent. */
  datatype Call = OnDelete(item: Row) | OnEdit(item: Row) | OnReply(item: Row)

  /** The filtered rows for the current state. */
  function Rows(props: TableProps, v: TableView): seq<Row> {
    Visible(FormattedData(props.data, props.columns, props.parse), v.filters)
  }

  function PageCount(props: TableProps, v: TableView): nat
    requires ValidView(v)
  {
    TotalPages(|Rows(props, v)|, v.itemsPerPage)
  }

  /** `handlePageChange`. */
  function PageChange(v: TableView, page: int): (r: TableView)
    ensures r.currentPage == page
    ensures r.(currentPage := v.currentPage) == v
  {
    v.(currentPage := page)
  }

  /** `handleItemsPerPageChange`: a new page size always goes back to page 1. */
  function ItemsPerPageChange(v: TableView, size: int): (r: TableView)
    ensures r.itemsPerPage == size && r.currentPage == 1
    ensures r.filters == v.filters && r.deleteModal == v.deleteModal
  {
    v.(itemsPerPage := size, currentPage := 1)
  }

  /** `handleFilterChange`: only the entry for `key` changes, and the view
      goes back to page 1. */
  function FilterChange(v: TableView, key: string, value: string, kind: ColumnType): (r: TableView)
    ensures r.currentPage == 1 && r.itemsPerPage == v.itemsPerPage && r.deleteModal == v.deleteModal
    ensures key in r.filters && r.filters[key] == (if kind == DateColumn then SwapDateFilter(value) else value)
    ensures forall k :: k != key ==> (k in r.filters <==> k in v.filters)
    ensures forall k :: k != key && k in v.filters ==> r.filters[k] == v.filters[k]
  {
    var stored := if kind == DateColumn then SwapDateFilter(value) else value;
    v.(filters := v.filters[key := stored], currentPage := 1)
  }

  /** `clearFilters`. */
  function ClearedFilters(v: TableView): (r: TableView)
    ensures r.filters == map[] && r.currentPage == 1
    ensures r.itemsPerPage == v.itemsPerPage && r.deleteModal == v.deleteModal
  {
    v.(filters := map[], currentPage := 1)
  }

  /** `handleDeleteClick`: opens the dialog holding the row, and nothing else. */
  function DeleteClick(v: TableView, item: Row): (r: TableView)
    ensures r.deleteModal == DeleteSlot(true, Some(item))
    ensures r.(deleteModal := v.deleteModal) == v
  {
    v.(deleteModal := DeleteSlot(true, Some(item)))
  }

  /** `handleDeleteConfirm`: calls `onDelete` with the held row when there is
      one and a callback was given, then empties the slot. */
  function DeleteConfirm(v: TableView, hasOnDelete: bool): (r: (TableView, seq<Call>))
    ensures r.0 == v.(deleteModal := ClosedSlot)
    ensures |r.1| <= 1
    ensures r.1 != [] <==> v.deleteModal.item.Some? && hasOnDelete
    ensures r.1 != [] ==> r.1[0] == OnDelete(v.deleteModal.item.value)
  {
    (v.(deleteModal := ClosedSlot),
     if v.deleteModal.item.Some? && hasOnDelete then [OnDelete(v.deleteModal.item.value)] else [])
  }

  /** The dialog's `onClose`: empties the slot without calling anyone. */
  function CloseDelete(v: TableView): (r: TableView)
    ensures r.deleteModal == ClosedSlot && r.(deleteModal := v.deleteModal) == v
  {
    v.(deleteModal := ClosedSlot)
  }

  /** The props the table passes to its confirmation dialog. */
  function DeleteDialog(v: TableView): Modal.Props {
    Modal.Props(v.deleteModal.open, Some("danger"), Some("Delete"), None, None, true)
  }

  datatype StepResult = StepResult(view: TableView, calls: seq<Call>)

  /** The dialog's callbacks, run in order: `onConfirm` is `handleDeleteConfirm`
      and `onClose` empties the slot. */
  function RunEffects(props: TableProps, v: TableView, es: seq<Modal.Effect>): (r: StepResult)
    ensures r.view.(deleteModal := v.deleteModal) == v
    ensures es != [] ==> r.view.deleteModal == ClosedSlot
    decreases |es|
  {
    if es == [] then StepResult(v, [])
    else
      var r := RunEffects(props, v, es[..|es| - 1]);
      match es[|es| - 1]
      case CallOnConfirm =>
        var (w, calls) := DeleteConfirm(r.view, props.hasOnDelete);
        StepResult(w, r.calls + calls)
      case CallOnClose(_) => StepResult(CloseDelete(r.view), r.calls)
  }

  /** What the user can do. The pager buttons, the page-size select, the filter
      inputs, the row menu entries and the dialog's buttons and dismissal. */
  datatype Event =
    | PreviousClick | NextClick | PageSizeSelect(size: int)
    | FilterInput(key: string, value: string, kind: ColumnType) | ClearFiltersClick
    | MenuClick(action: RowAction, item: Row)
    | DialogButton(button: Modal.Button) | DialogDismiss

  /** The page-size select only offers the listed sizes. */
  predicate ValidEvent(e: Event) {
    e.PageSizeSelect? ==> e.size in PageSizeOptions
  }

  /** One event. A disabled pager button, a menu entry that is not offered and
      the buttons of a closed dialog do nothing. */
  function Step(props: TableProps, v: TableView, e: Event): (r: StepResult)
    requires ValidView(v) && ValidEvent(e)
    ensures ValidView(r.view)
  {
    match e
    case PreviousClick =>
      if PrevDisabled(v.currentPage) then StepResult(v, [])
      else StepResult(PageChange(v, v.currentPage - 1), [])
    case NextClick =>
      if NextDisabled(v.currentPage, PageCount(props, v)) then StepResult(v, [])
      else StepResult(PageChange(v, v.currentPage + 1), [])
    case PageSizeSelect(size) => StepResult(ItemsPerPageChange(v, size), [])
    case FilterInput(key, value, kind) => StepResult(FilterChange(v, key, value, kind), [])
    case ClearFiltersClick => StepResult(ClearedFilters(v), [])
    case MenuClick(action, item) =>
      if action !in RowActions(props.pathname) then StepResult(v, [])
      else (match action
        case DeleteAction => StepResult(DeleteClick(v, item), [])
        case EditAction => StepResult(v, if props.hasOnEdit then [OnEdit(item)] else [])
        case ReplyAction => StepResult(v, if props.hasOnReply then [OnReply(item)] else []))
    case DialogButton(b) =>
      if !v.deleteModal.open then StepResult(v, [])
      else RunEffects(props, v, Modal.Press(DeleteDialog(v), b))
    case DialogDismiss =>
      if !v.deleteModal.open then StepResult(v, [])
      else RunEffects(props, v, Modal.Dismiss(DeleteDialog(v)))
  }

  /** A sequence of events from view `v`, with the calls made along the way. */
  function Run(props: TableProps, v: TableView, es: seq<Event>): (r: StepResult)
    requires ValidView(v) && forall i :: 0 <= i < |es| ==> ValidEvent(es[i])
    ensures ValidView(r.view)
    decreases |es|
  {
    if es == [] then StepResult(v, [])
    else
      var r := Run(props, v, es[..|es| - 1]);
      var s := Step(props, r.view, es[|es| - 1]);
      StepResult(s.view, r.calls + s.calls)
  }

  // ---------------------------------------------------------------- the delete protocol

  /** Confirming an open dialog calls `onDelete` exactly when it holds a row and
      a callback was given, with that row, and always empties the slot. */
  lemma ConfirmDeletes(props: TableProps, v: TableView)
    requires ValidView(v) && v.deleteModal.open
    ensures var r := Step(props, v, DialogButton(Modal.ConfirmButton));
      && r.view == v.(deleteModal := ClosedSlot)
      && r.calls == (if v.deleteModal.item.Some? && props.hasOnDelete then [OnDelete(v.deleteModal.item.value)] else [])
  {
    var es := Modal.Press(DeleteDialog(v), Modal.ConfirmButton);
    assert es == [Modal.CallOnConfirm, Modal.CallOnClose(false)];
    assert es[..1] == [Modal.CallOnConfirm];
    assert es[..1][..0] == [];
    var d := DeleteConfirm(v, props.hasOnDelete);
    assert RunEffects(props, v, es[..1]) == StepResult(d.0, [] + d.1);
    assert [] + d.1 == d.1;
  }

  /** Cancelling or dismissing the dialog empties the slot and calls nobody. */
  lemma CancelKeepsRows(props: TableProps, v: TableView, e: Event)
    requires ValidView(v) && (e == DialogButton(Modal.CancelButton) || e == DialogDismiss)
    ensures Step(props, v, e).calls == []
    ensures Step(props, v, e).view == (if v.deleteModal.open then v.(deleteModal := ClosedSlot) else v)
  {
    if v.deleteModal.open {
      var es := Modal.Press(DeleteDialog(v), Modal.CancelButton);
      assert es == Modal.Dismiss(DeleteDialog(v)) == [Modal.CallOnClose(false)] && es[..0] == [];
      assert RunEffects(props, v, es).calls == [];
    }
  }

  /** Only a confirmation can call `onDelete`, and only with the row the slot held;
      a step that calls it leaves the slot empty. */
  lemma {:induction false} OnlyConfirmDeletes(props: TableProps, v: TableView, e: Event, x: Row)
    requires ValidView(v) && ValidEvent(e) && OnDelete(x) in Step(props, v, e).calls
    ensures e == DialogButton(Modal.ConfirmButton) && v.deleteModal.open && v.deleteModal.item == Some(x)
    ensures Step(props, v, e).calls == [OnDelete(x)] && Step(props, v, e).view.deleteModal == ClosedSlot
  {
    match e
    case DialogButton(b) =>
      if b == Modal.ConfirmButton {
        ConfirmDeletes(props, v);
      } else {
        CancelKeepsRows(props, v, e);
      }
    case DialogDismiss =>
      CancelKeepsRows(props, v, e);
    case _ =>
  }

  function DeleteCount(calls: seq<Call>): nat {
    if calls == [] then 0 else (if calls[0].OnDelete? then 1 else 0) + DeleteCount(calls[1..])
  }

  lemma {:induction false} DeleteCountAppend(a: seq<Call>, b: seq<Call>)
    ensures DeleteCount(a + b) == DeleteCount(a) + DeleteCount(b)
  {
    if a == [] {
      assert a + b == b;
    } else {
      assert (a + b)[0] == a[0] && (a + b)[1..] == a[1..] + b;
      DeleteCountAppend(a[1..], b);
    }
  }

  /** The number of "Delete" menu clicks among the events. */
  function ClickCount(es: seq<Event>): nat
    decreases |es|
  {
    if es == [] then 0
    else ClickCount(es[..|es| - 1]) + (if es[|es| - 1].MenuClick? && es[|es| - 1].action == DeleteAction then 1 else 0)
  }

  /** The number of presses on the dialog's confirm button among the events. */
  function ConfirmCount(es: seq<Event>): nat
    decreases |es|
  {
    if es == [] then 0
    else ConfirmCount(es[..|es| - 1]) + (if es[|es| - 1] == DialogButton(Modal.ConfirmButton) then 1 else 0)
  }

  /** The events `es` hold a "Delete" menu click on row `x`. */
  predicate ClickedDelete(es: seq<Event>, x: Row) {
    exists i :: 0 <= i < |es| && es[i] == MenuClick(DeleteAction, x)
  }

  /** Deletion needs a second confirmation: starting from the initial state,
      every row handed to `onDelete` was first picked with the row menu's
      "Delete"; every call needs its own press on the dialog's confirm button;
      and each pick is used at most once (a pick still held in the slot counts
      as used). */
  lemma {:induction false} DeleteNeedsConfirmation(props: TableProps, es: seq<Event>)
    requires forall i :: 0 <= i < |es| ==> ValidEvent(es[i])
    ensures var r := Run(props, InitialView, es);
      && (forall x :: OnDelete(x) in r.calls ==> ClickedDelete(es, x))
      && (r.view.deleteModal.item.Some? ==> ClickedDelete(es, r.view.deleteModal.item.value))
      && DeleteCount(r.calls) <= ConfirmCount(es)
      && DeleteCount(r.calls) + (if r.view.deleteModal.item.Some? then 1 else 0) <= ClickCount(es)
    decreases |es|
  {
    if es != [] {
      var init := es[..|es| - 1];
      var e := es[|es| - 1];
      DeleteNeedsConfirmation(props, init);
      var r := Run(props, InitialView, init);
      var s := Step(props, r.view, e);
      DeleteCountAppend(r.calls, s.calls);
      forall x | ClickedDelete(init, x) ensures ClickedDelete(es, x) {
        var i :| 0 <= i < |init| && init[i] == MenuClick(DeleteAction, x);
        assert es[i] == init[i];
      }
      if s.calls != [] && s.calls[0].OnDelete? {
        OnlyConfirmDeletes(props, r.view, e, s.calls[0].item);
      }
      StepSlot(props, r.view, e);
      if e.MenuClick? && e.action == DeleteAction {
        assert es[|es| - 1] == MenuClick(DeleteAction, e.item);
      }
    }
  }

  /** What one step does to the delete slot and how many rows it deletes. */
  lemma StepSlot(props: TableProps, v: TableView, e: Event)
    requires ValidView(v) && ValidEvent(e)
    ensures var s := Step(props, v, e);
      && (forall x :: OnDelete(x) in s.calls ==> v.deleteModal.item == Some(x))
      && DeleteCount(s.calls) <= (if e == DialogButton(Modal.ConfirmButton) then 1 else 0)
      && DeleteCount(s.calls) + (if s.view.deleteModal.item.Some? then 1 else 0)
         <= (if v.deleteModal.item.Some? then 1 else 0) + (if e.MenuClick? && e.action == DeleteAction then 1 else 0)
      && (s.view.deleteModal.item.Some? ==>
            s.view.deleteModal.item == v.deleteModal.item
            || (e.MenuClick? && e.action == DeleteAction && s.view.deleteModal.item == Some(e.item)))
  {
    var s := Step(props, v, e);
    match e
    case DialogButton(b) =>
      if b == Modal.CancelButton { CancelKeepsRows(props, v, e); } else if v.deleteModal.open { ConfirmDeletes(props, v); }
    case DialogDismiss => CancelKeepsRows(props, v, e);
    case MenuClick(a, item) =>
      assert s.calls == [] || s.calls == [OnEdit(item)] || s.calls == [OnReply(item)];
    case _ =>
      assert s.calls == [];
  }

  /** The page number never drops below 1: "Previous" is disabled on page 1 and
      every other handler sets a positive page. */
  lemma PageStaysPositive(props: TableProps, es: seq<Event>)
    requires forall i :: 0 <= i < |es| ==> ValidEvent(es[i])
    ensures Run(props, InitialView, es).view.currentPage >= 1
  {
  }

  /** With no rows to show, "Next" stays enabled and walks past the last page:
      the table then shows an empty page. */
  lemma NextPastEnd(props: TableProps, v: TableView)
    requires ValidView(v) && Rows(props, v) == []
    ensures Step(props, v, NextClick).view.currentPage == v.currentPage + 1
    ensures PageRows(Rows(props, v), v.currentPage + 1, v.itemsPerPage) == []
  {
  }

  // ---------------------------------------------------------------- the component state

  /** The table's state slots as mutable fields. */
  class TableState {
    var currentPage: int
    var itemsPerPage: int
    var filters: map<string, string>
    var deleteModal: DeleteSlot

    function State(): TableView
      reads this
    {
      TableView(currentPage, itemsPerPage, filters, deleteModal)
    }

    predicate Valid()
      reads this
    {
      ValidView(State())
    }

    /** The `useState` initial values. */
    constructor()
      ensures State() == InitialView && Valid()
    {
      currentPage := 1;
      itemsPerPage := 10;
      filters := map[];
      deleteModal := ClosedSlot;
    }

    method HandlePageChange(page: int)
      modifies this
      ensures State() == PageChange(old(State()), page)
    {
      currentPage := page;
    }

    method HandleItemsPerPageChange(size: int)
      requires Valid() && size in PageSizeOptions
      modifies this
      ensures State() == ItemsPerPageChange(old(State()), size) && Valid()
    {
      itemsPerPage := size;
      currentPage := 1;
    }

    method HandleFilterChange(key: string, value: string, kind: ColumnType)
      modifies this
      ensures State() == FilterChange(old(State()), key, value, kind)
    {
      var stored := value;
      if kind == DateColumn && value != "" {
        var p := Split(value, '-');
        stored := Part(p, 2) + "-" + Part(p, 1) + "-" + Part(p, 0);
      }
      filters := filters[key := stored];
      currentPage := 1;
    }

    method ClearFilters()
      modifies this
      ensures State() == ClearedFilters(old(State()))
    {
      filters := map[];
      currentPage := 1;
    }

    method HandleDeleteClick(item: Row)
      modifies this
      ensures State() == DeleteClick(old(State()), item)
    {
      deleteModal := DeleteSlot(true, Some(item));
    }

    method HandleDeleteConfirm(hasOnDelete: bool) returns (calls: seq<Call>)
      modifies this
      ensures (State(), calls) == DeleteConfirm(old(State()), hasOnDelete)
    {
      calls := [];
      if deleteModal.item.Some? && hasOnDelete {
        calls := [OnDelete(deleteModal.item.value)];
      }
      deleteModal := ClosedSlot;
    }

    method CloseDeleteModal()
      modifies this
      ensures State() == CloseDelete(old(State()))
    {
      deleteModal := ClosedSlot;
    }

    /** The rows after pre-formatting and filtering in the current state. */
    method FilteredData(props: TableProps) returns (rows: seq<Row>)
      ensures rows == Rows(props, State())
    {
      var formatted: seq<Row> := [];
      for i := 0 to |props.data|
        invariant |formatted| == i
        invariant forall j :: 0 <= j < i ==> formatted[j] == FormatRow(props.data[j], props.columns, props.parse)
      {
        var newItem := FormatItem(props.data[i], props.columns, props.parse);
        formatted := formatted + [newItem];
      }
      assert formatted == FormattedData(props.data, props.columns, props.parse);
      rows := Visible(formatted, filters);
    }

    /** `currentData`, the rows of the current page. */
    method CurrentData(props: TableProps) returns (page: seq<Row>)
      requires Valid()
      ensures page == PageRows(Rows(props, State()), currentPage, itemsPerPage)
      ensures |page| <= itemsPerPage
    {
      var rows := FilteredData(props);
      var start := (currentPage - 1) * itemsPerPage;
      page := Slice(rows, start, start + itemsPerPage);
      PageWindow(rows, currentPage, itemsPerPage);
    }

    /** Dispatches one user event to its handler; the dialog's callbacks run in
        the order the dialog fires them. */
    method Dispatch(props: TableProps, e: Event) returns (calls: seq<Call>)
      requires Valid() && ValidEvent(e)
      modifies this
      ensures State() == Step(props, old(State()), e).view && calls == Step(props, old(State()), e).calls
      ensures Valid()
    {
      calls := [];
      match e
      case PreviousClick =>
        if currentPage != 1 { HandlePageChange(currentPage - 1); }
      case NextClick =>
        var rows := FilteredData(props);
        var total := TotalPages(|rows|, itemsPerPage);
        if currentPage != total { HandlePageChange(currentPage + 1); }
      case PageSizeSelect(size) => HandleItemsPerPageChange(size);
      case FilterInput(key, value, kind) => HandleFilterChange(key, value, kind);
      case ClearFiltersClick => ClearFilters();
      case MenuClick(action, item) =>
        if action in RowActions(props.pathname) {
          match action
          case DeleteAction => HandleDeleteClick(item);
          case EditAction => if props.hasOnEdit { calls := [OnEdit(item)]; }
          case ReplyAction => if props.hasOnReply { calls := [OnReply(item)]; }
        }
      case DialogButton(b) =>
        if deleteModal.open {
          var es := Modal.Press(DeleteDialog(State()), b);
          calls := RunDialogEffects(props, es);
        }
      case DialogDismiss =>
        if deleteModal.open {
          var es := Modal.Dismiss(DeleteDialog(State()));
          calls := RunDialogEffects(props, es);
        }
    }

    /** Runs the dialog's callbacks one after the other. */
    method RunDialogEffects(props: TableProps, es: seq<Modal.Effect>) returns (calls: seq<Call>)
      modifies this
      ensures State() == RunEffects(props, old(State()), es).view
      ensures calls == RunEffects(props, old(State()), es).calls
    {
      ghost var v0 := State();
      calls := [];
      for i := 0 to |es|
        invariant State() == RunEffects(props, v0, es[..i]).view
        invariant calls == RunEffects(props, v0, es[..i]).calls
      {
        assert es[..i + 1][..i] == es[..i];
        match es[i]
        case CallOnConfirm =>
          var more := HandleDeleteConfirm(props.hasOnDelete);
          calls := calls + more;
        case CallOnClose(_) =>
          CloseDeleteModal();
      }
      assert es[..|es|] == es;
    }
  }
}
