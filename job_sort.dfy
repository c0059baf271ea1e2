/** The job table's sort (`sortedData` in `BullMQJobList`): a copy of the
    filtered rows sorted in place with a comparator that maps missing
    cells to plus or minus infinity. */
module JobSort {
  import opened JsValues
  import opened Jobs

  /** The sortable columns, by their `dataIndex`. */
  datatype Column =
    | IdColumn          // "id"
    | NameColumn        // "name"
    | QueueColumn       // "queueName"
    | StatusColumn      // "currentStatus"
    | CreatedColumn     // "timestamp"
    | ProcessedColumn   // "processedOn"
    | FinishedColumn    // "finishedOn"

  datatype Order = Ascend | Descend

  /** The table's sort state; either part may be cleared. */
  datatype SortInfo = SortInfo(columnKey: Option<Column>, order: Option<Order>)

  /** What a column holds for one row: nothing (`null`/`undefined`), a
      number or a string. */
  datatype Cell = Missing | NumCell(n: int) | TextCell(s: string)

  predicate NumericColumn(col: Column)
  {
    col.CreatedColumn? || col.ProcessedColumn? || col.FinishedColumn?
  }

  /** `row[columnKey]`. Numeric columns never hold text and text columns
      never hold numbers. */
  function CellOf(col: Column, x: Row): (c: Cell)
    ensures NumericColumn(col) ==> !c.TextCell?
    ensures !NumericColumn(col) ==> !c.NumCell?
  {
    match col
    case IdColumn => if x.id.Some? then TextCell(x.id.value) else Missing
    case NameColumn => TextCell(x.name)
    case QueueColumn => TextCell(x.queueName)
    case StatusColumn => TextCell(x.currentStatus)
    case CreatedColumn => NumCell(x.timestamp)
    case ProcessedColumn => if x.processedOn.Some? then NumCell(x.processedOn.value) else Missing
    case FinishedColumn => if x.finishedOn.Some? then NumCell(x.finishedOn.value) else Missing
  }

  /** Two cells never pair a number with a string. */
  predicate SameKind(a: Cell, b: Cell)
  {
    !(a.NumCell? && b.TextCell?) && !(a.TextCell? && b.NumCell?)
  }

  /** How JavaScript's `<` sees a cell once a missing cell has been
      replaced by `Infinity` (ascending) or `-Infinity` (descending): a
      string becomes a finite number (`numeric(s)`) or NaN. */
  datatype Extended = NegInf | Finite | PosInf | NaN

  function Rank(c: Cell, order: Order, numeric: string -> bool): Extended
  {
    match c
    case Missing => if order == Ascend then PosInf else NegInf
    case NumCell(_) => Finite
    case TextCell(s) => if numeric(s) then Finite else NaN
  }

  /** JavaScript's `<` when at least one side is infinite. */
  predicate ExtLess(a: Extended, b: Extended)
  {
    (a == NegInf && (b == Finite || b == PosInf)) || (a == Finite && b == PosInf)
  }

  /** The comparator passed to `sortedData.sort`. Missing cells are
      compared in ascending direction whatever the order; present strings
      use the host's `localeCompare` (`lc`), present numbers subtraction.
      Two missing cells tie; a missing cell against a number goes last
      when ascending and first when descending; against a string it is
      "smaller" only when the string is numeric and on the side the order
      puts first, and "greater" otherwise. */
  function CompareCells(a: Cell, b: Cell, order: Order, lc: (string, string) -> int, numeric: string -> bool): (r: int)
    requires SameKind(a, b)
    ensures a.Missing? && b.Missing? ==> r == 0
    ensures a.Missing? != b.Missing? ==> r == 1 || r == -1
    ensures a.Missing? && b.NumCell? ==> (r == 1 <==> order == Ascend)
    ensures a.NumCell? && b.Missing? ==> (r == -1 <==> order == Ascend)
    ensures a.Missing? && b.TextCell? ==> (r == -1 <==> order == Descend && numeric(b.s))
    ensures a.TextCell? && b.Missing? ==> (r == -1 <==> order == Ascend && numeric(a.s))
    ensures a.NumCell? && b.NumCell? ==> (r < 0 <==> if order == Ascend then a.n < b.n else a.n > b.n)
    ensures a.NumCell? && b.NumCell? ==> (r == 0 <==> a.n == b.n)
    ensures a.TextCell? && b.TextCell? ==> r == if order == Ascend then lc(a.s, b.s) else lc(b.s, a.s)
  {
    if a.Missing? || b.Missing? then
      if a.Missing? && b.Missing? then 0
      else if ExtLess(Rank(a, order, numeric), Rank(b, order, numeric)) then -1
      else 1
    else if a.TextCell? && b.TextCell? then
      if order == Ascend then lc(a.s, b.s) else lc(b.s, a.s)
    else if order == Ascend then a.n - b.n
    else b.n - a.n
  }

  /** The comparator on two rows: on a numeric column it ties exactly
      equal cells, orders present values as the order says and puts a
      missing value last when ascending; on the name, queue and status
      columns it is `localeCompare` in the chosen direction. */
  function RowCompare(col: Column, order: Order, lc: (string, string) -> int, numeric: string -> bool, x: Row, y: Row): (r: int)
    ensures NumericColumn(col) ==> (r == 0 <==> CellOf(col, x) == CellOf(col, y))
    ensures NumericColumn(col) && CellOf(col, x).NumCell? && CellOf(col, y).NumCell? ==>
              (r < 0 <==> if order == Ascend then CellOf(col, x).n < CellOf(col, y).n else CellOf(col, x).n > CellOf(col, y).n)
    ensures NumericColumn(col) && CellOf(col, x).Missing? && CellOf(col, y).NumCell? ==> (r > 0 <==> order == Ascend)
    ensures col.NameColumn? ==> r == if order == Ascend then lc(x.name, y.name) else lc(y.name, x.name)
    ensures col.QueueColumn? ==> r == if order == Ascend then lc(x.queueName, y.queueName) else lc(y.queueName, x.queueName)
    ensures col.StatusColumn? ==>
              r == if order == Ascend then lc(x.currentStatus, y.currentStatus) else lc(y.currentStatus, x.currentStatus)
  {
    CompareCells(CellOf(col, x), CellOf(col, y), order, lc, numeric)
  }

  /** `cmp` never claims both `x > y` and `y > x`: the condition under
      which the sort below leaves its elements in order. */
  ghost predicate AsymmetricBy<T(!new)>(cmp: (T, T) -> int)
  {
    forall x, y :: cmp(x, y) > 0 ==> cmp(y, x) <= 0
  }

  /** Elements `lo .. hi-1` of `s` are in `cmp` order, pair by pair. */
  ghost predicate SortedRange<T>(s: seq<T>, lo: int, hi: int, cmp: (T, T) -> int)
    requires 0 <= lo <= hi <= |s|
  {
    forall k :: lo <= k < hi - 1 ==> cmp(s[k], s[k + 1]) <= 0
  }

  /** The row comparator of a column and an order. */
  function Comparator(col: Column, order: Order, lc: (string, string) -> int, numeric: string -> bool): (Row, Row) -> int
  {
    (x: Row, y: Row) => RowCompare(col, order, lc, numeric, x, y)
  }

  ghost predicate Asymmetric(col: Column, order: Order, lc: (string, string) -> int, numeric: string -> bool)
  {
    AsymmetricBy(Comparator(col, order, lc, numeric))
  }

  ghost predicate Sorted(s: seq<Row>, col: Column, order: Order, lc: (string, string) -> int, numeric: string -> bool)
  {
    SortedRange(s, 0, |s|, Comparator(col, order, lc, numeric))
  }

  /** On a numeric column the comparator is always asymmetric. */
  lemma NumericColumnsAsymmetric(col: Column, order: Order, lc: (string, string) -> int, numeric: string -> bool)
    requires NumericColumn(col)
    ensures Asymmetric(col, order, lc, numeric)
  {
    forall x, y | RowCompare(col, order, lc, numeric, x, y) > 0
      ensures RowCompare(col, order, lc, numeric, y, x) <= 0
    {
      var a, b := CellOf(col, x), CellOf(col, y);
      assert !a.TextCell? && !b.TextCell?;
    }
  }

  /** On the name, queue and status columns (never missing) the
      comparator is asymmetric whenever `localeCompare` is. */
  lemma TextColumnsAsymmetric(col: Column, order: Order, lc: (string, string) -> int, numeric: string -> bool)
    requires col.NameColumn? || col.QueueColumn? || col.StatusColumn?
    requires forall s, t :: lc(s, t) > 0 ==> lc(t, s) <= 0
    ensures Asymmetric(col, order, lc, numeric)
  {
  }

  /** On the id column it is not: a row without an id and a row whose id
      is not numeric are each "greater" than the other. */
  lemma IdColumnNotAsymmetric(order: Order, lc: (string, string) -> int, numeric: string -> bool, x: Row, y: Row)
    requires x.id.None? && y.id.Some? && !numeric(y.id.value)
    ensures RowCompare(IdColumn, order, lc, numeric, x, y) == 1
    ensures RowCompare(IdColumn, order, lc, numeric, y, x) == 1
    ensures !Asymmetric(IdColumn, order, lc, numeric)
  {
    var cmp := Comparator(IdColumn, order, lc, numeric);
    assert cmp(x, y) > 0 && cmp(y, x) > 0;
  }

  /** Missing cells on a numeric column: two of them tie; against a
      present number a missing cell is greater when ascending and smaller
      when descending, consistently in both directions of comparison. */
  lemma MissingCellOrder(col: Column, order: Order, lc: (string, string) -> int, numeric: string -> bool, x: Row, y: Row)
    requires NumericColumn(col) && CellOf(col, x).Missing?
    ensures CellOf(col, y).Missing? ==> RowCompare(col, order, lc, numeric, x, y) == 0
    ensures CellOf(col, y).NumCell? ==>
              && RowCompare(col, order, lc, numeric, x, y) == (if order == Ascend then 1 else -1)
              && RowCompare(col, order, lc, numeric, y, x) == -RowCompare(col, order, lc, numeric, x, y)
  {
  }

  /** Present numbers: the comparison is antisymmetric, and negative
      exactly when the first number comes first in the chosen order. */
  lemma PresentNumberOrder(col: Column, order: Order, lc: (string, string) -> int, numeric: string -> bool, x: Row, y: Row)
    requires CellOf(col, x).NumCell? && CellOf(col, y).NumCell?
    ensures RowCompare(col, order, lc, numeric, x, y) == -RowCompare(col, order, lc, numeric, y, x)
    ensures RowCompare(col, order, lc, numeric, x, y) < 0 <==>
              if order == Ascend then CellOf(col, x).n < CellOf(col, y).n else CellOf(col, x).n > CellOf(col, y).n
  {
  }

  /** Ascending on a numeric column: once a row is missing the value,
      every later row is missing it too (missing values sort last). */
  lemma {:induction false} MissingLastWhenAscending(s: seq<Row>, col: Column, lc: (string, string) -> int, numeric: string -> bool, i: int, j: int)
    requires NumericColumn(col) && Sorted(s, col, Ascend, lc, numeric)
    requires 0 <= i < j < |s| && CellOf(col, s[i]).Missing?
    ensures CellOf(col, s[j]).Missing?
    decreases j - i
  {
    assert RowCompare(col, Ascend, lc, numeric, s[i], s[i + 1]) <= 0;
    if i + 1 < j {
      MissingLastWhenAscending(s, col, lc, numeric, i + 1, j);
    }
  }

  /** Descending on a numeric column: a row missing the value is preceded
      only by rows missing it (missing values sort first). */
  lemma {:induction false} MissingFirstWhenDescending(s: seq<Row>, col: Column, lc: (string, string) -> int, numeric: string -> bool, i: int, j: int)
    requires NumericColumn(col) && Sorted(s, col, Descend, lc, numeric)
    requires 0 <= i < j < |s| && CellOf(col, s[j]).Missing?
    ensures CellOf(col, s[i]).Missing?
    decreases j - i
  {
    assert RowCompare(col, Descend, lc, numeric, s[j - 1], s[j]) <= 0;
    if i < j - 1 {
      MissingFirstWhenDescending(s, col, lc, numeric, i, j - 1);
    }
  }

  /** Ascending on a numeric column: present values never decrease. */
  lemma {:induction false} NumbersAscending(s: seq<Row>, col: Column, lc: (string, string) -> int, numeric: string -> bool, i: int, j: int)
    requires NumericColumn(col) && Sorted(s, col, Ascend, lc, numeric)
    requires 0 <= i < j < |s| && CellOf(col, s[i]).NumCell? && CellOf(col, s[j]).NumCell?
    ensures CellOf(col, s[i]).n <= CellOf(col, s[j]).n
    decreases j - i
  {
    assert RowCompare(col, Ascend, lc, numeric, s[j - 1], s[j]) <= 0;
    if i < j - 1 {
      if CellOf(col, s[j - 1]).Missing? {
        MissingLastWhenAscending(s, col, lc, numeric, j - 1, j);
      }
      NumbersAscending(s, col, lc, numeric, i, j - 1);
    }
  }

  /** Descending on a numeric column: present values never increase. */
  lemma {:induction false} NumbersDescending(s: seq<Row>, col: Column, lc: (string, string) -> int, numeric: string -> bool, i: int, j: int)
    requires NumericColumn(col) && Sorted(s, col, Descend, lc, numeric)
    requires 0 <= i < j < |s| && CellOf(col, s[i]).NumCell? && CellOf(col, s[j]).NumCell?
    ensures CellOf(col, s[i]).n >= CellOf(col, s[j]).n
    decreases j - i
  {
    assert RowCompare(col, Descend, lc, numeric, s[i], s[i + 1]) <= 0;
    if i + 1 < j {
      if CellOf(col, s[i + 1]).Missing? {
        MissingFirstWhenDescending(s, col, lc, numeric, i + 1, j);
      }
      NumbersDescending(s, col, lc, numeric, i + 1, j);
    }
  }

  /** The state of the insertion step that moves element `j` (taken from
      position `i`) towards the front: both parts around it are in order,
      it is in order with its right neighbour, and its two neighbours are
      in order with each other. */
  ghost predicate Inserting<T>(s: seq<T>, i: int, j: int, cmp: (T, T) -> int)
    requires 0 <= j <= i < |s|
  {
    && SortedRange(s, 0, j, cmp)
    && SortedRange(s, j + 1, i + 1, cmp)
    && (j < i ==> cmp(s[j], s[j + 1]) <= 0)
    && (0 < j < i ==> cmp(s[j - 1], s[j + 1]) <= 0)
  }

  function Swap<T>(s: seq<T>, p: int, q: int): (r: seq<T>)
    requires 0 <= p < |s| && 0 <= q < |s|
    ensures |r| == |s| && multiset(r) == multiset(s)
    ensures r[p] == s[q] && r[q] == s[p]
    ensures forall k :: 0 <= k < |s| && k != p && k != q ==> r[k] == s[k]
  {
    s[p := s[q]][q := s[p]]
  }

  lemma SwapKeepsInserting<T(!new)>(s: seq<T>, i: int, j: int, cmp: (T, T) -> int)
    requires AsymmetricBy(cmp)
    requires 0 < j <= i < |s| && Inserting(s, i, j, cmp) && cmp(s[j - 1], s[j]) > 0
    ensures Inserting(Swap(s, j - 1, j), i, j - 1, cmp)
  {
    var r := Swap(s, j - 1, j);
    assert cmp(r[j - 1], r[j]) <= 0;
    forall k | j <= k < i
      ensures cmp(r[k], r[k + 1]) <= 0
    {
      if k > j {
        assert r[k] == s[k] && r[k + 1] == s[k + 1];
      }
    }
  }

  lemma InsertingDone<T>(s: seq<T>, i: int, j: int, cmp: (T, T) -> int)
    requires 0 <= j <= i < |s| && Inserting(s, i, j, cmp)
    requires j == 0 || cmp(s[j - 1], s[j]) <= 0
    ensures SortedRange(s, 0, i + 1, cmp)
  {
  }

  /** `sort` on an array (an insertion sort by adjacent swaps stands for
      the engine's algorithm): the result is a permutation of the input,
      and in comparator order when the comparator is asymmetric. */
  method SortBy<T(!new)>(a: array<T>, cmp: (T, T) -> int)
    modifies a
    ensures multiset(a[..]) == multiset(old(a[..]))
    ensures AsymmetricBy(cmp) ==> SortedRange(a[..], 0, a.Length, cmp)
  {
    ghost var asym := AsymmetricBy(cmp);
    if a.Length == 0 {
      return;
    }
    var i := 1;
    while i < a.Length
      invariant 1 <= i <= a.Length
      invariant multiset(a[..]) == multiset(old(a[..]))
      invariant asym ==> SortedRange(a[..], 0, i, cmp)
    {
      var j := i;
      while j > 0 && cmp(a[j - 1], a[j]) > 0
        invariant 0 <= j <= i
        invariant multiset(a[..]) == multiset(old(a[..]))
        invariant asym ==> Inserting(a[..], i, j, cmp)
      {
        ghost var before := a[..];
        a[j - 1], a[j] := a[j], a[j - 1];
        assert a[..] == Swap(before, j - 1, j);
        if asym {
          SwapKeepsInserting(before, i, j, cmp);
        }
        j := j - 1;
      }
      if asym {
        InsertingDone(a[..], i, j, cmp);
      }
      i := i + 1;
    }
  }

  /** `sortedData`: a copy of the filtered rows, sorted only when both a
      column and an order are set. Its length is the pagination total. */
  method SortedData(rows: seq<Row>, info: SortInfo, lc: (string, string) -> int, numeric: string -> bool) returns (sorted: seq<Row>)
    ensures |sorted| == |rows|
    ensures multiset(sorted) == multiset(rows)
    ensures !(info.columnKey.Some? && info.order.Some?) ==> sorted == rows
    ensures info.columnKey.Some? && info.order.Some? && Asymmetric(info.columnKey.value, info.order.value, lc, numeric) ==>
              Sorted(sorted, info.columnKey.value, info.order.value, lc, numeric)
  {
    var a := new Row[|rows|](i requires 0 <= i < |rows| => rows[i]);
    assert a[..] == rows;
    if info.columnKey.Some? && info.order.Some? {
      SortBy(a, Comparator(info.columnKey.value, info.order.value, lc, numeric));
    }
    sorted := a[..];
    assert |multiset(sorted)| == |multiset(rows)|;
  }
}
