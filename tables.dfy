/**
 * The column-major two-dimensional array the map keeps its data sets and
 * image channels in. `data[x]` is column x and `data[x][y]` the cell in
 * row y. A cell nobody wrote holds JavaScript's `undefined`, here `None`.
 */
module Tables {
  import opened Wrappers

  /** What reading a cell of a missing column raises in the source. */
  datatype Fault = TypeError

  /** Cell y of a column; rows past the end of the column read as `undefined`. */
  function At<V>(column: seq<Option<V>>, y: nat): (cell: Option<V>)
    ensures cell.Some? ==> cell in column
    ensures y >= |column| ==> cell == None
  {
    if y < |column| then column[y] else None
  }

  /**
   * Writing cell y of a column. A row past the end makes the column longer,
   * and the rows skipped over stay `undefined`.
   */
  function Put<V>(column: seq<Option<V>>, y: nat, v: Option<V>): (r: seq<Option<V>>)
    ensures |r| == if y < |column| then |column| else y + 1
    ensures At(r, y) == v
    ensures forall i: nat :: i != y ==> At(r, i) == At(column, i)
  {
    if y < |column| then column[y := v]
    else column + seq(y - |column|, _ => None) + [v]
  }

  /** Column indices sorted with `compareNumbers`: ascending. */
  predicate Ascending(s: seq<int>) {
    forall p, q :: 0 <= p < q < |s| ==> s[p] <= s[q]
  }

  /** The argument of `getColumns`: an array of column indices, one index, or anything else. */
  datatype Columns = Several(indices: array<int>) | One(index: int) | Neither

  /** What `getColumns` hands back: a new table, a bare column, `undefined` or `null`. */
  datatype Selection<V> = Subtable(table: Table<V>) | Column(cells: seq<Option<V>>) | Undefined | Null

  class Table<V> {
    var width: nat
    var height: nat
    var data: seq<seq<Option<V>>>

    /** `new TwoDimensionalArray(width, height)`: `width` columns of `height` unset cells. */
    constructor (width: nat, height: nat)
      ensures this.width == width && this.height == height
      ensures |data| == width
      ensures forall x :: 0 <= x < width ==> |data[x]| == height
      ensures forall x: nat, y: nat :: x < width ==> At(data[x], y) == None
    {
      this.width := width;
      this.height := height;
      data := seq(width, _ => seq(height, _ => None));
    }

    /** `new TwoDimensionalArray(width, height, data)`: the given columns, as they are. */
    constructor FromColumns(width: nat, height: nat, data: seq<seq<Option<V>>>)
      ensures this.width == width && this.height == height && this.data == data
    {
      this.width := width;
      this.height := height;
      this.data := data;
    }

    /** `get(x, y)`: the cell, or the fault of indexing a column that does not exist. */
    function Get(x: nat, y: nat): (r: Result<Option<V>, Fault>)
      reads this
      ensures r.Success? <==> x < |data|
      ensures r.Success? ==> r.value == At(data[x], y)
    {
      if x < |data| then Success(At(data[x], y)) else Failure(TypeError)
    }

    /** `set(x, y, value)`: cell (x, y) reads back as `value` and every other cell is unchanged. */
    method Set(x: nat, y: nat, v: Option<V>)
      requires x < |data|
      modifies this`data
      ensures data == old(data)[x := Put(old(data)[x], y, v)]
      ensures Get(x, y) == Success(v)
      ensures forall a: nat, b: nat :: a < |data| && (a != x || b != y) ==> Get(a, b) == old(Get(a, b))
    {
      data := data[x := Put(data[x], y, v)];
    }

    /**
     * `getColumns(columns)`. An array of indices is first sorted in place,
     * ascending, and the result is a new table whose k-th column is the
     * column at the k-th sorted index. One index gives that column itself
     * (`undefined` when there is none); any other argument gives `null`.
     */
    method GetColumns(columns: Columns) returns (r: Selection<V>)
      requires columns.Several? ==> forall k :: 0 <= k < columns.indices.Length ==> 0 <= columns.indices[k] < |data|
      modifies if columns.Several? then {columns.indices} else {}
      ensures columns.Several? ==>
        && var a := columns.indices;
        && Ascending(a[..]) && multiset(a[..]) == multiset(old(a[..]))
        && r.Subtable? && fresh(r.table)
        && r.table.width == a.Length && r.table.height == height
        && |r.table.data| == a.Length
        && forall k :: 0 <= k < a.Length ==> 0 <= a[k] < |data| && r.table.data[k] == data[a[k]]
      ensures columns.One? ==> r == if 0 <= columns.index < |data| then Column(data[columns.index]) else Undefined
      ensures columns.Neither? ==> r == Null
    {
      if columns.Several? {
        var a := columns.indices;
        SortAscending(a);
        forall k | 0 <= k < a.Length
          ensures 0 <= a[k] < |data|
        {
          assert a[k] == a[..][k] && a[k] in multiset(old(a[..]));
          var j :| 0 <= j < a.Length && old(a[j]) == a[k];
        }
        var columnList: seq<seq<Option<V>>> := [];
        var i := 0;
        while i < a.Length
          invariant 0 <= i <= a.Length
          invariant |columnList| == i
          invariant forall k :: 0 <= k < i ==> columnList[k] == data[a[k]]
        {
          columnList := columnList + [data[a[i]]];
          i := i + 1;
        }
        var t := new Table.FromColumns(a.Length, height, columnList);
        r := Subtable(t);
      } else if columns.One? {
        var i := columns.index;
        r := if 0 <= i < |data| then Column(data[i]) else Undefined;
      } else {
        r := Null;
      }
    }
  }

  /** `columns.sort(compareNumbers)`: the array ends up ascending and holds the same numbers. */
  method SortAscending(a: array<int>)
    modifies a
    ensures Ascending(a[..])
    ensures multiset(a[..]) == multiset(old(a[..]))
  {
    var i := 0;
    while i < a.Length
      invariant 0 <= i <= a.Length
      invariant forall p, q :: 0 <= p < q < i ==> a[p] <= a[q]
      invariant multiset(a[..]) == multiset(old(a[..]))
    {
      var j := i;
      while j > 0 && a[j - 1] > a[j]
        invariant 0 <= j <= i
        invariant forall p, q :: 0 <= p < q <= i && p != j && q != j ==> a[p] <= a[q]
        invariant forall q :: j < q <= i ==> a[j] < a[q]
        invariant multiset(a[..]) == multiset(old(a[..]))
      {
        a[j - 1], a[j] := a[j], a[j - 1];
        j := j - 1;
      }
      i := i + 1;
    }
  }
}
