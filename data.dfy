/**
 * The census data behind the map: the registry of the three data sets
 * (population table, housing-unit table, list of state names), the states
 * generated from them, and the parsers that turn the loaded files into a
 * table of comma-separated cells and a list of lines.
 */
module Data {
  import opened Wrappers
  import opened Strings
  import opened Tables

  /** The keys the three data sets are registered under. */
  const PopulationKey := "Population"
  const HousingKey := "Housing"
  const StatesKey := "States"

  /** A registered data set: the selected columns of a table (names, then figures), or a list of lines. */
  datatype DataSet = TableData(columns: seq<seq<Option<string>>>) | ListData(items: seq<string>)

  /**
   * A state: its name and its two figures as `parseInt` read them; a
   * figure that was missing or not a number is None (NaN in the source).
   */
  datatype State = State(name: string, population: Option<int>, housingUnits: Option<int>)

  /** `new State(name, population, housingUnits)`: the figures go through `parseInt`. */
  function NewState(name: string, population: Option<string>, housingUnits: Option<string>): (s: State)
    ensures s.name == name
    ensures population.None? ==> s.population.None?
    ensures housingUnits.None? ==> s.housingUnits.None?
  {
    State(name, ParseCell(population), ParseCell(housingUnits))
  }

  /** A figure written in decimal, with anything after it that is not a digit, reads back as itself. */
  lemma NewStateReadsFigures(name: string, population: int, housingUnits: int, rest: string)
    requires rest == [] || (!IsDigit(rest[0]) && rest[0] != 'x' && rest[0] != 'X')
    ensures NewState(name, Some(Decimal(population) + rest), Some(Decimal(housingUnits) + rest))
      == State(name, Some(population), Some(housingUnits))
  {
    ParseIntDecimal(population, rest);
    ParseIntDecimal(housingUnits, rest);
  }

  // ---------------------------------------------------------------------
  // Finding a state's row
  // ---------------------------------------------------------------------

  /** The first index of x in s, or -1 when s does not hold it. */
  function FirstIndex<T(==)>(s: seq<T>, x: T): (i: int)
    ensures -1 <= i < |s|
    ensures i == -1 <==> x !in s
    ensures i >= 0 ==> s[i] == x && x !in s[..i]
    decreases |s|
  {
    if s == [] then -1
    else if s[0] == x then 0
    else
      var j := FirstIndex(s[1..], x);
      assert s[1..][..(if j < 0 then 0 else j)] == s[1..1 + (if j < 0 then 0 else j)];
      if j < 0 then -1 else j + 1
  }

  /** Reading `column[i]`, where an index off the column, -1 included, reads `undefined`. */
  function CellOf(column: seq<Option<string>>, i: int): Option<string> {
    if 0 <= i < |column| then column[i] else None
  }

  /**
   * `locateStateDataIndex(state, data)`: the first row whose cell in the
   * first column is the state's name, or -1 when no row is.
   */
  method LocateStateDataIndex(state: string, data: seq<seq<Option<string>>>) returns (index: int)
    requires |data| >= 1
    ensures index == FirstIndex(data[0], Some(state))
  {
    var i := 0;
    while i < |data[0]|
      invariant 0 <= i <= |data[0]|
      invariant Some(state) !in data[0][..i]
    {
      if data[0][i] == Some(state) {
        return i;
      }
      assert data[0][..i + 1] == data[0][..i] + [data[0][i]];
      i := i + 1;
    }
    assert data[0][..i] == data[0];
    return -1;
  }

  /** The state generated for one name: its figures come from the row the name is found in, in each table. */
  function StateFor(name: string, population: seq<seq<Option<string>>>, housing: seq<seq<Option<string>>>): State
    requires |population| >= 2 && |housing| >= 2
  {
    NewState(name,
      CellOf(population[1], FirstIndex(population[0], Some(name))),
      CellOf(housing[1], FirstIndex(housing[0], Some(name))))
  }

  /** The states generated for a list of names: one per name, in the list's order. */
  function Generated(names: seq<string>, population: seq<seq<Option<string>>>, housing: seq<seq<Option<string>>>): (states: seq<State>)
    requires |population| >= 2 && |housing| >= 2
    ensures |states| == |names|
    ensures forall i :: 0 <= i < |names| ==> states[i].name == names[i]
  {
    seq(|names|, i requires 0 <= i < |names| => StateFor(names[i], population, housing))
  }

  /**
   * A state's population is the figure beside the first row carrying its
   * name; with no such row it is NaN.
   */
  lemma PopulationFromFirstRow(name: string, population: seq<seq<Option<string>>>, housing: seq<seq<Option<string>>>, k: nat, n: int)
    requires |population| >= 2 && |housing| >= 2
    requires k < |population[0]| && k < |population[1]|
    requires population[0][k] == Some(name) && Some(name) !in population[0][..k]
    requires population[1][k] == Some(Decimal(n))
    ensures StateFor(name, population, housing).population == Some(n)
  {
    FirstIndexOfFirst(population[0], Some(name), k);
    ParseIntDecimal(n, []);
    assert Decimal(n) + [] == Decimal(n);
  }

  /** A name that no row carries gets no figure. */
  lemma PopulationOfUnknownName(name: string, population: seq<seq<Option<string>>>, housing: seq<seq<Option<string>>>)
    requires |population| >= 2 && |housing| >= 2
    requires Some(name) !in population[0]
    ensures StateFor(name, population, housing).population == None
  {
  }

  /** The first index is the one where x sits and does not sit before. */
  lemma FirstIndexOfFirst<T>(s: seq<T>, x: T, k: nat)
    requires k < |s| && s[k] == x && x !in s[..k]
    ensures FirstIndex(s, x) == k
  {
  }

  // ---------------------------------------------------------------------
  // The registry
  // ---------------------------------------------------------------------

  /** The shape the wiring gives each data set: tables of at least two columns, and a list of names. */
  predicate Fits(dataSet: DataSet, key: string) {
    && (key == PopulationKey || key == HousingKey ==> dataSet.TableData? && |dataSet.columns| >= 2)
    && (key == StatesKey ==> dataSet.ListData?)
  }

  class StateData {
    var states: Option<seq<State>>
    var populationData: Option<DataSet>
    var housingData: Option<DataSet>
    var statesList: Option<DataSet>

    /** Every registered data set has the shape of its key. */
    ghost predicate Valid()
      reads this
    {
      && (populationData.Some? ==> Fits(populationData.value, PopulationKey))
      && (housingData.Some? ==> Fits(housingData.value, HousingKey))
      && (statesList.Some? ==> Fits(statesList.value, StatesKey))
    }

    /** `new StateData()`: no data set and no states yet. */
    constructor ()
      ensures Valid()
      ensures states == None && populationData == None && housingData == None && statesList == None
    {
      states := None;
      populationData := None;
      housingData := None;
      statesList := None;
    }

    /** `setDataSet(dataSet, type)`: registers under the one key named; an unknown key changes nothing. */
    method SetDataSet(dataSet: DataSet, key: string)
      requires Valid() && Fits(dataSet, key)
      modifies this
      ensures Valid()
      ensures states == old(states)
      ensures populationData == if key == PopulationKey then Some(dataSet) else old(populationData)
      ensures housingData == if key == HousingKey then Some(dataSet) else old(housingData)
      ensures statesList == if key == StatesKey then Some(dataSet) else old(statesList)
    {
      if key == PopulationKey {
        populationData := Some(dataSet);
      } else if key == HousingKey {
        housingData := Some(dataSet);
      } else if key == StatesKey {
        statesList := Some(dataSet);
      }
    }

    /** `getDataSet(type)`: what is registered under the key; nothing for an unknown key. */
    function GetDataSet(key: string): (r: Option<DataSet>)
      reads this
      ensures key == PopulationKey ==> r == populationData
      ensures key == HousingKey ==> r == housingData
      ensures key == StatesKey ==> r == statesList
      ensures key != PopulationKey && key != HousingKey && key != StatesKey ==> r == None
    {
      if key == PopulationKey then populationData
      else if key == HousingKey then housingData
      else if key == StatesKey then statesList
      else None
    }

    /** `validData()`: all three data sets are registered. */
    function ValidData(): (ok: bool)
      reads this
      ensures ok <==> statesList.Some? && populationData.Some? && housingData.Some?
    {
      statesList != None && populationData != None && housingData != None
    }

    /** `dataLoaded()`: the states have been generated. */
    function DataLoaded(): (loaded: bool)
      reads this
      ensures loaded <==> states.Some?
    {
      states != None
    }

    /** The states the registered data sets give, once all three are there. */
    ghost function Expected(): seq<State>
      reads this
      requires Valid() && ValidData()
    {
      Generated(statesList.value.items, populationData.value.columns, housingData.value.columns)
    }

    /** `generateStates()`: one state per listed name, in the list's order, with the figures found for it. */
    method GenerateStates()
      requires Valid() && ValidData()
      modifies this`states
      ensures states == Some(Expected())
    {
      var names := statesList.value.items;
      var population := populationData.value.columns;
      var housing := housingData.value.columns;
      var generated: seq<State> := [];
      var i := 0;
      while i < |names|
        invariant 0 <= i <= |names|
        invariant generated == Generated(names[..i], population, housing)
      {
        var p := LocateStateDataIndex(names[i], population);
        var h := LocateStateDataIndex(names[i], housing);
        generated := generated + [NewState(names[i], CellOf(population[1], p), CellOf(housing[1], h))];
        assert names[..i + 1] == names[..i] + [names[i]];
        i := i + 1;
      }
      assert names[..i] == names;
      states := Some(generated);
    }

    /**
     * `tryGenerateStates()`: with all three data sets registered, generates
     * the states and answers true; otherwise answers false and changes
     * nothing.
     */
    method TryGenerateStates() returns (ok: bool)
      requires Valid()
      modifies this`states
      ensures ok == old(ValidData())
      ensures ok ==> states == Some(Expected()) && DataLoaded()
      ensures !ok ==> states == old(states)
    {
      if ValidData() {
        GenerateStates();
        ok := true;
      } else {
        ok := false;
      }
    }
  }

  // ---------------------------------------------------------------------
  // The parsers
  // ---------------------------------------------------------------------

  /** The largest number of fields in any row, 0 for no rows. */
  function MaxFields(rows: seq<seq<string>>): (width: nat)
    ensures forall i :: 0 <= i < |rows| ==> |rows[i]| <= width
    ensures rows != [] ==> exists i :: 0 <= i < |rows| && |rows[i]| == width
    ensures rows == [] ==> width == 0
    decreases |rows|
  {
    if rows == [] then 0
    else
      var w := MaxFields(rows[..|rows| - 1]);
      assert forall i :: 0 <= i < |rows| - 1 ==> rows[i] == rows[..|rows| - 1][i];
      if |rows[|rows| - 1]| > w then |rows[|rows| - 1]| else w
  }

  /** The fields of every line, split at the commas. */
  function Fields(lines: seq<string>): (rows: seq<seq<string>>)
    ensures |rows| == |lines|
    ensures forall i :: 0 <= i < |lines| ==> rows[i] == Split(lines[i], ',')
  {
    seq(|lines|, i requires 0 <= i < |lines| => Split(lines[i], ','))
  }

  /** Field x of row y, or `undefined` when the row is shorter. */
  function Field(rows: seq<seq<string>>, x: nat, y: nat): Option<string>
    requires y < |rows|
  {
    if x < |rows[y]| then Some(rows[y][x]) else None
  }

  /** Fills a fresh table's cells, column by column, from the rows of fields. */
  method FillTable(table: Table<string>, rows: seq<seq<string>>, width: nat)
    requires |table.data| == width
    requires forall x :: 0 <= x < width ==> |table.data[x]| == |rows|
    modifies table`data
    ensures |table.data| == width
    ensures forall x :: 0 <= x < width ==> |table.data[x]| == |rows|
    ensures forall x, y :: 0 <= x < width && 0 <= y < |rows| ==> table.data[x][y] == Field(rows, x, y)
  {
    for x := 0 to width
      invariant |table.data| == width
      invariant forall a :: 0 <= a < width ==> |table.data[a]| == |rows|
      invariant forall a, b :: 0 <= a < x && 0 <= b < |rows| ==> table.data[a][b] == Field(rows, a, b)
    {
      for y := 0 to |rows|
        invariant |table.data| == width
        invariant forall a :: 0 <= a < width ==> |table.data[a]| == |rows|
        invariant forall a, b :: 0 <= a < x && 0 <= b < |rows| ==> table.data[a][b] == Field(rows, a, b)
        invariant forall b :: 0 <= b < y ==> table.data[x][b] == Field(rows, x, b)
      {
        table.Set(x, y, Field(rows, x, y));
      }
    }
  }

  /** The fields of each line, and the largest number of fields in a line. */
  method SplitFields(csvByLine: seq<string>) returns (csvByCell: seq<seq<string>>, width: nat)
    ensures csvByCell == Fields(csvByLine)
    ensures width == MaxFields(csvByCell)
  {
    csvByCell := [];
    width := 0;
    for i := 0 to |csvByLine|
      invariant csvByCell == Fields(csvByLine[..i])
      invariant width == MaxFields(csvByCell)
    {
      var fields := Split(csvByLine[i], ',');
      assert csvByLine[..i + 1] == csvByLine[..i] + [csvByLine[i]];
      FieldsAppend(csvByLine[..i], csvByLine[i]);
      MaxFieldsAppend(csvByCell, fields);
      csvByCell := csvByCell + [fields];
      width := if |fields| > width then |fields| else width;
    }
    assert csvByLine[..|csvByLine|] == csvByLine;
  }

  /** One more line adds its fields as one more row. */
  lemma FieldsAppend(lines: seq<string>, line: string)
    ensures Fields(lines + [line]) == Fields(lines) + [Split(line, ',')]
  {
    var l := lines + [line];
    assert forall i :: 0 <= i < |lines| ==> l[i] == lines[i];
  }

  /** One more row widens the table only when it is longer than every row before it. */
  lemma MaxFieldsAppend(rows: seq<seq<string>>, row: seq<string>)
    ensures MaxFields(rows + [row]) == if |row| > MaxFields(rows) then |row| else MaxFields(rows)
  {
    assert (rows + [row])[..|rows|] == rows;
  }

  class CSVParser {
    var data: Option<Table<string>>

    /** A parser whose file has not been read yet. */
    constructor ()
      ensures data == None
    {
      data := None;
    }

    /**
     * `parseCSVAsString(string)`. The first call splits the text into
     * lines (a "\r\n" is one break) and each line into comma-separated
     * fields, and keeps a table as wide as the longest line and as high as
     * the number of lines, whose cell (x, y) is field x of line y; every
     * later call returns that same table, whatever text it is given.
     */
    method ParseCSVAsString(text: string) returns (table: Table<string>)
      modifies this`data
      ensures old(data).Some? ==> table == old(data).value && data == old(data)
      ensures old(data).None? ==>
        && fresh(table) && data == Some(table)
        && var rows := Fields(Lines(text));
        && table.height == |rows| && table.width == MaxFields(rows)
        && |table.data| == table.width
        && (forall x :: 0 <= x < table.width ==> |table.data[x]| == |rows|)
        && (forall x, y :: 0 <= x < table.width && 0 <= y < |rows| ==> table.data[x][y] == Field(rows, x, y))
    {
      if data.Some? {
        return data.value;
      }
      var csvByLine := Lines(text);
      var height := |csvByLine|;
      var csvByCell, width := SplitFields(csvByLine);
      table := new Table(width, height);
      FillTable(table, csvByCell, width);
      data := Some(table);
    }
  }

  class ListParser {
    var data: Option<seq<string>>

    /** A parser whose file has not been read yet. */
    constructor ()
      ensures data == None
    {
      data := None;
    }

    /**
     * `parseListAsString(string)`: the lines of the text (a "\r\n" is one
     * break), worked out on the first call and returned by every later one.
     */
    method ParseListAsString(text: string) returns (list: seq<string>)
      modifies this`data
      ensures old(data).Some? ==> list == old(data).value && data == old(data)
      ensures old(data).None? ==> list == Lines(text) && data == Some(list)
    {
      if data.Some? {
        return data.value;
      }
      list := Lines(text);
      data := Some(list);
    }
  }
}
