/** The historian database of database/WeatherScript2.py: one table of
    timestamped readings per sensor and the logs table of coil events
    (createTables, insert_data, addLog). */
module Historian {
  import opened Flags

  /** A row of a sensor table: (timestamp, value). */
  datatype Reading = Reading(timestamp: string, value: int)

  /** A row of the logs table: (event, timestamp, description). */
  datatype LogRow = LogRow(event: string, timestamp: string, description: string)

  /** The number of coils addLog has a description for. */
  const DescriptionCount: nat := 12

  /** descriptions[address] of addLog: the event and its text for a coil. */
  function Description(address: nat): (string, string)
    requires address < DescriptionCount
  {
    if address == 0 then ("Fan", "The fan turned on")
    else if address == 1 then ("Sunny", "The weather is sunny")
    else if address == 2 then ("Storm", "A storm is occurring")
    else if address == 3 then ("Dehumidifier", "The dehumidifier turned on")
    else if address == 4 then ("Garage Lightbulb", "The garage lightbulb turned on")
    else if address == 5 then ("Bedroom Lightbulb", "The bedroom lightbulb turned on")
    else if address == 6 then ("Bathroom Lightbulb", "The bathroom lightbulb turned on")
    else if address == 7 then ("Living Room Lightbulb", "The living room lightbulb turned on")
    else if address == 8 then ("Tornado", "A tornado is approaching")
    else if address == 9 then ("Alarm Light", "The alarm light turned on because of the tornado")
    else if address == 10 then ("Snowing", "It is snowing")
    else ("Heater", "The heater turned on")
  }

  /** Each coil has its own event name, so the event of a log row tells which
      coil was on. */
  lemma DescriptionEventsDistinct()
    ensures forall a, b :: 0 <= a < b < DescriptionCount ==> Description(a).0 != Description(b).0
  {
  }

  /** The sensor tables createTables creates, in the order of its queries. */
  const SensorTables: seq<string> := [
    "temperature_data", "pressure_data", "irradiance_data", "humidity_data",
    "garage_data", "bathroom_data", "bedroom_data", "lr_data"
  ]

  /** The value column each sensor table is created with. */
  const Schema: map<string, string> := map[
    "temperature_data" := "temperature",
    "pressure_data" := "pressure",
    "irradiance_data" := "irradiance",
    "humidity_data" := "humidity",
    "garage_data" := "garage",
    "bathroom_data" := "bathroom",
    "bedroom_data" := "bedroom",
    "lr_data" := "lr"
  ]

  /** `table[:-5]`, the column insert_data writes the value into. */
  function ValueColumn(table: string): (c: string)
    ensures |c| == if |table| >= 5 then |table| - 5 else 0
    ensures c <= table
  {
    if |table| >= 5 then table[..|table| - 5] else []
  }

  /** The sensor tables are exactly the tables of the schema. */
  lemma SchemaIsSensorTables()
    ensures forall t :: t in Schema <==> t in SensorTables
  {
  }

  /** A name made of a column and the "_data" suffix gives that column back. */
  lemma ValueColumnOfSuffixed(column: string)
    ensures ValueColumn(column + "_data") == column
  {
    assert (column + "_data")[..|column|] == column;
  }

  /** The column insert_data derives from a sensor table's name is the one the
      table was created with: each name is its column followed by "_data". */
  lemma ValueColumnsMatchSchema()
    ensures forall t :: t in Schema ==> t == Schema[t] + "_data" && ValueColumn(t) == Schema[t]
  {
    forall t | t in Schema
      ensures t == Schema[t] + "_data" && ValueColumn(t) == Schema[t]
    {
      assert t == Schema[t] + "_data";
      ValueColumnOfSuffixed(Schema[t]);
    }
  }

  /** The tables after `CREATE TABLE IF NOT EXISTS` for each name in turn:
      a missing table is created empty, an existing one is left as it is. */
  function WithTables(tables: map<string, seq<Reading>>, names: seq<string>): (r: map<string, seq<Reading>>)
    ensures forall t :: t in r <==> t in tables || t in names
    ensures forall t :: t in tables ==> r[t] == tables[t]
    ensures forall t :: t in r && t !in tables ==> r[t] == []
  {
    if names == [] then tables
    else
      var before := WithTables(tables, names[..|names| - 1]);
      var t := names[|names| - 1];
      assert forall u :: u in names <==> u in names[..|names| - 1] || u == t;
      if t in before then before else before[t := []]
  }

  /** The sensor tables as createTables leaves them. */
  function WithSchema(tables: map<string, seq<Reading>>): map<string, seq<Reading>>
  {
    WithTables(tables, SensorTables)
  }

  /** createTables is idempotent. */
  lemma WithSchemaIdempotent(tables: map<string, seq<Reading>>)
    ensures WithSchema(WithSchema(tables)) == WithSchema(tables)
  {
    var once := WithSchema(tables);
    var twice := WithSchema(once);
    assert twice.Keys == once.Keys;
  }

  /** After createTables every sensor table of the schema exists. */
  lemma SchemaTablesExist(tables: map<string, seq<Reading>>)
    ensures forall t :: t in Schema ==> t in WithSchema(tables)
  {
    SchemaIsSensorTables();
  }

  /** The row addLog inserts for the coil at address i. */
  function EventRow(i: nat, timestamp: string): LogRow
    requires i < DescriptionCount
  {
    LogRow(Description(i).0, timestamp, Description(i).1)
  }

  /** addLog indexes descriptions with every true coil's address. */
  predicate InDescriptions(coils: seq<bool>)
  {
    forall k :: 0 <= k < |coils| && coils[k] ==> k < DescriptionCount
  }

  /** The rows addLog appends for a coil vector, in address order. */
  function Events(coils: seq<bool>, timestamp: string): (rows: seq<LogRow>)
    requires InDescriptions(coils)
    ensures |rows| <= |coils|
    ensures forall p :: 0 <= p < |rows| ==> rows[p].timestamp == timestamp
  {
    if coils == [] then []
    else
      var n := |coils| - 1;
      Events(coils[..n], timestamp) + (if coils[n] then [EventRow(n, timestamp)] else [])
  }

  /** addLog appends one row per true coil, in ascending address order, each
      carrying that address's description. */
  lemma {:induction false} EventsOfTrueCoils(coils: seq<bool>, timestamp: string)
    requires InDescriptions(coils)
    ensures |Events(coils, timestamp)| == |TrueIndices(coils)| == CountTrue(coils)
    ensures forall p :: 0 <= p < |TrueIndices(coils)| ==>
              TrueIndices(coils)[p] < DescriptionCount &&
              Events(coils, timestamp)[p] == EventRow(TrueIndices(coils)[p], timestamp)
  {
    TrueIndicesCount(coils);
    if coils != [] {
      var n := |coils| - 1;
      var prefix := coils[..n];
      assert coils == prefix + [coils[n]];
      EventsOfTrueCoils(prefix, timestamp);
      TrueIndicesSnoc(prefix, coils[n]);
    }
  }

  /** An all-false coil vector adds no row. */
  lemma NoTrueCoilNoEvents(coils: seq<bool>, timestamp: string)
    requires forall k :: 0 <= k < |coils| ==> !coils[k]
    ensures Events(coils, timestamp) == []
  {
    NoTrueNoIndices(coils);
    EventsOfTrueCoils(coils, timestamp);
  }

  /** Trailing false bits, such as the padding of a coil read, add no row. */
  lemma {:induction false} FalseTailAddsNoEvents(coils: seq<bool>, n: nat, timestamp: string)
    requires n <= |coils| && InDescriptions(coils[..n])
    requires forall k :: n <= k < |coils| ==> !coils[k]
    ensures InDescriptions(coils)
    ensures Events(coils, timestamp) == Events(coils[..n], timestamp)
    decreases |coils|
  {
    if |coils| > n {
      var m := |coils| - 1;
      assert coils[..m][..n] == coils[..n];
      FalseTailAddsNoEvents(coils[..m], n, timestamp);
    } else {
      assert coils[..n] == coils;
    }
  }

  /** The historian database. */
  class Store {
    var tables: map<string, seq<Reading>>
    var logs: seq<LogRow>
    var hasLogTable: bool

    constructor (tables0: map<string, seq<Reading>>, logs0: seq<LogRow>, hasLogTable0: bool)
      ensures tables == tables0 && logs == logs0 && hasLogTable == hasLogTable0
    {
      tables := tables0;
      logs := logs0;
      hasLogTable := hasLogTable0;
    }

    /** createTables: every sensor table and the logs table exist afterwards;
        rows already stored are kept. */
    method CreateTables()
      modifies this
      ensures tables == WithSchema(old(tables))
      ensures logs == old(logs) && hasLogTable
    {
      for k := 0 to |SensorTables|
        invariant tables == WithTables(old(tables), SensorTables[..k])
        invariant logs == old(logs)
      {
        assert SensorTables[..k + 1][..k] == SensorTables[..k];
        var t := SensorTables[k];
        if t !in tables {
          tables := tables[t := []];
        }
      }
      assert SensorTables[..|SensorTables|] == SensorTables;
      hasLogTable := true;
    }

    /** insert_data(table, data): the rows go to the end of the table. */
    method InsertData(table: string, data: seq<Reading>)
      requires table in tables && table in Schema
      modifies this
      ensures tables == old(tables)[table := old(tables)[table] + data]
      ensures logs == old(logs) && hasLogTable == old(hasLogTable)
    {
      tables := tables[table := tables[table] + data];
    }

    /** addLog(coils, timestamp): one logs row per true coil. */
    method AddLog(coils: seq<bool>, timestamp: string)
      requires hasLogTable && InDescriptions(coils)
      modifies this
      ensures logs == old(logs) + Events(coils, timestamp)
      ensures tables == old(tables) && hasLogTable
    {
      for address := 0 to |coils|
        invariant logs == old(logs) + Events(coils[..address], timestamp)
        invariant tables == old(tables) && hasLogTable
      {
        assert coils[..address + 1][..address] == coils[..address];
        if coils[address] {
          var (event, description) := Description(address);
          logs := logs + [LogRow(event, timestamp, description)];
        }
      }
      assert coils[..|coils|] == coils;
    }
  }
}
