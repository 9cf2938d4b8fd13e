/** One step of the simulation loop of database/WeatherScript2.py and the loops
    around it: the values collected for step i (simulate_sensors), their
    positional register writes, the read-back into the historian
    (read_and_save_data), the coil events (addLog), the scripted and random
    step loops and the step-count prompt. */
module Simulation {
  import opened Wrappers
  import opened Flags
  import opened Text
  import opened Scenario
  import opened Device
  import opened Historian

  // ---------------------------------------------------------------------------
  // Values collected for one step

  /** values_at_index for step i: sensors[s][i] for every sensor whose list is
      long enough, in dict order. */
  function ValuesAt(sensors: seq<Entry>, i: nat): (vals: seq<int>)
    ensures |vals| <= |sensors|
  {
    if sensors == [] then []
    else
      var n := |sensors| - 1;
      ValuesAt(sensors[..n], i) + (if i < |sensors[n].values| then [sensors[n].values[i]] else [])
  }

  /** Which sensors have a value at index i. */
  function HasValueAt(sensors: seq<Entry>, i: nat): (f: seq<bool>)
    ensures |f| == |sensors| && forall k :: 0 <= k < |sensors| ==> f[k] == (i < |sensors[k].values|)
  {
    if sensors == [] then []
    else
      var n := |sensors| - 1;
      HasValueAt(sensors[..n], i) + [i < |sensors[n].values|]
  }

  /** vals lists sensors[idx[p]].values[i], p in order. */
  predicate Selects(sensors: seq<Entry>, i: nat, vals: seq<int>, idx: seq<nat>)
  {
    |vals| == |idx| &&
    forall p :: 0 <= p < |idx| ==>
      idx[p] < |sensors| && i < |sensors[idx[p]].values| && vals[p] == sensors[idx[p]].values[i]
  }

  /** The values collected at step i are the i-th values of exactly the
      sensors that have one, in dict order. */
  lemma {:induction false} ValuesAtSelects(sensors: seq<Entry>, i: nat)
    ensures Selects(sensors, i, ValuesAt(sensors, i), TrueIndices(HasValueAt(sensors, i)))
  {
    if sensors != [] {
      var n := |sensors| - 1;
      var prefix := sensors[..n];
      var b := i < |sensors[n].values|;
      ValuesAtSelects(prefix, i);
      assert HasValueAt(sensors, i) == HasValueAt(prefix, i) + [b];
      TrueIndicesSnoc(HasValueAt(prefix, i), b);
      var idx0 := TrueIndices(HasValueAt(prefix, i));
      var vals0 := ValuesAt(prefix, i);
      assert TrueIndices(HasValueAt(sensors, i)) == idx0 + (if b then [n] else []);
      assert ValuesAt(sensors, i) == vals0 + (if b then [sensors[n].values[i]] else []);
      SelectsSnoc(sensors, i, vals0, idx0);
    }
  }

  lemma SelectsSnoc(sensors: seq<Entry>, i: nat, vals: seq<int>, idx: seq<nat>)
    requires sensors != [] && Selects(sensors[..|sensors| - 1], i, vals, idx)
    ensures var n := |sensors| - 1;
            var b := i < |sensors[n].values|;
            Selects(sensors, i,
                    vals + (if b then [sensors[n].values[i]] else []),
                    idx + (if b then [n] else []))
  {
    var n := |sensors| - 1;
    var b := i < |sensors[n].values|;
    var vals' := vals + (if b then [sensors[n].values[i]] else []);
    var idx' := idx + (if b then [n] else []);
    forall p | 0 <= p < |idx'|
      ensures idx'[p] < |sensors| && i < |sensors[idx'[p]].values| && vals'[p] == sensors[idx'[p]].values[i]
    {
      if p < |idx| {
        assert idx'[p] == idx[p] && vals'[p] == vals[p];
        assert sensors[idx[p]] == sensors[..n][idx[p]];
      }
    }
  }

  /** When every list is long enough, step i collects one value per sensor. */
  lemma {:induction false} ValuesAtAllLong(sensors: seq<Entry>, i: nat)
    requires forall k :: 0 <= k < |sensors| ==> i < |sensors[k].values|
    ensures |ValuesAt(sensors, i)| == |sensors|
    ensures forall k :: 0 <= k < |sensors| ==> ValuesAt(sensors, i)[k] == sensors[k].values[i]
  {
    if sensors != [] {
      var n := |sensors| - 1;
      ValuesAtAllLong(sensors[..n], i);
    }
  }

  /** The values_at_index loop of simulate_sensors. */
  method ValuesAtIndex(sensors: seq<Entry>, i: nat) returns (values: seq<int>)
    ensures values == ValuesAt(sensors, i)
  {
    values := [];
    for k := 0 to |sensors|
      invariant values == ValuesAt(sensors[..k], i)
    {
      assert sensors[..k + 1][..k] == sensors[..k];
      var sensorValues := sensors[k].values;
      if i < |sensorValues| {
        values := values + [sensorValues[i]];
      }
    }
    assert sensors[..|sensors|] == sensors;
  }

  // ---------------------------------------------------------------------------
  // Positional register writes

  /** The number of sensor registers a step writes and reads back. */
  const SensorCount: nat := 8

  /** The sensor whose register receives values_at_index[k]. */
  const WriteOrder: seq<string> := [
    "Humidity", "Temperature", "SunRadiation", "Pressure",
    "Motion_Sensor_Garage", "Motion_Sensor_Bathroom", "Motion_Sensor_Bedroom", "Motion_Sensor_LR"
  ]

  lemma OrderLengths()
    ensures |WriteOrder| == SensorCount && |ReadOrder| == SensorCount
  {
  }

  function WriteAddress(k: nat): int
    requires k < SensorCount
  {
    OrderLengths();
    assert WriteOrder[k] in SensorRegisters;
    SensorRegisters[WriteOrder[k]]
  }

  /** The eight write addresses are distinct. */
  lemma WriteAddressesDistinct()
    ensures forall a, b :: 0 <= a < b < SensorCount ==> WriteAddress(a) != WriteAddress(b)
  {
  }

  /** The addresses of the writes, by the names the source uses. */
  lemma WriteAddresses()
    ensures WriteAddress(0) == SensorRegisters["Humidity"]
    ensures WriteAddress(1) == SensorRegisters["Temperature"]
    ensures WriteAddress(2) == SensorRegisters["SunRadiation"]
    ensures WriteAddress(3) == SensorRegisters["Pressure"]
    ensures WriteAddress(4) == SensorRegisters["Motion_Sensor_Garage"]
    ensures WriteAddress(5) == SensorRegisters["Motion_Sensor_Bathroom"]
    ensures WriteAddress(6) == SensorRegisters["Motion_Sensor_Bedroom"]
    ensures WriteAddress(7) == SensorRegisters["Motion_Sensor_LR"]
  {
  }

  /** How many writes happen: the k-th needs values_at_index[k]. */
  function WriteCount(vals: seq<int>): (m: nat)
    ensures m <= |vals| && m <= SensorCount
    ensures m == SensorCount || m == |vals|
  {
    if |vals| < SensorCount then |vals| else SensorCount
  }

  /** The registers after the first m positional writes. */
  function WritesUpTo(registers: map<int, int>, vals: seq<int>, m: nat): map<int, int>
    requires m <= |vals| && m <= SensorCount
  {
    if m == 0 then registers
    else WritesUpTo(registers, vals, m - 1)[WriteAddress(m - 1) := vals[m - 1]]
  }

  /** The registers after the writes of a step, which stop at the first missing value. */
  function Writes(registers: map<int, int>, vals: seq<int>): map<int, int>
  {
    WritesUpTo(registers, vals, WriteCount(vals))
  }

  /** A write address among the first m. */
  predicate WrittenAddress(a: int, m: nat)
    requires m <= SensorCount
  {
    exists k :: 0 <= k < m && WriteAddress(k) == a
  }

  /** The k-th address holds the k-th value; no other register changes. */
  lemma {:induction false} WritesUpToEffect(registers: map<int, int>, vals: seq<int>, m: nat)
    requires m <= |vals| && m <= SensorCount
    ensures forall k :: 0 <= k < m ==>
              WriteAddress(k) in WritesUpTo(registers, vals, m) &&
              WritesUpTo(registers, vals, m)[WriteAddress(k)] == vals[k]
    ensures forall a :: !WrittenAddress(a, m) ==>
              (a in WritesUpTo(registers, vals, m) <==> a in registers) &&
              (a in registers ==> WritesUpTo(registers, vals, m)[a] == registers[a])
  {
    if m > 0 {
      WritesUpToEffect(registers, vals, m - 1);
      WriteAddressesDistinct();
      forall a | !WrittenAddress(a, m)
        ensures !WrittenAddress(a, m - 1) && a != WriteAddress(m - 1)
      {
        assert WriteAddress(m - 1) == a ==> WrittenAddress(a, m);
      }
    }
  }

  /** The eight write_to_holding_register calls of a step (in simulate_sensors and
      in add_random_data): values_at_index[k]
      goes to the k-th register; evaluating values_at_index[k] with fewer than
      k + 1 values raises IndexError before that write, reported as !ok. */
  method WritePositional(dev: Modbus, vals: seq<int>) returns (ok: bool)
    modifies dev
    ensures ok <==> |vals| >= SensorCount
    ensures dev.registers == Writes(old(dev.registers), vals)
    ensures dev.coils == old(dev.coils)
  {
    ghost var start := dev.registers;
    WriteAddresses();
    ok := false;
    if |vals| <= 0 { return; }
    dev.WriteToHoldingRegister(SensorRegisters["Humidity"], vals[0]);
    assert dev.registers == WritesUpTo(start, vals, 1);
    if |vals| <= 1 { return; }
    dev.WriteToHoldingRegister(SensorRegisters["Temperature"], vals[1]);
    assert dev.registers == WritesUpTo(start, vals, 2);
    if |vals| <= 2 { return; }
    dev.WriteToHoldingRegister(SensorRegisters["SunRadiation"], vals[2]);
    assert dev.registers == WritesUpTo(start, vals, 3);
    if |vals| <= 3 { return; }
    dev.WriteToHoldingRegister(SensorRegisters["Pressure"], vals[3]);
    assert dev.registers == WritesUpTo(start, vals, 4);
    if |vals| <= 4 { return; }
    dev.WriteToHoldingRegister(SensorRegisters["Motion_Sensor_Garage"], vals[4]);
    assert dev.registers == WritesUpTo(start, vals, 5);
    if |vals| <= 5 { return; }
    dev.WriteToHoldingRegister(SensorRegisters["Motion_Sensor_Bathroom"], vals[5]);
    assert dev.registers == WritesUpTo(start, vals, 6);
    if |vals| <= 6 { return; }
    dev.WriteToHoldingRegister(SensorRegisters["Motion_Sensor_Bedroom"], vals[6]);
    assert dev.registers == WritesUpTo(start, vals, 7);
    if |vals| <= 7 { return; }
    dev.WriteToHoldingRegister(SensorRegisters["Motion_Sensor_LR"], vals[7]);
    assert dev.registers == WritesUpTo(start, vals, 8);
    ok := true;
  }

  // ---------------------------------------------------------------------------
  // Read-back into the historian

  /** A sensor table and the sensor whose register is read into it. */
  datatype Source = Source(table: string, sensor: string)

  /** The sensors dict of read_and_save_data, in its order. */
  const ReadOrder: seq<Source> := [
    Source("temperature_data", "Temperature"),
    Source("pressure_data", "Pressure"),
    Source("irradiance_data", "SunRadiation"),
    Source("humidity_data", "Humidity"),
    Source("garage_data", "Motion_Sensor_Garage"),
    Source("bathroom_data", "Motion_Sensor_Bathroom"),
    Source("bedroom_data", "Motion_Sensor_Bedroom"),
    Source("lr_data", "Motion_Sensor_LR")
  ]

  function ReadAddress(k: nat): int
    requires k < SensorCount
  {
    OrderLengths();
    assert ReadOrder[k].sensor in SensorRegisters;
    SensorRegisters[ReadOrder[k].sensor]
  }

  /** The tables read into are the sensor tables, one per read, and every
      sensor read back is one the step writes. */
  lemma ReadOrderTables()
    ensures |ReadOrder| == |SensorTables| == SensorCount
    ensures forall k :: 0 <= k < |ReadOrder| ==> ReadOrder[k].table == SensorTables[k]
    ensures forall k :: 0 <= k < |ReadOrder| ==> ReadOrder[k].table in Schema
    ensures forall a, b :: 0 <= a < b < |ReadOrder| ==> ReadOrder[a].table != ReadOrder[b].table
    ensures forall k :: 0 <= k < |ReadOrder| ==> ReadOrder[k].sensor in WriteOrder
  {
  }

  /** An entry of data_to_insert: (table, timestamp, value). */
  datatype Pending = Pending(table: string, timestamp: string, value: int)

  /** read_from_holding_register(client, register) for read k is not None. */
  predicate ReadSucceeds(registers: map<int, int>, faults: seq<bool>, k: nat)
    requires k < SensorCount && |faults| == SensorCount
  {
    !faults[k] && ReadAddress(k) in registers
  }

  /** data_to_insert after the first k reads. */
  function Batch(registers: map<int, int>, faults: seq<bool>, timestamp: string, k: nat): (batch: seq<Pending>)
    requires k <= SensorCount && |faults| == SensorCount
    ensures |batch| <= k
    ensures forall p :: 0 <= p < |batch| ==> batch[p].table in Schema && batch[p].timestamp == timestamp
  {
    if k == 0 then []
    else
      ReadOrderTables();
      Batch(registers, faults, timestamp, k - 1) +
      (if ReadSucceeds(registers, faults, k - 1)
       then [Pending(ReadOrder[k - 1].table, timestamp, registers[ReadAddress(k - 1)])]
       else [])
  }

  /** The tables after insert_data(table, [(timestamp, value)]) for each entry in turn. */
  function Inserted(tables: map<string, seq<Reading>>, batch: seq<Pending>): (r: map<string, seq<Reading>>)
    requires forall p :: 0 <= p < |batch| ==> batch[p].table in tables
    ensures r.Keys == tables.Keys
  {
    if batch == [] then tables
    else
      var n := |batch| - 1;
      var before := Inserted(tables, batch[..n]);
      var row := batch[n];
      before[row.table := before[row.table] + [Reading(row.timestamp, row.value)]]
  }

  /** What the first m reads leave in the tables: read k < m adds its reading
      to its own table iff it succeeds; every other table is as it was. */
  predicate SavedUpTo(before: map<string, seq<Reading>>, after: map<string, seq<Reading>>,
                      registers: map<int, int>, faults: seq<bool>, timestamp: string, m: nat)
    requires m <= SensorCount && |faults| == SensorCount
  {
    (forall k :: 0 <= k < SensorCount ==>
       ReadOrder[k].table in before && ReadOrder[k].table in after &&
       after[ReadOrder[k].table] == before[ReadOrder[k].table] +
         (if k < m && ReadSucceeds(registers, faults, k) then [Reading(timestamp, registers[ReadAddress(k)])] else [])) &&
    (forall t :: t in before && t !in Schema ==> t in after && after[t] == before[t])
  }

  lemma {:induction false} InsertedBatch(tables: map<string, seq<Reading>>, registers: map<int, int>,
                                         faults: seq<bool>, timestamp: string, m: nat)
    requires m <= SensorCount && |faults| == SensorCount
    requires forall t :: t in Schema ==> t in tables
    ensures SavedUpTo(tables, Inserted(tables, Batch(registers, faults, timestamp, m)), registers, faults, timestamp, m)
  {
    if m > 0 {
      InsertedBatch(tables, registers, faults, timestamp, m - 1);
      var batch := Batch(registers, faults, timestamp, m - 1);
      var mid := Inserted(tables, batch);
      var reading := Reading(timestamp, if ReadAddress(m - 1) in registers then registers[ReadAddress(m - 1)] else 0);
      ReadOrderTables();
      if ReadSucceeds(registers, faults, m - 1) {
        var row := Pending(ReadOrder[m - 1].table, timestamp, registers[ReadAddress(m - 1)]);
        assert Batch(registers, faults, timestamp, m) == batch + [row];
        InsertedSnoc(tables, batch, row);
      } else {
        assert Batch(registers, faults, timestamp, m) == batch;
      }
      SavedStep(tables, mid, Inserted(tables, Batch(registers, faults, timestamp, m)), registers, faults, timestamp, m, reading);
    }
  }

  lemma SavedStep(before: map<string, seq<Reading>>, mid: map<string, seq<Reading>>, after: map<string, seq<Reading>>,
                  registers: map<int, int>, faults: seq<bool>, timestamp: string, m: nat, reading: Reading)
    requires 0 < m <= SensorCount && |faults| == SensorCount
    requires SavedUpTo(before, mid, registers, faults, timestamp, m - 1)
    requires ReadSucceeds(registers, faults, m - 1) ==> reading == Reading(timestamp, registers[ReadAddress(m - 1)])
    requires after == if ReadSucceeds(registers, faults, m - 1)
                      then mid[ReadOrder[m - 1].table := mid[ReadOrder[m - 1].table] + [reading]]
                      else mid
    requires ReadOrder[m - 1].table in Schema
    requires forall k :: 0 <= k < SensorCount && k != m - 1 ==> ReadOrder[k].table != ReadOrder[m - 1].table
    ensures SavedUpTo(before, after, registers, faults, timestamp, m)
  {
    var last := ReadOrder[m - 1].table;
    forall k | 0 <= k < SensorCount
      ensures ReadOrder[k].table in after &&
              after[ReadOrder[k].table] == before[ReadOrder[k].table] +
                (if k < m && ReadSucceeds(registers, faults, k) then [Reading(timestamp, registers[ReadAddress(k)])] else [])
    {
      if k != m - 1 {
        assert ReadOrder[k].table != last;
      }
    }
  }

  lemma InsertedSnoc(tables: map<string, seq<Reading>>, batch: seq<Pending>, row: Pending)
    requires forall p :: 0 <= p < |batch| ==> batch[p].table in tables
    requires row.table in tables
    ensures Inserted(tables, batch + [row]) ==
            Inserted(tables, batch)[row.table := Inserted(tables, batch)[row.table] + [Reading(row.timestamp, row.value)]]
  {
    assert (batch + [row])[..|batch|] == batch;
  }

  /** read_and_save_data(): createTables, one read per sensor table under the
      one timestamp, then one insert for each read that did not return None. */
  method ReadAndSaveData(dev: Modbus, db: Store, timestamp: string, faults: seq<bool>)
    requires |faults| == SensorCount
    modifies db
    ensures db.tables == Inserted(WithSchema(old(db.tables)), Batch(dev.registers, faults, timestamp, SensorCount))
    ensures db.logs == old(db.logs) && db.hasLogTable
  {
    db.CreateTables();
    SchemaTablesExist(old(db.tables));
    var dataToInsert := CollectReadings(dev, timestamp, faults);
    if dataToInsert != [] {
      InsertAll(db, dataToInsert);
    }
  }

  /** The read loop of read_and_save_data: data_to_insert, one entry per read
      that did not return None. */
  method CollectReadings(dev: Modbus, timestamp: string, faults: seq<bool>) returns (dataToInsert: seq<Pending>)
    requires |faults| == SensorCount
    ensures dataToInsert == Batch(dev.registers, faults, timestamp, SensorCount)
  {
    dataToInsert := [];
    for k := 0 to SensorCount
      invariant dataToInsert == Batch(dev.registers, faults, timestamp, k)
    {
      var source := ReadOrder[k];
      var sensorValue := dev.ReadFromHoldingRegister(SensorRegisters[source.sensor], 1, faults[k]);
      assert sensorValue.Some? <==> ReadSucceeds(dev.registers, faults, k) by {
        assert Covers(dev.registers, ReadAddress(k), 1) <==> ReadAddress(k) in dev.registers;
      }
      if sensorValue.Some? {
        dataToInsert := dataToInsert + [Pending(source.table, timestamp, sensorValue.value[0])];
      }
    }
  }

  /** The insert loop of read_and_save_data: insert_data(table, [(timestamp, value)])
      for each entry. */
  method InsertAll(db: Store, dataToInsert: seq<Pending>)
    requires forall p :: 0 <= p < |dataToInsert| ==> dataToInsert[p].table in db.tables && dataToInsert[p].table in Schema
    modifies db
    ensures db.tables == Inserted(old(db.tables), dataToInsert)
    ensures db.logs == old(db.logs) && db.hasLogTable == old(db.hasLogTable)
  {
    for p := 0 to |dataToInsert|
      invariant db.tables == Inserted(old(db.tables), dataToInsert[..p])
      invariant db.logs == old(db.logs) && db.hasLogTable == old(db.hasLogTable)
    {
      var row := dataToInsert[p];
      assert dataToInsert[..p + 1] == dataToInsert[..p] + [row];
      InsertedSnoc(old(db.tables), dataToInsert[..p], row);
      db.InsertData(row.table, [Reading(row.timestamp, row.value)]);
    }
    assert dataToInsert[..|dataToInsert|] == dataToInsert;
  }

  // ---------------------------------------------------------------------------
  // One step

  /** The device and the database together. */
  datatype World = World(registers: map<int, int>, coils: seq<bool>,
                         tables: map<string, seq<Reading>>, logs: seq<LogRow>, hasLogTable: bool)

  function Snapshot(dev: Modbus, db: Store): World
    reads dev, db
  {
    World(dev.registers, dev.coils, db.tables, db.logs, db.hasLogTable)
  }

  /** What a step takes from outside: the log timestamp (taken by the step loop
      before its writes), the readings timestamp (taken by read_and_save_data), which register reads fail, and whether the
      coil read fails. The two timestamps come from separate clock readings. */
  datatype StepEnv = StepEnv(logTime: string, readTime: string, readFaults: seq<bool>, coilFault: bool)

  predicate ValidEnv(env: StepEnv)
  {
    |env.readFaults| == SensorCount
  }

  /** How the Python program stops with an exception: values_at_index[k] out of
      range, or addLog iterating over the None of a failed coil read. */
  datatype Crash = IndexError | CoilReadFailed

  datatype Outcome = Finished | Crashed(reason: Crash) | NoData

  datatype Result = Result(world: World, outcome: Outcome)

  /** read_from_coils(client, 0, 12). */
  const CoilCount: nat := 12

  /** One step: the positional writes, read_and_save_data, the coil read and addLog. */
  function Step(w: World, vals: seq<int>, env: StepEnv): (r: Result)
    requires ValidEnv(env)
    ensures !r.outcome.NoData?
    ensures r.outcome == Crashed(IndexError) <==> |vals| < SensorCount
  {
    var registers := Writes(w.registers, vals);
    if |vals| < SensorCount then Result(w.(registers := registers), Crashed(IndexError))
    else
      SchemaTablesExist(w.tables);
      var tables := Inserted(WithSchema(w.tables), Batch(registers, env.readFaults, env.readTime, SensorCount));
      var saved := w.(registers := registers, tables := tables, hasLogTable := true);
      if env.coilFault || |w.coils| < CoilCount then Result(saved, Crashed(CoilReadFailed))
      else Result(saved.(logs := w.logs + Events(w.coils[..CoilCount], env.logTime)), Finished)
  }

  /** One step of the scripted loop of simulate_sensors or of add_random_data, on the values vals. */
  method PerformStep(dev: Modbus, db: Store, vals: seq<int>, env: StepEnv) returns (outcome: Outcome)
    requires ValidEnv(env)
    modifies dev, db
    ensures Result(Snapshot(dev, db), outcome) == Step(old(Snapshot(dev, db)), vals, env)
  {
    var ok := WritePositional(dev, vals);
    if !ok {
      return Crashed(IndexError);
    }
    ReadAndSaveData(dev, db, env.readTime, env.readFaults);
    var coils := dev.ReadFromCoils(0, CoilCount, env.coilFault);
    if coils.None? {
      return Crashed(CoilReadFailed);
    }
    FalseTailAddsNoEvents(coils.value, CoilCount, env.logTime);
    db.AddLog(coils.value, env.logTime);
    return Finished;
  }

  /** Step i of the scripted loop of simulate_sensors. */
  method SimulationStep(dev: Modbus, db: Store, sensors: seq<Entry>, i: nat, env: StepEnv) returns (outcome: Outcome)
    requires ValidEnv(env)
    modifies dev, db
    ensures Result(Snapshot(dev, db), outcome) == Step(old(Snapshot(dev, db)), ValuesAt(sensors, i), env)
  {
    var valuesAtIndex := ValuesAtIndex(sensors, i);
    outcome := PerformStep(dev, db, valuesAtIndex, env);
  }

  /** The eight integers add_random_data writes (after int()). */
  datatype Sample = Sample(humidity: int, temperature: int, irradiance: int, pressure: int,
                           garage: int, bathroom: int, bedroom: int, lr: int)

  function SampleValues(s: Sample): (vals: seq<int>)
    ensures |vals| == SensorCount
  {
    [s.humidity, s.temperature, s.irradiance, s.pressure, s.garage, s.bathroom, s.bedroom, s.lr]
  }

  /** add_random_data(), for given sample values. */
  method RandomStep(dev: Modbus, db: Store, sample: Sample, env: StepEnv) returns (outcome: Outcome)
    requires ValidEnv(env)
    modifies dev, db
    ensures Result(Snapshot(dev, db), outcome) == Step(old(Snapshot(dev, db)), SampleValues(sample), env)
    ensures outcome != Crashed(IndexError)
  {
    outcome := PerformStep(dev, db, SampleValues(sample), env);
  }

  /** What one step does to the world: the written registers hold their
      values and no other register changes; a step short of values stops
      before the database; otherwise each sensor table gains the reading of its
      register iff that read succeeds, and the logs gain one row per true coil
      unless the coil read fails. The coils are the device's own. */
  lemma StepEffects(w: World, vals: seq<int>, env: StepEnv)
    requires ValidEnv(env)
    ensures var r := Step(w, vals, env);
            r.world.coils == w.coils &&
            (forall k :: 0 <= k < WriteCount(vals) ==>
               WriteAddress(k) in r.world.registers && r.world.registers[WriteAddress(k)] == vals[k]) &&
            (forall a :: !WrittenAddress(a, WriteCount(vals)) ==>
               (a in r.world.registers <==> a in w.registers) &&
               (a in w.registers ==> r.world.registers[a] == w.registers[a])) &&
            (r.outcome == Crashed(IndexError) <==> |vals| < SensorCount) &&
            (r.outcome == Crashed(IndexError) ==> r.world.tables == w.tables) &&
            (|vals| >= SensorCount ==>
               SavedUpTo(WithSchema(w.tables), r.world.tables, r.world.registers,
                         env.readFaults, env.readTime, SensorCount)) &&
            (r.outcome == Finished <==> |vals| >= SensorCount && !env.coilFault && |w.coils| >= CoilCount) &&
            (r.outcome == Finished ==> r.world.logs == w.logs + Events(w.coils[..CoilCount], env.logTime)) &&
            (r.outcome != Finished ==> r.world.logs == w.logs)
  {
    WritesUpToEffect(w.registers, vals, WriteCount(vals));
    if |vals| >= SensorCount {
      SchemaTablesExist(w.tables);
      InsertedBatch(WithSchema(w.tables), Writes(w.registers, vals), env.readFaults, env.readTime, SensorCount);
    }
  }

  /** The table gained exactly one reading. */
  predicate Gained(before: map<string, seq<Reading>>, after: map<string, seq<Reading>>, table: string, reading: Reading)
  {
    table in before && table in after && after[table] == before[table] + [reading]
  }

  /** A value written at position j is read back into the table of the same
      sensor: with every value present and no read failing, each sensor table
      gains exactly one reading, the value written to its sensor's register,
      stamped with the readings timestamp. */
  lemma WrittenValuesSaved(w: World, vals: seq<int>, env: StepEnv)
    requires ValidEnv(env) && |vals| >= SensorCount
    requires forall k :: 0 <= k < |env.readFaults| ==> !env.readFaults[k]
    ensures forall k, j :: 0 <= k < |ReadOrder| && 0 <= j < |WriteOrder| && ReadOrder[k].sensor == WriteOrder[j] ==>
              Gained(WithSchema(w.tables), Step(w, vals, env).world.tables, ReadOrder[k].table, Reading(env.readTime, vals[j]))
  {
    var r := Step(w, vals, env);
    StepEffects(w, vals, env);
    forall k, j | 0 <= k < |ReadOrder| && 0 <= j < |WriteOrder| && ReadOrder[k].sensor == WriteOrder[j]
      ensures Gained(WithSchema(w.tables), r.world.tables, ReadOrder[k].table, Reading(env.readTime, vals[j]))
    {
      assert ReadAddress(k) == WriteAddress(j);
      assert ReadSucceeds(r.world.registers, env.readFaults, k);
    }
  }

  // ---------------------------------------------------------------------------
  // The step loops

  /** The most steps a scripted run takes: `for i in range(20)`. */
  const MaxSteps: nat := 20

  predicate ValidEnvs(envs: seq<StepEnv>)
  {
    forall j :: 0 <= j < |envs| ==> ValidEnv(envs[j])
  }

  /** The world after the first k steps of a run whose step j writes plan[j];
      a crashing step ends the run. */
  function Run(w: World, plan: seq<seq<int>>, envs: seq<StepEnv>, k: nat): Result
    requires k <= |plan| && k <= |envs| && ValidEnvs(envs)
  {
    if k == 0 then Result(w, Finished)
    else
      var r := Run(w, plan, envs, k - 1);
      if r.outcome.Crashed? then r else Step(r.world, plan[k - 1], envs[k - 1])
  }

  /** Past a step that finished, the run takes the next step. */
  lemma RunNext(w: World, plan: seq<seq<int>>, envs: seq<StepEnv>, k: nat, now: World)
    requires k < |plan| && k < |envs| && ValidEnvs(envs)
    requires Run(w, plan, envs, k) == Result(now, Finished)
    ensures Run(w, plan, envs, k + 1) == Step(now, plan[k], envs[k])
  {
  }

  /** A run either finishes or crashes; it never reports missing data. */
  lemma {:induction false} RunNeverNoData(w: World, plan: seq<seq<int>>, envs: seq<StepEnv>, k: nat)
    requires k <= |plan| && k <= |envs| && ValidEnvs(envs)
    ensures !Run(w, plan, envs, k).outcome.NoData?
  {
    if k > 0 {
      RunNeverNoData(w, plan, envs, k - 1);
    }
  }

  /** A crash ends the run: the steps after it change nothing. */
  lemma {:induction false} RunStaysCrashed(w: World, plan: seq<seq<int>>, envs: seq<StepEnv>, k: nat, m: nat)
    requires k <= m <= |plan| && m <= |envs| && ValidEnvs(envs)
    requires Run(w, plan, envs, k).outcome.Crashed?
    ensures Run(w, plan, envs, m) == Run(w, plan, envs, k)
    decreases m
  {
    if m > k {
      RunStaysCrashed(w, plan, envs, k, m - 1);
      RunAfterCrash(w, plan, envs, m - 1, Run(w, plan, envs, k));
    }
  }

  lemma RunAfterCrash(w: World, plan: seq<seq<int>>, envs: seq<StepEnv>, k: nat, r: Result)
    requires k < |plan| && k < |envs| && ValidEnvs(envs)
    requires Run(w, plan, envs, k) == r && r.outcome.Crashed?
    ensures Run(w, plan, envs, k + 1) == r
  {
  }

  /** A run of the plan from start that has completed dataCount steps and
      ends with the given outcome is the one Run computes: a crashed step was
      started but not completed. */
  predicate Ran(start: World, plan: seq<seq<int>>, envs: seq<StepEnv>, dataCount: nat, after: Result)
    requires |plan| == MaxSteps && |envs| >= MaxSteps && ValidEnvs(envs)
  {
    var started := if after.outcome.Crashed? then dataCount + 1 else dataCount;
    started <= MaxSteps && after == Run(start, plan, envs, started)
  }

  /** The values of the scripted steps 0 .. m-1. */
  function ScriptPlan(sensors: seq<Entry>, m: nat): (plan: seq<seq<int>>)
    ensures |plan| == m && forall i :: 0 <= i < m ==> plan[i] == ValuesAt(sensors, i)
  {
    if m == 0 then [] else ScriptPlan(sensors, m - 1) + [ValuesAt(sensors, m - 1)]
  }

  /** The values of the random steps 0 .. m-1, one sample each. */
  function RandomPlan(samples: seq<Sample>, m: nat): (plan: seq<seq<int>>)
    requires m <= |samples|
    ensures |plan| == m && forall j :: 0 <= j < m ==> plan[j] == SampleValues(samples[j])
  {
    if m == 0 then [] else RandomPlan(samples, m - 1) + [SampleValues(samples[m - 1])]
  }

  /** How many steps a scripted run completes for a requested count n when no
      step crashes: the first step always runs, and there are at most 20. */
  function ScriptedSteps(n: int): (m: nat)
    ensures 1 <= m <= MaxSteps
    ensures 1 <= n <= MaxSteps ==> m == n
  {
    if n <= 1 then 1 else if n >= MaxSteps then MaxSteps else n
  }

  /** The `for i in range(20)` loop of simulate_sensors: up to 20 steps, stopping once data_count
      reaches n, with a sleep after every step that does not stop it. */
  method ReplayScenario(dev: Modbus, db: Store, sensors: seq<Entry>, n: int, envs: seq<StepEnv>)
    returns (dataCount: nat, sleeps: nat, outcome: Outcome)
    requires |envs| >= MaxSteps && ValidEnvs(envs)
    modifies dev, db
    ensures !outcome.NoData?
    ensures Ran(old(Snapshot(dev, db)), ScriptPlan(sensors, MaxSteps), envs, dataCount, Result(Snapshot(dev, db), outcome))
    ensures outcome == Finished ==>
              dataCount == ScriptedSteps(n) && sleeps == (if n > MaxSteps then MaxSteps else dataCount - 1)
    ensures outcome.Crashed? ==> dataCount < ScriptedSteps(n) && sleeps == dataCount
    ensures Accepted(n) && outcome == Finished ==> dataCount == n && sleeps == n - 1
  {
    ghost var start := Snapshot(dev, db);
    ghost var plan := ScriptPlan(sensors, MaxSteps);
    dataCount, sleeps, outcome := 0, 0, Finished;
    for i := 0 to MaxSteps
      invariant dataCount == i && sleeps == i && (i == 0 || i < n) && outcome == Finished
      invariant Run(start, plan, envs, i) == Result(Snapshot(dev, db), Finished)
    {
      ghost var now := Snapshot(dev, db);
      outcome := SimulationStep(dev, db, sensors, i, envs[i]);
      RunNext(start, plan, envs, i, now);
      if outcome.Crashed? {
        return;
      }
      dataCount := dataCount + 1;
      if dataCount >= n {
        break;
      }
      sleeps := sleeps + 1;
    }
  }

  /** The `while data_count < num_data_points` loop of simulate_sensors: one add_random_data step,
      with a sleep after every step that does not end the run. */
  method RandomRun(dev: Modbus, db: Store, n: int, samples: seq<Sample>, envs: seq<StepEnv>)
    returns (dataCount: nat, sleeps: nat, outcome: Outcome)
    requires Accepted(n) && |samples| >= MaxSteps && |envs| >= MaxSteps && ValidEnvs(envs)
    modifies dev, db
    ensures !outcome.NoData? && outcome != Crashed(IndexError)
    ensures Ran(old(Snapshot(dev, db)), RandomPlan(samples, MaxSteps), envs, dataCount, Result(Snapshot(dev, db), outcome))
    ensures outcome == Finished ==> dataCount == n && sleeps == n - 1
    ensures outcome.Crashed? ==> dataCount < n && sleeps == dataCount
  {
    ghost var start := Snapshot(dev, db);
    ghost var plan := RandomPlan(samples, MaxSteps);
    dataCount, sleeps, outcome := 0, 0, Finished;
    while dataCount < n
      invariant sleeps == dataCount && dataCount < n && outcome == Finished
      invariant Run(start, plan, envs, dataCount) == Result(Snapshot(dev, db), Finished)
    {
      ghost var now := Snapshot(dev, db);
      outcome := RandomStep(dev, db, samples[dataCount], envs[dataCount]);
      RunNext(start, plan, envs, dataCount, now);
      if outcome.Crashed? {
        return;
      }
      dataCount := dataCount + 1;
      if dataCount >= n {
        break;
      }
      sleeps := sleeps + 1;
    }
  }

  // ---------------------------------------------------------------------------
  // The step-count prompt

  /** The range check of the step-count prompt: the counts it accepts. */
  predicate Accepted(n: int)
  {
    1 <= n <= MaxSteps
  }

  /** An answer to the prompt: None when int() rejects the text. */
  predicate AcceptedAnswer(answer: Option<int>)
  {
    answer.Some? && Accepted(answer.value)
  }

  /** The step-count prompt of simulate_sensors: ask until an answer is accepted. */
  method PromptStepCount(answers: seq<Option<int>>) returns (count: Option<int>)
    ensures count.Some? ==>
              Accepted(count.value) &&
              exists k :: 0 <= k < |answers| && answers[k] == count &&
                          forall j :: 0 <= j < k ==> !AcceptedAnswer(answers[j])
    ensures count.None? <==> forall j :: 0 <= j < |answers| ==> !AcceptedAnswer(answers[j])
  {
    var k := 0;
    while k < |answers|
      invariant k <= |answers|
      invariant forall j :: 0 <= j < k ==> !AcceptedAnswer(answers[j])
    {
      var answer := answers[k];
      if answer.Some? && 1 <= answer.value <= MaxSteps {
        return answer;
      }
      k := k + 1;
    }
    return None;
  }

  // ---------------------------------------------------------------------------
  // A scripted selection

  /** A scripted selection of simulate_sensors: read the scenario's section; a file with no data for it ends
      the selection before any write or insert; otherwise replay it. */
  method RunScenario(dev: Modbus, db: Store, lines: seq<string>, scenarioName: string, n: int, envs: seq<StepEnv>)
    returns (dataCount: nat, sleeps: nat, outcome: Outcome)
    requires WellFormed(lines, scenarioName)
    requires |envs| >= MaxSteps && ValidEnvs(envs)
    modifies dev, db
    ensures outcome == NoData <==> Parsed(lines, scenarioName) == []
    ensures (forall k :: 0 <= k < |lines| ==> !OpensSection(Strip(lines[k]), scenarioName)) ==> outcome == NoData
    ensures outcome == NoData ==> Snapshot(dev, db) == old(Snapshot(dev, db)) && dataCount == 0 && sleeps == 0
    ensures outcome != NoData ==>
              Ran(old(Snapshot(dev, db)), ScriptPlan(Parsed(lines, scenarioName), MaxSteps), envs, dataCount,
                  Result(Snapshot(dev, db), outcome))
    ensures outcome == Finished ==>
              dataCount == ScriptedSteps(n) && sleeps == (if n > MaxSteps then MaxSteps else dataCount - 1)
  {
    if forall k :: 0 <= k < |lines| ==> !OpensSection(Strip(lines[k]), scenarioName) {
      NoOpeningNoSensors(lines, scenarioName);
    }
    var sensors := ReadSensorFile(lines, scenarioName);
    if sensors == [] {
      return 0, 0, NoData;
    }
    dataCount, sleeps, outcome := ReplayScenario(dev, db, sensors, n, envs);
  }
}
