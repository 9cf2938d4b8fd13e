# Weather-station historian simulator, modelled in Dafny

The model covers the simulation and historian pipeline of
`database/WeatherScript2.py`. The script replays a weather scenario, or random
values, into a PLC through Modbus holding registers. After each write it reads the
registers back into a SQLite historian: one table per sensor, plus a `logs`
table of the events signalled by the PLC's coils.

The model is imperative where the script is:

- `Scenario.ReadSensorFile` is the line loop of `read_sensor_file`, with its
  `start_reading` flag and its insertion-ordered dict.
- `Device.Modbus` is the client's view of the device: a map of holding
  registers and a sequence of coils. It is a class, updated in place by the
  write wrapper.
- `Historian.Store` is the database: a map from table name to rows, and the
  `logs` rows. It is a class, updated in place by `CreateTables`, `InsertData`
  and `AddLog`.
- The steps and the loops of `simulate_sensors` are `Simulation` methods over
  those two objects.

Each method is proved against a specification function:

| method | specification function |
|---|---|
| `ReadSensorFile` | `Parsed` |
| `CreateTables` | `WithSchema` |
| `AddLog` | `Events` |
| `ReadAndSaveData` | `Inserted` of `Batch` |
| one step | `Step` |
| a run of steps | `Run` |

The properties the script promises are lemmas about those functions:

- which lines are stored;
- last write wins, with each key keeping its first position;
- one event per true coil;
- one reading per successful read;
- `createTables` is idempotent;
- a value written is read back into its sensor's table;
- exactly `n` steps, with a sleep only between steps.

Modules:

- `Text`: the Python string operations the parser uses.
- `Flags`: the indices of the true entries of a boolean sequence.
- `Scenario`: `read_sensor_file`.
- `Device`: `sensor_registers` and the three Modbus wrappers.
- `Historian`: `createTables`, `insert_data` and `addLog`.
- `Simulation`:
  - per-step value collection;
  - positional writes;
  - `read_and_save_data`;
  - one step;
  - the scripted and random loops;
  - the step-count prompt.
- `Wrappers`: `Option`.

Outside inputs are parameters, so the model is deterministic:

- the clock: a `StepEnv` holds the log timestamp and the readings timestamp,
  which come from two separate clock readings;
- which register reads fail, and whether the coil read fails;
- the random samples;
- the prompt's answers;
- the file's lines.

Sleeps are counted rather than performed.

### Behaviour of the script worth knowing

- **Short sensor lists.** A sensor whose value list is too short for a step is
  left out of `values_at_index` for that step (lines 215-218). The writes at
  lines 223-230 still take positions 0-7, so:
  - every later value moves one register position down;
  - a step with fewer than eight collected values raises `IndexError` at the
    first missing position, after the earlier writes were made and before
    anything is read back.

  The model reports that as `Crashed(IndexError)`, and the run ends there, since
  the exception is not caught and ends the script.
- **Coil read failure.** A failed coil read returns `None`, and `addLog` then
  fails on it. The model reports `Crashed(CoilReadFailed)`, after the readings of
  that step were saved.
- **Extra coil bits.** The coil read returns its bits padded with `false` up to
  a whole byte: 16 bits for 12 coils. The padding adds no event
  (`Historian.FalseTailAddsNoEvents`).

## Model

| member | source | states |
|---|---|---|
| Text.Strip | database/WeatherScript2.py:149 | `line.strip()`: the result has no white space at either end |
| Text.StripRemovesOuterSpace | database/WeatherScript2.py:149 | the stripped line is the slice of the line after its leading white space, and only white space follows it, so strip removes the outer white space and nothing else |
| Text.StripChar | database/WeatherScript2.py:163 | `parts[0].strip("'")`: the result neither starts nor ends with a quote |
| Text.StripCharRemovesOuterRuns | database/WeatherScript2.py:163 | the unquoted name is the slice of the token after its leading quotes, and only quotes follow it |
| Text.Split | database/WeatherScript2.py:162 | `line.split()`: every part is a non-empty run without white space; a line that starts with a non-space character yields its first word as `parts[0]` |
| Text.SplitJoinWords | database/WeatherScript2.py:162 | splitting words joined by single spaces gives back exactly those words, in order |
| Text.StrippedSplitNonEmpty | database/WeatherScript2.py:158-163 | a non-blank stripped line has a `parts[0]` |
| Text.LowerChar | database/WeatherScript2.py:152 | lowering a character yields '#' exactly when it is '#' |
| Text.LowerCharIgnoresCase | database/WeatherScript2.py:152 | two characters lower to the same character exactly when they are equal or the same ASCII letter in the other case |
| Text.LowerStartsWithHash | database/WeatherScript2.py:152 | `line.lower().startswith('#')` holds exactly when `line.startswith('#')` does |
| Text.Lower | database/WeatherScript2.py:152 | `str.lower()` keeps the length of the string |
| Text.LowerIgnoresCase | database/WeatherScript2.py:152 | two strings lower to the same string exactly when they have the same length and agree position by position up to ASCII case |
| Text.ContainsIff | database/WeatherScript2.py:152 | `needle in hay` holds exactly when the needle occurs as a slice of hay at some position |
| Text.ParseInt | database/WeatherScript2.py:164 | `int(token)` is negative only for a token with a leading '-' |
| Text.ParseIntDecimal | database/WeatherScript2.py:164 | `int()` accepts the decimal text of every integer, with a leading '-' when negative, and gives that integer back |
| Text.ParseInts | database/WeatherScript2.py:164 | `list(map(int, parts[1:]))` has one value per token |
| Text.ParseIntsDecimal | database/WeatherScript2.py:164 | `list(map(int, tokens))` of decimal texts gives back the integers they were written from |
| Text.StripCharUnchanged | database/WeatherScript2.py:163 | `strip("'")` leaves a name that neither starts nor ends with a quote unchanged |
| Flags.TrueIndices | database/WeatherScript2.py:38-39 | the enumerated indices whose flag is true, strictly ascending, each in range and true |
| Flags.TrueIndicesComplete | database/WeatherScript2.py:38-39 | every true index is listed |
| Flags.TrueIndicesCount | database/WeatherScript2.py:38-39 | there is exactly one index per true flag |
| Scenario.Assign | database/WeatherScript2.py:165 | `sensors[name] = values`: an existing key keeps its position and takes the new list, and a new key goes last; every other item is unchanged and the keys stay distinct |
| Scenario.AssignKeys | database/WeatherScript2.py:165 | an assignment adds exactly the assigned key |
| Scenario.Dictify | database/WeatherScript2.py:165 | the dict built by assigning every data row in turn has distinct keys |
| Scenario.ReadSensorFile | database/WeatherScript2.py:143-166 | the loop returns `Parsed`: the dict built by assigning, in file order, the entry of every data line, where a data line is a non-blank, non-'#' line reached while a section is open |
| Scenario.ReadLine | database/WeatherScript2.py:149-165 | one iteration: `start_reading` becomes true on a marker line, false on any other '#' line, and stays otherwise; the dict gains the line's entry iff it is a data line; the marker line itself is skipped |
| Scenario.LineStep | database/WeatherScript2.py:149-165 | what line i does to the section flag and to the stored rows, case by case as lines 152-165 branch |
| Scenario.ReadingAfterIff | database/WeatherScript2.py:148-158 | a section is open after n lines iff an earlier line matched the scenario name and no '#' line came after it |
| Scenario.OpeningLineIsMarker | database/WeatherScript2.py:152 | a line that opens a section starts with '#' |
| Scenario.OpensSectionIff | database/WeatherScript2.py:152 | the marker test holds exactly when the line starts with '#' and the lowered scenario name occurs somewhere in the lowered line |
| Scenario.OpensSection | database/WeatherScript2.py:152 | the marker test, on the stripped line; `OpensSectionIff` and `OpensSectionIgnoresCase` state what it accepts |
| Scenario.OpensSectionIgnoresCase | database/WeatherScript2.py:152 | the marker test gives the same answer for lines, and for scenario names, that agree up to ASCII case |
| Scenario.KindOf | database/WeatherScript2.py:152-160 | how a stripped line is treated: an opening line starts with '#'; a line is blank exactly when it is empty; it is a candidate data line exactly when it is non-empty and does not start with '#' |
| Scenario.LineEntryOfFormatted | database/WeatherScript2.py:162-165 | a data line written as an unquoted name followed by decimal values reads back as that name and exactly those values |
| Scenario.LineEntry | database/WeatherScript2.py:162-164 | the entry of a data line: the unquoted first token and the integers of the others; `LineEntryOfFormatted` shows it inverts the line format |
| Scenario.OpeningLineNotData | database/WeatherScript2.py:152-154 | the marker line is never a data line |
| Scenario.NoOpeningNoSensors | database/WeatherScript2.py:143-166 | when no line matches the scenario name, the dict is empty |
| Scenario.NoDataLinesNoRows | database/WeatherScript2.py:158-165 | with no data line, no row is stored |
| Scenario.DictifyKeys | database/WeatherScript2.py:165 | the dict has a key exactly when some data line names that sensor |
| Scenario.DictifyLastWins | database/WeatherScript2.py:165 | every item of the dict is the last data line naming that sensor: a repeated name replaces the earlier list |
| Scenario.AssignLastWins | database/WeatherScript2.py:165 | one assignment keeps every item equal to the last row that names it |
| Scenario.DictifyOrder | database/WeatherScript2.py:165 | the keys appear in the order in which data lines first name them: a replaced key keeps its first position |
| Scenario.AssignOrder | database/WeatherScript2.py:165 | one assignment keeps the keys in first-naming order |
| Scenario.FirstPos | database/WeatherScript2.py:165 | the position of the first row naming a sensor: that row names it and no earlier one does |
| Device.PaddedLength | database/WeatherScript2.py:102-105 | a coil read of count bits returns the smallest multiple of 8 that is at least count |
| Device.SensorRegistersDistinct | database/WeatherScript2.py:256-266 | `sensor_registers` gives distinct sensors distinct holding registers |
| Device.Modbus.WriteToHoldingRegister | database/WeatherScript2.py:87-88 | the register at the address takes the value; no other register and no coil changes |
| Device.Modbus.ReadFromHoldingRegister | database/WeatherScript2.py:90-98 | `None` exactly when the request fails or a register is missing; otherwise the count registers from the address, in order |
| Device.Modbus.ReadFromCoils | database/WeatherScript2.py:100-108 | `None` exactly when the request fails or the coils are missing; otherwise the count coils from the address, followed by false padding to whole bytes |
| Historian.ValueColumn | database/WeatherScript2.py:13 | `table[:-5]` is the prefix of the name five characters shorter (empty for a shorter name) |
| Historian.ValueColumnOfSuffixed | database/WeatherScript2.py:13 | a column name followed by "_data" gives that column back |
| Historian.SchemaIsSensorTables | database/WeatherScript2.py:47-54 | the tables whose schema is given are exactly the eight sensor tables created |
| Historian.ValueColumnsMatchSchema | database/WeatherScript2.py:47-54 | for every sensor table, the column `insert_data` writes is the value column the table was created with |
| Historian.WithTables | database/WeatherScript2.py:57-58 | `CREATE TABLE IF NOT EXISTS` in turn: the tables afterwards are the old ones plus the named ones; old tables keep their rows and new ones are empty |
| Historian.WithSchemaIdempotent | database/WeatherScript2.py:45-59 | creating the tables twice is the same as creating them once |
| Historian.SchemaTablesExist | database/WeatherScript2.py:45-59 | after `createTables` every sensor table exists |
| Historian.Events | database/WeatherScript2.py:38-41 | at most one row per coil, each with the given timestamp |
| Historian.DescriptionEventsDistinct | database/WeatherScript2.py:23-36 | the 12 event names of `addLog` are pairwise distinct, so a log row's event tells which coil was on |
| Historian.Description | database/WeatherScript2.py:23-36 | the 12 (event, text) pairs of `addLog`, indexed by coil address, in the order of the list |
| Historian.EventsOfTrueCoils | database/WeatherScript2.py:22-43 | one row per true coil, in ascending address order, each row being that address's entry of the 12 descriptions with the given timestamp |
| Historian.NoTrueCoilNoEvents | database/WeatherScript2.py:38-41 | an all-false coil vector adds no row |
| Historian.FalseTailAddsNoEvents | database/WeatherScript2.py:38-41 | trailing false bits, such as the padding of a coil read, add no row and need no description |
| Historian.Store.CreateTables | database/WeatherScript2.py:45-59 | the tables become `WithSchema` of the old ones, the logs table exists, and no row changes |
| Historian.Store.InsertData | database/WeatherScript2.py:12-15 | the rows are appended to that table; nothing else changes |
| Historian.Store.AddLog | database/WeatherScript2.py:22-43 | the logs gain `Events(coils, timestamp)` at the end; the sensor tables do not change |
| Simulation.ValuesAt | database/WeatherScript2.py:213-218 | `values_at_index` is never longer than the number of sensors |
| Simulation.HasValueAt | database/WeatherScript2.py:217 | flag k is `i < len(sensor_values)` for the k-th sensor |
| Simulation.ValuesAtSelects | database/WeatherScript2.py:213-218 | the values collected at step i are `seq[i]` of exactly the sensors with `i < len(seq)`, in dict order |
| Simulation.ValuesAtAllLong | database/WeatherScript2.py:213-218 | when every list is long enough, step i collects one value per sensor, the k-th from sensor k |
| Simulation.ValuesAtIndex | database/WeatherScript2.py:213-218 | the loop returns `ValuesAt(sensors, i)` |
| Simulation.WriteAddresses | database/WeatherScript2.py:223-230 | the k-th write goes to the register of Humidity, Temperature, SunRadiation, Pressure, Garage, Bathroom, Bedroom, LR in that order |
| Simulation.WriteAddressesDistinct | database/WeatherScript2.py:223-230 | the eight write addresses are distinct |
| Simulation.WriteCount | database/WeatherScript2.py:223-230 | the writes made are min(8, number of values): the writes stop at the first missing value |
| Simulation.WritesUpToEffect | database/WeatherScript2.py:223-230 | after the first m writes, the k-th address holds the k-th value and every other register is as it was |
| Simulation.WritePositional | database/WeatherScript2.py:223-230 | the registers become `Writes(old, vals)`; the coils do not change; the step goes on iff there are at least 8 values |
| Simulation.ReadOrderTables | database/WeatherScript2.py:118-127 | read k goes into the k-th created sensor table; the tables are distinct and in the schema, and each sensor read back is one the step writes |
| Simulation.Batch | database/WeatherScript2.py:130-135 | `data_to_insert` has at most one entry per read, all for sensor tables, all with the one readings timestamp |
| Simulation.Inserted | database/WeatherScript2.py:140-141 | the inserts create no table and drop none |
| Simulation.InsertedBatch | database/WeatherScript2.py:130-141 | after the inserts, each sensor table holds its old rows plus the reading of its register iff that read succeeded; tables outside the schema are unchanged |
| Simulation.CollectReadings | database/WeatherScript2.py:130-135 | the loop returns `Batch`: one entry per successful read, in table order |
| Simulation.InsertAll | database/WeatherScript2.py:138-141 | the tables become `Inserted(old, data_to_insert)`; the logs do not change |
| Simulation.ReadAndSaveData | database/WeatherScript2.py:110-141 | the tables become the inserts of `Batch` applied to the created tables; the logs do not change and the logs table exists |
| Simulation.Step | database/WeatherScript2.py:219-236 | a step never ends with "no data", and it raises `IndexError` exactly when fewer than 8 values were collected |
| Simulation.PerformStep | database/WeatherScript2.py:223-236 | the device and database afterwards, and the outcome, are those of `Step` |
| Simulation.SimulationStep | database/WeatherScript2.py:213-236 | scripted step i is `Step` on `ValuesAt(sensors, i)` |
| Simulation.SampleValues | database/WeatherScript2.py:73-80 | a random step always writes eight values |
| Simulation.RandomStep | database/WeatherScript2.py:61-85 | `add_random_data` is `Step` on the sample's values in write order, and never raises `IndexError` |
| Simulation.StepEffects | database/WeatherScript2.py:223-236 | the effects of a step: the written registers hold their values and no other register changes; `IndexError` iff fewer than 8 values, and then no table changes; each sensor table gains its reading iff its read succeeds; the step finishes iff the coil read succeeds; if so the logs gain one row per true coil, and otherwise they are unchanged; the coils never change |
| Simulation.WrittenValuesSaved | database/WeatherScript2.py:223-233 | with all values present and no read failing, each sensor table gains exactly one reading: the value written to its own sensor's register, stamped with the readings timestamp |
| Simulation.ScriptPlan | database/WeatherScript2.py:212-218 | scripted step i writes `ValuesAt(sensors, i)` |
| Simulation.RandomPlan | database/WeatherScript2.py:245-246 | random step j writes sample j |
| Simulation.ScriptedSteps | database/WeatherScript2.py:212-241 | a scripted run without a crash completes between 1 and 20 steps, and exactly n for n in [1, 20] |
| Simulation.RunNeverNoData | database/WeatherScript2.py:212-242 | a run of steps either finishes or crashes; "no data" is decided before any step |
| Simulation.RunStaysCrashed | database/WeatherScript2.py:212-242 | once a step has crashed no later step runs: the state and outcome stay those of the crash |
| Simulation.Run | database/WeatherScript2.py:212-251 | the state after k steps of a plan, each step being `Step`, a crash ending the run; `RunNeverNoData` and `RunStaysCrashed` state its properties |
| Simulation.ReplayScenario | database/WeatherScript2.py:212-242 | the world afterwards is `Run` of the scripted plan over the steps started; without a crash, `ScriptedSteps(n)` steps are completed, with a sleep after each one but the last (after all 20 when n > 20), so an accepted n completes exactly n steps and sleeps n - 1 times; after a crash, fewer steps are completed and one sleep follows each completed step |
| Simulation.RandomRun | database/WeatherScript2.py:244-251 | the world afterwards is `Run` of the samples over the steps started; it never raises `IndexError`; without a crash it completes exactly n steps and sleeps n - 1 times; after a crash, fewer than n steps are completed and one sleep follows each completed step |
| Simulation.PromptStepCount | database/WeatherScript2.py:193-201 | the count returned is the first answer in [1, 20]; there is none exactly when no answer is in range |
| Simulation.Accepted | database/WeatherScript2.py:196 | the counts the prompt accepts: 1 to 20 inclusive |
| Simulation.RunScenario | database/WeatherScript2.py:203-242 | "no data" exactly when the parsed dict is empty, and in particular when no line matches the scenario name; then no state changes and no step runs; otherwise it is the replay of the parsed dict |

## Left out

- The menu loop of `simulate_sensors` (lines 169-191) is left out:
  - printing the seven choices;
  - looking up the selection;
  - re-prompting after an invalid one;
  - `exit()` for choice 7.

  This is console I/O. `RunScenario` takes the selected scenario's name, and
  `RandomRun` is choice 6.
- The value generation of `add_random_data` (lines 64-71) is left out: it
  draws floats with `random.uniform`, rounds them, and `int()` truncates them
  when they are written. `RandomRun` takes the eight integers of each step as
  given samples.
- The Modbus TCP transport, `isError()` and the 16-bit range of a register are
  left out. A failing read is an input flag. A write's error response is
  ignored by the script, and the model makes every write succeed.
- The PLC's own logic is left out: the device changes only by the client's
  writes, and the coils never change.
- SQLite, the SQL text, `commit`, the autoincrement `id` column and the `REAL`
  column type are left out. The store keeps rows in memory. A persistence error
  is not modelled.
- `datetime.now()`, `time.sleep(10)`, `print` and `input` are left out.
  Timestamps are parameters, sleeps are counted, and the prompt's answers are a
  given sequence. When the answers run out without an accepted one, the model
  returns no count; Python would raise `EOFError` there.
- Opening the file is left out: the parser takes the file's lines.
- Text.Lower: lowers ASCII letters only. Python's `str.lower` also lowers the
  rest of Unicode.
- Text.IsSpace: recognises ASCII white space only.
- Text.ParseInt: accepts an optional sign and decimal digits. Python's `int()`
  also accepts surrounding white space and underscores between digits.
- Scenario.ReadSensorFile: requires every data line of the section to carry
  well-formed integer tokens (`WellFormed`). The script raises `ValueError` on a
  malformed token, and that exception is not modelled.
- Simulation.RandomRun: requires `1 <= n <= 20`. The prompt guarantees that
  before the random loop is reached (`PromptStepCount`).
- Historian.Description: the 12 descriptions of `addLog` are a function of the
  coil address rather than a list. An address of 12 or more has no description,
  and `AddLog` requires every true coil to have one (`InDescriptions`).
