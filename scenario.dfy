/** The scenario file reader of database/WeatherScript2.py (read_sensor_file):
    a line-oriented state machine that turns the lines of a scenario file into
    an insertion-ordered dict from sensor name to its list of integer values. */
module Scenario {
  import opened Text
  import opened Flags

  /** One key of the dict: a sensor name and its values. */
  datatype Entry = Entry(name: string, values: seq<int>)

  /** A Python dict is modelled as its items in insertion order, keys distinct. */
  predicate HasKey(sensors: seq<Entry>, name: string)
  {
    exists j :: 0 <= j < |sensors| && sensors[j].name == name
  }

  predicate DistinctNames(sensors: seq<Entry>)
  {
    forall a, b :: 0 <= a < b < |sensors| ==> sensors[a].name != sensors[b].name
  }

  /** `sensors[name] = values`: an existing key keeps its position and gets the
      new list; a new key goes last. */
  function Assign(sensors: seq<Entry>, name: string, values: seq<int>): (r: seq<Entry>)
    requires DistinctNames(sensors)
    ensures |r| == if HasKey(sensors, name) then |sensors| else |sensors| + 1
    ensures forall j :: 0 <= j < |sensors| ==>
              r[j] == if sensors[j].name == name then Entry(name, values) else sensors[j]
    ensures !HasKey(sensors, name) ==> r[|sensors|] == Entry(name, values)
    ensures DistinctNames(r)
  {
    if sensors == [] then [Entry(name, values)]
    else if sensors[0].name == name then [Entry(name, values)] + sensors[1..]
    else
      assert HasKey(sensors, name) <==> HasKey(sensors[1..], name) by {
        if HasKey(sensors, name) {
          var j :| 0 <= j < |sensors| && sensors[j].name == name;
          assert sensors[1..][j - 1].name == name;
        }
      }
      [sensors[0]] + Assign(sensors[1..], name, values)
  }

  /** The marker test of the reader, on the stripped line:
      it starts with '#' and contains the scenario name, both lowered. */
  predicate OpensSection(line: string, scenarioName: string)
  {
    StartsWithHash(Lower(line)) && Contains(Lower(line), Lower(scenarioName))
  }

  /** How the reader treats a line once stripped: it opens the section, it is
      another '#' line (which closes it), it is blank, or it is a candidate data line. */
  datatype LineKind = Opening | Closing | Blank | Data

  function KindOf(line: string, scenarioName: string): (kind: LineKind)
    ensures kind == Opening ==> StartsWithHash(line)
    ensures kind == Blank <==> line == []
    ensures kind == Data <==> line != [] && !StartsWithHash(line)
  {
    LowerStartsWithHash(line);
    if OpensSection(line, scenarioName) then Opening
    else if StartsWithHash(line) then Closing
    else if line == [] then Blank
    else Data
  }

  function Kinds(lines: seq<string>, scenarioName: string): (ks: seq<LineKind>)
    ensures |ks| == |lines|
    ensures forall k :: 0 <= k < |lines| ==> ks[k] == KindOf(Strip(lines[k]), scenarioName)
  {
    seq(|lines|, k requires 0 <= k < |lines| => KindOf(Strip(lines[k]), scenarioName))
  }

  /** The value of start_reading once the first n lines have been read. */
  predicate ReadingAfter(kinds: seq<LineKind>, n: nat)
    requires n <= |kinds|
  {
    if n == 0 then false
    else
      match kinds[n - 1]
      case Opening => true
      case Closing => false
      case _ => ReadingAfter(kinds, n - 1)
  }

  /** Line k is stored: a section is open when it is reached, and it is
      neither blank nor a '#' line once stripped. */
  predicate IsDataLine(lines: seq<string>, scenarioName: string, k: nat)
    requires k < |lines|
  {
    var kinds := Kinds(lines, scenarioName);
    ReadingAfter(kinds, k) && kinds[k] == Data
  }

  /** Every value token of the line is one int() accepts. */
  predicate ValuesWellFormed(line: string)
  {
    var parts := Split(line);
    forall j :: 1 <= j < |parts| ==> IsIntToken(parts[j])
  }

  /** What the reader requires of its file: data lines carry integer values. */
  predicate WellFormed(lines: seq<string>, scenarioName: string)
  {
    forall k {:trigger IsDataLine(lines, scenarioName, k)} ::
      0 <= k < |lines| && IsDataLine(lines, scenarioName, k) ==>
      ValuesWellFormed(Strip(lines[k]))
  }

  /** `parts[0].strip("'")` paired with `list(map(int, parts[1:]))`. */
  function LineEntry(line: string): Entry
    requires Split(line) != [] && ValuesWellFormed(line)
  {
    var parts := Split(line);
    assert forall j :: 0 <= j < |parts[1..]| ==> parts[1..][j] == parts[j + 1];
    Entry(StripChar(parts[0], '\''), ParseInts(parts[1..]))
  }

  function DataLineEntry(lines: seq<string>, scenarioName: string, k: nat): Entry
    requires k < |lines| && IsDataLine(lines, scenarioName, k) && WellFormed(lines, scenarioName)
  {
    StrippedSplitNonEmpty(lines[k]);
    LineEntry(Strip(lines[k]))
  }

  /** The entries of the data lines among the first n lines, in file order. */
  function DataRows(lines: seq<string>, scenarioName: string, n: nat): (rows: seq<Entry>)
    requires n <= |lines| && WellFormed(lines, scenarioName)
  {
    if n == 0 then [] else DataRows(lines, scenarioName, n - 1) + RowOf(lines, scenarioName, n - 1)
  }

  /** The entry line k contributes: one if it is a data line, none otherwise. */
  function RowOf(lines: seq<string>, scenarioName: string, k: nat): seq<Entry>
    requires k < |lines| && WellFormed(lines, scenarioName)
  {
    if IsDataLine(lines, scenarioName, k) then [DataLineEntry(lines, scenarioName, k)] else []
  }

  /** The dict obtained by assigning the rows one after the other. */
  function Dictify(rows: seq<Entry>): (d: seq<Entry>)
    ensures DistinctNames(d)
  {
    if rows == [] then []
    else
      var n := |rows| - 1;
      Assign(Dictify(rows[..n]), rows[n].name, rows[n].values)
  }

  /** What read_sensor_file returns for a file and a scenario name. */
  function Parsed(lines: seq<string>, scenarioName: string): seq<Entry>
    requires WellFormed(lines, scenarioName)
  {
    Dictify(DataRows(lines, scenarioName, |lines|))
  }

  /** read_sensor_file(file_path, scenario_name), on the lines of the file. */
  method ReadSensorFile(lines: seq<string>, scenarioName: string) returns (sensors: seq<Entry>)
    requires WellFormed(lines, scenarioName)
    ensures sensors == Parsed(lines, scenarioName)
  {
    sensors := [];
    var startReading := false;
    DataRowsEmpty(lines, scenarioName);
    for i := 0 to |lines|
      invariant startReading == ReadingAfter(Kinds(lines, scenarioName), i)
      invariant sensors == Dictify(DataRows(lines, scenarioName, i))
    {
      startReading, sensors := ReadLine(lines, scenarioName, i, startReading, sensors);
    }
  }

  /** The body of the reader's loop for line i. */
  method ReadLine(lines: seq<string>, scenarioName: string, i: nat, reading: bool, before: seq<Entry>)
    returns (startReading: bool, sensors: seq<Entry>)
    requires i < |lines| && WellFormed(lines, scenarioName)
    requires reading == ReadingAfter(Kinds(lines, scenarioName), i)
    requires before == Dictify(DataRows(lines, scenarioName, i))
    ensures startReading == ReadingAfter(Kinds(lines, scenarioName), i + 1)
    ensures sensors == Dictify(DataRows(lines, scenarioName, i + 1))
  {
    LineStep(lines, scenarioName, i);
    startReading, sensors := reading, before;
    var line := Strip(lines[i]);
    if OpensSection(line, scenarioName) {
      startReading := true;
      return;
    } else if StartsWithHash(line) {
      startReading := false;
    }
    if startReading {
      if line == [] || StartsWithHash(line) {
        return;
      }
      var parts := Split(line);
      var sensorName := StripChar(parts[0], '\'');
      var values := ParseInts(parts[1..]);
      DictifySnoc(DataRows(lines, scenarioName, i), Entry(sensorName, values));
      sensors := Assign(sensors, sensorName, values);
    }
  }

  // ---------------------------------------------------------------------------
  // Steps of the proof of ReadSensorFile

  /** What reading line i does to start_reading and to the stored rows. */
  lemma LineStep(lines: seq<string>, scenarioName: string, i: nat)
    requires i < |lines| && WellFormed(lines, scenarioName)
    ensures var line := Strip(lines[i]);
            var reading := ReadingAfter(Kinds(lines, scenarioName), i);
            var rows := DataRows(lines, scenarioName, i);
            && ReadingAfter(Kinds(lines, scenarioName), i + 1) ==
               (if OpensSection(line, scenarioName) then true
                else if StartsWithHash(line) then false
                else reading)
            && (OpensSection(line, scenarioName) ==> StartsWithHash(line))
            && (if reading && line != [] && !StartsWithHash(line) then
                  && Split(line) != [] && ValuesWellFormed(line)
                  && DataRows(lines, scenarioName, i + 1) == rows + [LineEntry(line)]
                else DataRows(lines, scenarioName, i + 1) == rows)
  {
    var line := Strip(lines[i]);
    var kinds := Kinds(lines, scenarioName);
    assert kinds[i] == KindOf(line, scenarioName);
    if OpensSection(line, scenarioName) {
      OpeningLineIsMarker(line, scenarioName);
    }
    DataRowsStep(lines, scenarioName, i);
  }

  /** Before the first line no data row has been read. */
  lemma DataRowsEmpty(lines: seq<string>, scenarioName: string)
    requires WellFormed(lines, scenarioName)
    ensures DataRows(lines, scenarioName, 0) == []
  {
  }

  lemma DataRowsStep(lines: seq<string>, scenarioName: string, n: nat)
    requires n < |lines| && WellFormed(lines, scenarioName)
    ensures DataRows(lines, scenarioName, n + 1) ==
            DataRows(lines, scenarioName, n) +
            (if IsDataLine(lines, scenarioName, n) then [DataLineEntry(lines, scenarioName, n)] else [])
  {
  }

  lemma DictifySnoc(rows: seq<Entry>, e: Entry)
    ensures Dictify(rows + [e]) == Assign(Dictify(rows), e.name, e.values)
  {
    assert (rows + [e])[..|rows|] == rows;
  }

  // ---------------------------------------------------------------------------
  // Properties of the reader

  /** A line that opens a section starts with '#'. */
  lemma OpeningLineIsMarker(line: string, scenarioName: string)
    requires OpensSection(line, scenarioName)
    ensures StartsWithHash(line)
  {
    LowerStartsWithHash(line);
  }

  /** The marker line itself is never stored. */
  lemma OpeningLineNotData(lines: seq<string>, scenarioName: string, k: nat)
    requires k < |lines| && OpensSection(Strip(lines[k]), scenarioName)
    ensures !IsDataLine(lines, scenarioName, k)
  {
    OpeningLineIsMarker(Strip(lines[k]), scenarioName);
  }

  /** Line j opens a section and no '#' line follows it before line n. */
  predicate OpenSince(kinds: seq<LineKind>, j: nat, n: nat)
    requires j < n <= |kinds|
  {
    kinds[j] == Opening && forall m :: j < m < n ==> kinds[m] in {Blank, Data}
  }

  /** A section is open after n lines iff some earlier line opened one and
      no '#' line came after it. */
  lemma {:induction false} ReadingAfterIff(kinds: seq<LineKind>, n: nat)
    requires n <= |kinds|
    ensures ReadingAfter(kinds, n) <==> exists j :: 0 <= j < n && OpenSince(kinds, j, n)
  {
    if n > 0 {
      match kinds[n - 1]
      case Opening =>
        assert OpenSince(kinds, n - 1, n);
      case Closing =>
        forall j | 0 <= j < n
          ensures !OpenSince(kinds, j, n)
        {
          if j < n - 1 {
            assert kinds[n - 1] !in {Blank, Data};
          }
        }
      case _ =>
        ReadingAfterIff(kinds, n - 1);
        forall j | 0 <= j < n - 1
          ensures OpenSince(kinds, j, n) <==> OpenSince(kinds, j, n - 1)
        {
        }
        assert !OpenSince(kinds, n - 1, n);
        if ReadingAfter(kinds, n - 1) {
          var j :| 0 <= j < n - 1 && OpenSince(kinds, j, n - 1);
          assert OpenSince(kinds, j, n);
        }
    }
  }

  /** No section opens: nothing is stored, the dict is empty. */
  lemma NoOpeningNoSensors(lines: seq<string>, scenarioName: string)
    requires WellFormed(lines, scenarioName)
    requires forall k :: 0 <= k < |lines| ==> !OpensSection(Strip(lines[k]), scenarioName)
    ensures Parsed(lines, scenarioName) == []
  {
    var kinds := Kinds(lines, scenarioName);
    forall k | 0 <= k < |lines|
      ensures !IsDataLine(lines, scenarioName, k)
    {
      ReadingAfterIff(kinds, k);
      assert forall j :: 0 <= j < k ==> kinds[j] != Opening;
    }
    NoDataLinesNoRows(lines, scenarioName, |lines|);
  }

  lemma {:induction false} NoDataLinesNoRows(lines: seq<string>, scenarioName: string, n: nat)
    requires n <= |lines| && WellFormed(lines, scenarioName)
    requires forall k :: 0 <= k < |lines| ==> !IsDataLine(lines, scenarioName, k)
    ensures DataRows(lines, scenarioName, n) == []
  {
    if n > 0 {
      NoDataLinesNoRows(lines, scenarioName, n - 1);
      assert RowOf(lines, scenarioName, n - 1) == [];
    }
  }

  // ---------------------------------------------------------------------------
  // Properties of the dict built from the rows

  /** Assigning a key adds exactly that key. */
  lemma AssignKeys(sensors: seq<Entry>, name: string, values: seq<int>, nm: string)
    requires DistinctNames(sensors)
    ensures HasKey(Assign(sensors, name, values), nm) <==> HasKey(sensors, nm) || nm == name
  {
    var r := Assign(sensors, name, values);
    if HasKey(r, nm) {
      var j :| 0 <= j < |r| && r[j].name == nm;
      if j < |sensors| && sensors[j].name != name {
        assert sensors[j].name == nm;
      }
    }
    if HasKey(sensors, nm) {
      var j :| 0 <= j < |sensors| && sensors[j].name == nm;
      assert r[j].name == nm;
    }
    if nm == name && !HasKey(sensors, nm) {
      assert r[|sensors|].name == nm;
    }
  }

  /** The dict has a key exactly when some row carries that name. */
  lemma {:induction false} DictifyKeys(rows: seq<Entry>, nm: string)
    ensures HasKey(Dictify(rows), nm) <==> HasKey(rows, nm)
  {
    if rows != [] {
      var n := |rows| - 1;
      var e := rows[n];
      assert rows == rows[..n] + [e];
      DictifyKeys(rows[..n], nm);
      AssignKeys(Dictify(rows[..n]), e.name, e.values, nm);
      if HasKey(rows[..n], nm) {
        var p :| 0 <= p < n && rows[..n][p].name == nm;
        assert rows[p].name == nm;
      }
      if HasKey(rows, nm) && e.name != nm {
        var p :| 0 <= p < |rows| && rows[p].name == nm;
        assert rows[..n][p].name == nm;
      }
    }
  }

  /** Row p is the last row that names its sensor. */
  predicate IsLastRow(rows: seq<Entry>, p: int)
    requires 0 <= p < |rows|
  {
    forall q :: p < q < |rows| ==> rows[q].name != rows[p].name
  }

  /** Every item of d is the last row that names its sensor. */
  predicate LastWins(rows: seq<Entry>, d: seq<Entry>)
  {
    forall j :: 0 <= j < |d| ==> exists p :: 0 <= p < |rows| && rows[p] == d[j] && IsLastRow(rows, p)
  }

  /** Assigning the same key again overwrites: each item of the dict is the
      last row that names its sensor. */
  lemma {:induction false} DictifyLastWins(rows: seq<Entry>)
    ensures LastWins(rows, Dictify(rows))
  {
    if rows != [] {
      var n := |rows| - 1;
      assert rows == rows[..n] + [rows[n]];
      DictifyLastWins(rows[..n]);
      DictifySnoc(rows[..n], rows[n]);
      AssignLastWins(rows[..n], Dictify(rows[..n]), rows[n]);
    }
  }

  lemma AssignLastWins(prefix: seq<Entry>, before: seq<Entry>, e: Entry)
    requires DistinctNames(before) && LastWins(prefix, before)
    ensures LastWins(prefix + [e], Assign(before, e.name, e.values))
  {
    var rows := prefix + [e];
    var d := Assign(before, e.name, e.values);
    forall j | 0 <= j < |d|
      ensures exists p :: 0 <= p < |rows| && rows[p] == d[j] && IsLastRow(rows, p)
    {
      if d[j].name == e.name {
        assert rows[|prefix|] == d[j];
        assert IsLastRow(rows, |prefix|);
      } else {
        assert j < |before| && d[j] == before[j];
        var p :| 0 <= p < |prefix| && prefix[p] == before[j] && IsLastRow(prefix, p);
        assert rows[p] == d[j];
        assert IsLastRow(rows, p);
      }
    }
  }

  /** The index of the first row naming nm, or |rows| when there is none. */
  function FirstPos(rows: seq<Entry>, nm: string): (r: nat)
    ensures r <= |rows|
    ensures r < |rows| ==> rows[r].name == nm
    ensures forall q :: 0 <= q < r ==> rows[q].name != nm
  {
    if rows == [] then 0
    else if rows[0].name == nm then 0
    else 1 + FirstPos(rows[1..], nm)
  }

  /** The three properties of FirstPos determine it. */
  lemma FirstPosUnique(rows: seq<Entry>, nm: string, r: nat)
    requires r <= |rows| && (r < |rows| ==> rows[r].name == nm)
    requires forall q :: 0 <= q < r ==> rows[q].name != nm
    ensures r == FirstPos(rows, nm)
  {
  }

  lemma FirstPosSnoc(prefix: seq<Entry>, e: Entry, nm: string)
    ensures FirstPos(prefix + [e], nm) ==
            if FirstPos(prefix, nm) < |prefix| || e.name == nm then FirstPos(prefix, nm)
            else |prefix| + 1
  {
    var rows := prefix + [e];
    var r := FirstPos(prefix, nm);
    assert forall q :: 0 <= q < |prefix| ==> rows[q] == prefix[q];
    if r < |prefix| || e.name == nm {
      FirstPosUnique(rows, nm, r);
    } else {
      FirstPosUnique(rows, nm, |prefix| + 1);
    }
  }

  /** The keys of d are listed in the order in which the rows first name them. */
  predicate FirstOrder(rows: seq<Entry>, d: seq<Entry>)
  {
    forall a, b :: 0 <= a < b < |d| ==> FirstPos(rows, d[a].name) < FirstPos(rows, d[b].name)
  }

  /** Keys keep the position of their first assignment: the dict lists them in
      the order in which the rows first name them. */
  lemma {:induction false} DictifyOrder(rows: seq<Entry>)
    ensures FirstOrder(rows, Dictify(rows))
  {
    if rows != [] {
      var n := |rows| - 1;
      assert rows == rows[..n] + [rows[n]];
      DictifyOrder(rows[..n]);
      DictifySnoc(rows[..n], rows[n]);
      DictifyKeys(rows[..n], rows[n].name);
      forall j | 0 <= j < |Dictify(rows[..n])|
        ensures FirstPos(rows[..n], Dictify(rows[..n])[j].name) < n
      {
        DictifyKeys(rows[..n], Dictify(rows[..n])[j].name);
        HasKeyFirstPos(rows[..n], Dictify(rows[..n])[j].name);
      }
      HasKeyFirstPos(rows[..n], rows[n].name);
      AssignOrder(rows[..n], Dictify(rows[..n]), rows[n]);
    }
  }

  lemma HasKeyFirstPos(rows: seq<Entry>, nm: string)
    ensures HasKey(rows, nm) <==> FirstPos(rows, nm) < |rows|
  {
  }

  lemma AssignOrder(prefix: seq<Entry>, before: seq<Entry>, e: Entry)
    requires DistinctNames(before) && FirstOrder(prefix, before)
    requires forall j :: 0 <= j < |before| ==> FirstPos(prefix, before[j].name) < |prefix|
    requires FirstPos(prefix, e.name) < |prefix| ==> HasKey(before, e.name)
    ensures FirstOrder(prefix + [e], Assign(before, e.name, e.values))
  {
    var rows := prefix + [e];
    var d := Assign(before, e.name, e.values);
    forall a, b | 0 <= a < b < |d|
      ensures FirstPos(rows, d[a].name) < FirstPos(rows, d[b].name)
    {
      assert d[a].name == before[a].name;
      FirstPosSnoc(prefix, e, d[a].name);
      FirstPosSnoc(prefix, e, d[b].name);
      if b < |before| {
        assert d[b].name == before[b].name;
      } else {
        assert d[b].name == e.name;
      }
    }
  }

  // ---------------------------------------------------------------------------
  // The marker test and the data-line format

  /** The marker test is case-insensitive: lines and scenario names that agree
      up to ASCII case give the same answer. */
  lemma OpensSectionIgnoresCase(line: string, line': string, name: string, name': string)
    requires |line| == |line'| && forall k :: 0 <= k < |line| ==> SameIgnoringCase(line[k], line'[k])
    requires |name| == |name'| && forall k :: 0 <= k < |name| ==> SameIgnoringCase(name[k], name'[k])
    ensures OpensSection(line, name) <==> OpensSection(line', name')
  {
    LowerIgnoresCase(line, line');
    LowerIgnoresCase(name, name');
  }

  /** A line opens a section exactly when it starts with '#' and the lowered
      scenario name occurs somewhere in the lowered line. */
  lemma OpensSectionIff(line: string, name: string)
    ensures OpensSection(line, name) <==>
            StartsWithHash(line) && exists i: nat :: OccursAt(Lower(line), Lower(name), i)
  {
    LowerStartsWithHash(line);
    ContainsIff(Lower(line), Lower(name));
    assert StartsWithHash(Lower(line)) <==> StartsWithHash(line);
    assert Contains(Lower(line), Lower(name)) <==> exists i: nat :: OccursAt(Lower(line), Lower(name), i);
  }

  /** A data line written as `name v1 v2 ...`, with an unquoted name and the
      values in decimal, reads back as that name and those values. */
  lemma LineEntryOfFormatted(name: string, vals: seq<int>)
    requires IsWord(name) && name[0] != '\'' && name[|name| - 1] != '\''
    ensures var line := JoinWords([name] + DecimalTokens(vals));
            Split(line) != [] && ValuesWellFormed(line) && LineEntry(line) == Entry(name, vals)
  {
    var ws := [name] + DecimalTokens(vals);
    FormattedWords(name, vals);
    ParseIntsDecimal(vals);
    StripCharUnchanged(name, '\'');
    assert ws[1..] == DecimalTokens(vals);
  }

  lemma FormattedWords(name: string, vals: seq<int>)
    requires IsWord(name)
    ensures Split(JoinWords([name] + DecimalTokens(vals))) == [name] + DecimalTokens(vals)
  {
    var ws := [name] + DecimalTokens(vals);
    forall j | 0 <= j < |ws|
      ensures IsWord(ws[j])
    {
      if j > 0 {
        DecimalIsWord(vals[j - 1]);
      }
    }
    SplitJoinWords(ws);
  }
}
