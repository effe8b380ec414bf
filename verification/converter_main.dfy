/**
 * What the converter's `main` derives for each spreadsheet, besides the
 * table transforms: the profile label taken from the first sheet's name, the
 * output prefix and file names, the manifest of prefixes, and the water-level
 * table after the timestamps are cut to the minute and repeated timestamps
 * are dropped (keeping the first).
 */
module ConverterMain {
  import opened Wrappers
  import opened PyBuiltins
  import opened Converter
  import App

  // ---------------------------------------------------------------------------
  // Label, prefix and file names

  /**
   * `' '.join(name.split(' ')[0:-1])`: the sheet name without its last
   * word, that is everything before its last space ("" when it has none).
   */
  function SheetLabel(sheetName: string): (r: string)
    ensures ' ' !in sheetName ==> r == ""
    ensures ' ' in sheetName ==>
      |r| < |sheetName| && sheetName[..|r|] == r && sheetName[|r|] == ' ' && ' ' !in sheetName[|r| + 1..]
  {
    var parts := Split(sheetName, ' ');
    var r := Join(parts[..|parts| - 1], ' ');
    CountZero(sheetName, ' ');
    if ' ' in sheetName then
      JoinSnoc(parts, ' ');
      var last := parts[|parts| - 1];
      assert sheetName == r + [' '] + last;
      assert sheetName[|r| + 1..] == last;
      r
    else
      r
  }

  /** The name of the sheet `main` reads the water levels from. */
  function WaterSheetName(profileLabel: string): string
  {
    profileLabel + " water"
  }

  /** The name of the sheet `main` reads the survey stations from. */
  function GroundSheetName(profileLabel: string): string
  {
    profileLabel + " ground"
  }

  /** Dropping the last word undoes appending a word. */
  lemma SheetLabelAppend(profileLabel: string, word: string)
    requires ' ' !in word
    ensures SheetLabel(profileLabel + [' '] + word) == profileLabel
  {
    SplitSnoc(profileLabel, word, ' ');
    var parts := Split(profileLabel + [' '] + word, ' ');
    assert parts[..|parts| - 1] == Split(profileLabel, ' ');
  }

  /**
   * A workbook whose first sheet is "<label> water" gets the label back, so
   * `main` reads that same sheet again for the water levels, and the ground
   * sheet's name carries the same label.
   */
  lemma SheetNamesRoundTrip(profileLabel: string)
    ensures SheetLabel(WaterSheetName(profileLabel)) == profileLabel
    ensures SheetLabel(GroundSheetName(profileLabel)) == profileLabel
  {
    assert WaterSheetName(profileLabel) == profileLabel + [' '] + "water";
    assert GroundSheetName(profileLabel) == profileLabel + [' '] + "ground";
    SheetLabelAppend(profileLabel, "water");
    SheetLabelAppend(profileLabel, "ground");
  }

  /**
   * `label.replace(' ', '_')`: the prefix of the profile's three output
   * files, the label with every space turned into an underscore.
   */
  function OutputPrefix(profileLabel: string): (r: string)
    ensures |r| == |profileLabel| && ' ' !in r
    ensures forall i :: 0 <= i < |r| ==> r[i] == profileLabel[i] || (profileLabel[i] == ' ' && r[i] == '_')
  {
    ReplaceChar(profileLabel, ' ', '_')
  }

  /** The three output files of one profile. */
  datatype OutputFiles = OutputFiles(waterlevels: string, wells: string, elevations: string)

  /**
   * The three files `main` writes for a label. They are distinct, and they
   * are the names the viewer derives from the label's prefix.
   */
  function OutputFilesOf(profileLabel: string): (r: OutputFiles)
    ensures r.waterlevels != r.wells && r.wells != r.elevations && r.waterlevels != r.elevations
    ensures App.ResourceNames(OutputPrefix(profileLabel)) == App.Resources(r.wells, r.elevations, r.waterlevels)
  {
    var prefix := OutputPrefix(profileLabel);
    OutputFiles(prefix + "_waterlevels.json", prefix + "_wells.json", prefix + "_elevations.json")
  }

  /**
   * `input_files.json`: the output prefix of every workbook, in manifest
   * order. Every prefix is free of spaces and as long as its label, and the
   * names the viewer derives from it are the files `main` writes when that
   * workbook converts.
   */
  function Manifest(firstSheetNames: seq<string>): (r: seq<string>)
    ensures |r| == |firstSheetNames|
    ensures forall i :: 0 <= i < |firstSheetNames| ==>
      var files := OutputFilesOf(SheetLabel(firstSheetNames[i]));
      && ' ' !in r[i]
      && |r[i]| == |SheetLabel(firstSheetNames[i])|
      && App.ResourceNames(r[i]) == App.Resources(files.wells, files.elevations, files.waterlevels)
  {
    seq(|firstSheetNames|, i requires 0 <= i < |firstSheetNames| => OutputPrefix(SheetLabel(firstSheetNames[i])))
  }

  // ---------------------------------------------------------------------------
  // Timestamps cut to the minute, then first occurrence kept

  /** `timestamp.apply(lambda x: x[0:16])`: "YYYY-MM-DD HH:MM:SS..." becomes "YYYY-MM-DD HH:MM". */
  function TruncateTimestamps(rows: seq<LevelRow>): (r: seq<LevelRow>)
    ensures |r| == |rows|
    ensures forall k :: 0 <= k < |rows| ==> r[k].levels == rows[k].levels
    ensures forall k :: 0 <= k < |rows| ==>
      r[k].timestamp == match rows[k].timestamp case Some(t) => Some(Slice(t, 16)) case None => None
  {
    seq(|rows|, k requires 0 <= k < |rows| =>
      rows[k].(timestamp := match rows[k].timestamp case Some(t) => Some(Slice(t, 16)) case None => None))
  }

  /** Row `i` repeats the timestamp of an earlier row. */
  predicate SeenBefore(rows: seq<LevelRow>, i: nat)
    requires i < |rows|
  {
    exists j :: 0 <= j < i && rows[j].timestamp == rows[i].timestamp
  }

  /** The positions of the rows whose timestamp appears there for the first time, in increasing order. */
  function FirstOccurrences(rows: seq<LevelRow>): (ks: seq<nat>)
    ensures forall k :: 0 <= k < |ks| ==> ks[k] < |rows|
    ensures forall k, l :: 0 <= k < l < |ks| ==> ks[k] < ks[l]
    ensures forall i :: 0 <= i < |rows| ==> (i in ks <==> !SeenBefore(rows, i))
  {
    if rows == [] then []
    else
      var n := |rows| - 1;
      var init := rows[..n];
      var ks := FirstOccurrences(init);
      assert forall i :: 0 <= i < n ==> (SeenBefore(init, i) <==> SeenBefore(rows, i)) by {
        assert forall j :: 0 <= j < n ==> init[j] == rows[j];
      }
      if SeenBefore(rows, n) then ks else ks + [n]
  }

  /**
   * `drop_duplicates(subset=['timestamp'])`: the first row of each
   * timestamp, in input order, so no two kept rows share a timestamp.
   */
  function DropDuplicates(rows: seq<LevelRow>): (r: seq<LevelRow>)
    ensures |r| <= |rows|
    ensures |r| == |FirstOccurrences(rows)|
    ensures forall k :: 0 <= k < |r| ==> r[k] == rows[FirstOccurrences(rows)[k]]
    ensures forall k :: 0 <= k < |r| ==> r[k] in rows
    ensures forall k, l :: 0 <= k < l < |r| ==> r[k].timestamp != r[l].timestamp
  {
    var ks := FirstOccurrences(rows);
    DistinctIncreasingBound(ks, |rows|);
    var r := seq(|ks|, k requires 0 <= k < |ks| => rows[ks[k]]);
    assert forall k, l :: 0 <= k < l < |r| ==> r[k].timestamp != r[l].timestamp by {
      forall k, l | 0 <= k < l < |r| ensures r[k].timestamp != r[l].timestamp {
        assert ks[k] < ks[l] && ks[l] in ks;
        assert !SeenBefore(rows, ks[l]);
      }
    }
    r
  }

  /** An increasing sequence of naturals below `n` has at most `n` elements. */
  lemma {:induction false} DistinctIncreasingBound(ks: seq<nat>, n: nat)
    requires forall k :: 0 <= k < |ks| ==> ks[k] < n
    requires forall k, l :: 0 <= k < l < |ks| ==> ks[k] < ks[l]
    ensures |ks| <= n
  {
    if ks != [] {
      var m := ks[|ks| - 1];
      DistinctIncreasingBound(ks[..|ks| - 1], m);
    }
  }

  /** Every timestamp's first row sits at or before any row with that timestamp. */
  lemma {:induction false} FirstOccurrenceExists(rows: seq<LevelRow>, i: nat)
    requires i < |rows|
    ensures exists j :: 0 <= j <= i && !SeenBefore(rows, j) && rows[j].timestamp == rows[i].timestamp
    decreases i
  {
    if SeenBefore(rows, i) {
      var j :| 0 <= j < i && rows[j].timestamp == rows[i].timestamp;
      FirstOccurrenceExists(rows, j);
    }
  }

  /** Every timestamp of the input survives in the output. */
  lemma DropDuplicatesKeepsEveryTimestamp(rows: seq<LevelRow>, i: nat)
    requires i < |rows|
    ensures exists k :: 0 <= k < |DropDuplicates(rows)| && DropDuplicates(rows)[k].timestamp == rows[i].timestamp
  {
    var ks := FirstOccurrences(rows);
    FirstOccurrenceExists(rows, i);
    var j :| 0 <= j <= i && !SeenBefore(rows, j) && rows[j].timestamp == rows[i].timestamp;
    var k :| 0 <= k < |ks| && ks[k] == j;
    assert DropDuplicates(rows)[k] == rows[j];
  }

  /**
   * Two consecutive readings within the same minute: after truncation they
   * share a timestamp, and only the first survives.
   */
  lemma SameMinuteKeepsFirst(first: string, second: string, levels1: seq<Cell>, levels2: seq<Cell>)
    requires |first| >= 16 && |second| >= 16 && first[..16] == second[..16]
    ensures DropDuplicates(TruncateTimestamps([LevelRow(Some(first), levels1), LevelRow(Some(second), levels2)]))
            == [LevelRow(Some(first[..16]), levels1)]
  {
    var input := [LevelRow(Some(first), levels1), LevelRow(Some(second), levels2)];
    var rows := TruncateTimestamps(input);
    assert input[0].timestamp == Some(first) && input[1].timestamp == Some(second);
    assert Slice(first, 16) == first[..16] && Slice(second, 16) == second[..16];
    assert rows[0].timestamp == Some(first[..16]) == Some(second[..16]) == rows[1].timestamp;
    assert SeenBefore(rows, 1);
    assert rows[..1][..0] == [];
    assert FirstOccurrences(rows[..1]) == [0];
    assert FirstOccurrences(rows) == [0];
  }

  /** The distinct timestamps of some rows. */
  function Timestamps(rows: seq<LevelRow>): (ts: set<Option<string>>)
    ensures forall k :: 0 <= k < |rows| ==> rows[k].timestamp in ts
    ensures forall t :: t in ts ==> exists k :: 0 <= k < |rows| && rows[k].timestamp == t
  {
    if rows == [] then {}
    else
      var init := rows[..|rows| - 1];
      assert forall k :: 0 <= k < |init| ==> init[k] == rows[k];
      Timestamps(init) + {rows[|rows| - 1].timestamp}
  }

  /** Rows with pairwise different timestamps have as many timestamps as rows. */
  lemma {:induction false} UniqueTimestampsCount(rows: seq<LevelRow>)
    requires forall k, l :: 0 <= k < l < |rows| ==> rows[k].timestamp != rows[l].timestamp
    ensures |Timestamps(rows)| == |rows|
  {
    if rows != [] {
      var init := rows[..|rows| - 1];
      UniqueTimestampsCount(init);
      assert rows[|rows| - 1].timestamp !in Timestamps(init);
    }
  }

  /**
   * `count_without_dupes` is the number of distinct timestamps, so the
   * duplicates `main` reports removing number `|rows| - |Timestamps(rows)|`,
   * the rows beyond the first of each timestamp.
   */
  lemma DropDuplicatesCount(rows: seq<LevelRow>)
    ensures |DropDuplicates(rows)| == |Timestamps(rows)|
  {
    var r := DropDuplicates(rows);
    forall i | 0 <= i < |rows| ensures rows[i].timestamp in Timestamps(r) {
      DropDuplicatesKeepsEveryTimestamp(rows, i);
    }
    UniqueTimestampsCount(r);
    assert Timestamps(r) == Timestamps(rows);
  }

  // ---------------------------------------------------------------------------
  // One workbook

  /** `row` is a complete row of `water` with its timestamp cut to 16 characters. */
  predicate CutFrom(row: LevelRow, water: LevelTable)
  {
    exists j :: (0 <= j < |water.rows| && Complete(water.rows[j]) &&
                 row == water.rows[j].(timestamp := Some(Slice(water.rows[j].timestamp.value, 16))))
  }

  /** The rows of `water` after `dropna` and the cut to the minute. */
  lemma TruncatedRows(water: LevelTable)
    ensures var t := TruncateTimestamps(DropNa(water.rows));
      forall i :: 0 <= i < |t| ==>
        && Complete(t[i]) && |t[i].timestamp.value| <= 16 && CutFrom(t[i], water)
        && (Rectangular(water) ==> |t[i].levels| == |water.wellIds|)
  {
    var c := DropNa(water.rows);
    var t := TruncateTimestamps(c);
    forall i | 0 <= i < |t|
      ensures Complete(t[i]) && |t[i].timestamp.value| <= 16 && CutFrom(t[i], water)
      ensures Rectangular(water) ==> |t[i].levels| == |water.wellIds|
    {
      var j :| 0 <= j < |water.rows| && water.rows[j] == c[i];
      assert t[i] == water.rows[j].(timestamp := Some(Slice(water.rows[j].timestamp.value, 16)));
    }
  }

  /**
   * `row` is complete row `j` of `water` with its timestamp cut to 16
   * characters, and no earlier complete row falls in the same minute: of the
   * rows of one minute, `drop_duplicates` keeps the first.
   */
  predicate FirstCutFrom(row: LevelRow, water: LevelTable)
  {
    exists j :: (0 <= j < |water.rows| && Complete(water.rows[j]) &&
                 row == water.rows[j].(timestamp := Some(Slice(water.rows[j].timestamp.value, 16))) &&
                 forall i :: 0 <= i < j && Complete(water.rows[i]) ==>
                   Slice(water.rows[i].timestamp.value, 16) != row.timestamp.value)
  }

  /**
   * After `dropna`, the cut to the minute and `drop_duplicates`, each row is
   * the first complete row of its minute, and the minute of every complete
   * row is still there.
   */
  lemma PreparedRows(water: LevelTable)
    ensures var d := DropDuplicates(TruncateTimestamps(DropNa(water.rows)));
      && (forall k :: 0 <= k < |d| ==> FirstCutFrom(d[k], water))
      && (forall j :: 0 <= j < |water.rows| && Complete(water.rows[j]) ==>
            exists k :: 0 <= k < |d| && d[k].timestamp == Some(Slice(water.rows[j].timestamp.value, 16)))
  {
    var d := DropDuplicates(TruncateTimestamps(DropNa(water.rows)));
    forall j | 0 <= j < |water.rows| && Complete(water.rows[j])
      ensures exists k :: 0 <= k < |d| && d[k].timestamp == Some(Slice(water.rows[j].timestamp.value, 16))
    {
      PreparedKeepsMinute(water, j);
    }
    forall k | 0 <= k < |d| ensures FirstCutFrom(d[k], water) {
      PreparedRowIsFirst(water, k);
    }
  }

  /** Row `i` of `dropna`'s output is the input row at the `i`-th kept position. */
  lemma DropNaAt(water: LevelTable, i: nat)
    requires i < |DropNa(water.rows)|
    ensures var ps := KeptPositions(water.rows, Complete);
      |ps| == |DropNa(water.rows)| && DropNa(water.rows)[i] == water.rows[ps[i]]
  {
    KeptPositionsRead(water.rows, Complete);
  }

  /** The minute of complete row `j` survives preparation. */
  lemma PreparedKeepsMinute(water: LevelTable, j: nat)
    requires j < |water.rows| && Complete(water.rows[j])
    ensures var d := DropDuplicates(TruncateTimestamps(DropNa(water.rows)));
      exists k :: 0 <= k < |d| && d[k].timestamp == Some(Slice(water.rows[j].timestamp.value, 16))
  {
    var t := TruncateTimestamps(DropNa(water.rows));
    var ps := KeptPositions(water.rows, Complete);
    KeptPositionsRead(water.rows, Complete);
    KeptPositionsComplete(water.rows, Complete, j);
    var i :| 0 <= i < |ps| && ps[i] == j;
    DropNaAt(water, i);
    DropDuplicatesKeepsEveryTimestamp(t, i);
  }

  /** Prepared row `k` is the first complete row of its minute. */
  lemma PreparedRowIsFirst(water: LevelTable, k: nat)
    requires k < |DropDuplicates(TruncateTimestamps(DropNa(water.rows)))|
    ensures FirstCutFrom(DropDuplicates(TruncateTimestamps(DropNa(water.rows)))[k], water)
  {
    var c := DropNa(water.rows);
    var t := TruncateTimestamps(c);
    var d := DropDuplicates(t);
    var ks := FirstOccurrences(t);
    var ps := KeptPositions(water.rows, Complete);
    var i := ks[k];
    DropNaAt(water, i);
    var j := ps[i];
    assert d[k] == t[i] == water.rows[j].(timestamp := Some(Slice(water.rows[j].timestamp.value, 16)));
    assert !SeenBefore(t, i) by { assert i in ks; }
    forall m | 0 <= m < j && Complete(water.rows[m])
      ensures Slice(water.rows[m].timestamp.value, 16) != d[k].timestamp.value
    {
      KeptPositionsComplete(water.rows, Complete, m);
      var i' :| 0 <= i' < |ps| && ps[i'] == m;
      assert i' < i;
      DropNaAt(water, i');
      assert t[i'].timestamp != t[i].timestamp;
    }
  }

  /**
   * Row `k` of `rows` is complete row `js[k]` of `water` with its timestamp
   * cut to 16 characters, and the positions `js` increase: the rows keep the
   * order of the sheet.
   */
  predicate CutInOrder(rows: seq<LevelRow>, water: LevelTable, js: seq<nat>)
  {
    && |js| == |rows|
    && (forall k, l :: 0 <= k < l < |js| ==> js[k] < js[l])
    && (forall k :: 0 <= k < |js| ==>
          js[k] < |water.rows| && Complete(water.rows[js[k]]) &&
          rows[k] == water.rows[js[k]].(timestamp := Some(Slice(water.rows[js[k]].timestamp.value, 16))))
  }

  /** The sheet position of each prepared row: the kept position of its first occurrence. */
  ghost function PreparedPositions(water: LevelTable): (js: seq<nat>)
    ensures |js| == |DropDuplicates(TruncateTimestamps(DropNa(water.rows)))|
  {
    var ks := FirstOccurrences(TruncateTimestamps(DropNa(water.rows)));
    var ps := KeptPositions(water.rows, Complete);
    KeptPositionsRead(water.rows, Complete);
    seq(|ks|, k requires 0 <= k < |ks| => ps[ks[k]])
  }

  /** The positions of the prepared rows increase. */
  lemma PreparedPositionsIncrease(water: LevelTable)
    ensures var js := PreparedPositions(water);
      forall k, l :: 0 <= k < l < |js| ==> js[k] < js[l]
  {
    KeptPositionsRead(water.rows, Complete);
  }

  /** Prepared row `k` is the complete sheet row at its position, cut to the minute. */
  lemma PreparedPositionAt(water: LevelTable, k: nat)
    requires k < |PreparedPositions(water)|
    ensures var j := PreparedPositions(water)[k];
      var d := DropDuplicates(TruncateTimestamps(DropNa(water.rows)));
      j < |water.rows| && Complete(water.rows[j]) &&
      d[k] == water.rows[j].(timestamp := Some(Slice(water.rows[j].timestamp.value, 16)))
  {
    var ks := FirstOccurrences(TruncateTimestamps(DropNa(water.rows)));
    DropNaAt(water, ks[k]);
  }

  /** The prepared rows come from increasing positions of the sheet: `dropna` and `drop_duplicates` keep the order. */
  lemma PreparedInInputOrder(water: LevelTable)
    ensures CutInOrder(PrepareLevels(water).rows, water, PreparedPositions(water))
  {
    PreparedPositionsIncrease(water);
    forall k | 0 <= k < |PreparedPositions(water)|
      ensures var j := PreparedPositions(water)[k];
        j < |water.rows| && Complete(water.rows[j]) &&
        PrepareLevels(water).rows[k] == water.rows[j].(timestamp := Some(Slice(water.rows[j].timestamp.value, 16)))
    {
      PreparedPositionAt(water, k);
    }
  }

  /**
   * The water-level table as `main` prepares it: rows with NaN dropped,
   * timestamps cut to the minute, duplicates dropped. Every prepared row is
   * the first complete input row of its minute, with its timestamp cut to 16
   * characters; every complete input row's minute is among the prepared
   * rows; and no two prepared rows share a timestamp.
   */
  function PrepareLevels(water: LevelTable): (r: LevelTable)
    ensures r.wellIds == water.wellIds
    ensures Rectangular(water) ==> Rectangular(r)
    ensures forall k :: 0 <= k < |r.rows| ==>
      Complete(r.rows[k]) && |r.rows[k].timestamp.value| <= 16 && FirstCutFrom(r.rows[k], water)
    ensures forall j :: 0 <= j < |water.rows| && Complete(water.rows[j]) ==>
      exists k :: 0 <= k < |r.rows| && r.rows[k].timestamp == Some(Slice(water.rows[j].timestamp.value, 16))
    ensures forall k, l :: 0 <= k < l < |r.rows| ==> r.rows[k].timestamp != r.rows[l].timestamp
  {
    var t := TruncateTimestamps(DropNa(water.rows));
    TruncatedRows(water);
    PreparedRows(water);
    LevelTable(water.wellIds, DropDuplicates(t))
  }

  /** Everything `main` writes for one workbook. */
  datatype ProfileOutput = ProfileOutput(
    profileLabel: string,
    files: OutputFiles,
    waterlevels: seq<Snapshot>,
    wells: seq<WellSummary>,
    elevations: seq<ElevationPoint>)

  /**
   * The loop body of `main` for one workbook, given the name of its first
   * sheet and the two sheets read by the derived names. The water-level
   * output is computed first, and its `KeyError` is not caught, so it stops
   * the whole run (see `ConvertAll`). It is raised exactly when a prepared
   * row exists and a well column names no well, for the first such column.
   */
  function ConvertWorkbook(firstSheetName: string, water: LevelTable, ground: seq<GroundRow>): (r: Raised<ProfileOutput>)
    requires Rectangular(water)
    ensures r.Raises? <==>
      |PrepareLevels(water).rows| > 0 &&
      exists i :: 0 <= i < |water.wellIds| && Lookup(WellsOf(ground), water.wellIds[i]).None?
    ensures r.Raises? ==>
      exists i :: (0 <= i < |water.wellIds| && r.error == KeyError(water.wellIds[i]) &&
                   Lookup(WellsOf(ground), water.wellIds[i]).None? &&
                   forall j :: 0 <= j < i ==> Lookup(WellsOf(ground), water.wellIds[j]).Some?)
  {
    var profileLabel := SheetLabel(firstSheetName);
    var prepared := PrepareLevels(water);
    var wells := WellsOf(ground);
    WorkbookRaises(water, ground);
    match WriteWaterlevels(prepared, wells)
    case Raises(e) => Raises(e)
    case Returned(snapshots) =>
      Returned(ProfileOutput(profileLabel, OutputFilesOf(profileLabel), snapshots,
                             WriteWells(prepared, wells), WriteElevations(ground)))
  }

  /** The failure condition of `ConvertWorkbook`, stated on its water-level output. */
  lemma WorkbookRaises(water: LevelTable, ground: seq<GroundRow>)
    requires Rectangular(water)
    ensures var r := WriteWaterlevels(PrepareLevels(water), WellsOf(ground));
      (r.Raises? <==>
         |PrepareLevels(water).rows| > 0 &&
         exists i :: 0 <= i < |water.wellIds| && Lookup(WellsOf(ground), water.wellIds[i]).None?) &&
      (r.Raises? ==>
         exists i :: (0 <= i < |water.wellIds| && r.error == KeyError(water.wellIds[i]) &&
                      Lookup(WellsOf(ground), water.wellIds[i]).None? &&
                      forall j :: 0 <= j < i ==> Lookup(WellsOf(ground), water.wellIds[j]).Some?))
  {
    PreparedFails(PrepareLevels(water), WellsOf(ground));
  }

  /** A table whose rows are all complete, as `PrepareLevels` leaves it. */
  predicate AllComplete(table: LevelTable)
  {
    forall k :: 0 <= k < |table.rows| ==> Complete(table.rows[k])
  }

  /**
   * For a table with no NaN, the water-level output fails exactly when there
   * is a row and some column's id is no well.
   */
  lemma PreparedFails(prepared: LevelTable, wells: seq<Well>)
    requires Rectangular(prepared) && AllComplete(prepared)
    ensures WriteWaterlevels(prepared, wells).Raises? <==>
      |prepared.rows| > 0 && exists i :: 0 <= i < |prepared.wellIds| && Lookup(wells, prepared.wellIds[i]).None?
  {
    FilterAll(prepared.rows, Complete);
  }

  /**
   * The water-level output of a prepared table: one snapshot per row, in
   * order, labelled with the row's timestamp, so the labels are distinct and
   * at most 16 characters long, and every level is a number.
   */
  lemma PreparedSnapshots(prepared: LevelTable, wells: seq<Well>)
    requires Rectangular(prepared) && AllComplete(prepared)
    requires forall k :: 0 <= k < |prepared.rows| ==> |prepared.rows[k].timestamp.value| <= 16
    requires forall k, l :: 0 <= k < l < |prepared.rows| ==> prepared.rows[k].timestamp != prepared.rows[l].timestamp
    ensures var r := WriteWaterlevels(prepared, wells);
      r.Returned? ==>
        && |r.value| == |prepared.rows|
        && (forall k :: 0 <= k < |prepared.rows| ==>
              r.value[k].dateLabel == prepared.rows[k].timestamp && |r.value[k].dateLabel.value| <= 16)
        && (forall k, l :: 0 <= k < l < |prepared.rows| ==> r.value[k].dateLabel != r.value[l].dateLabel)
        && (forall k, i :: 0 <= k < |prepared.rows| && 0 <= i < |r.value[k].values| ==> r.value[k].values[i].z.Num?)
  {
    WaterlevelsOfCompleteRows(prepared, wells);
  }

  /**
   * The snapshots of a converted workbook follow the prepared rows in order;
   * their labels are present, distinct and at most 16 characters long, and
   * their levels are numbers.
   */
  lemma ConvertWorkbookSnapshots(firstSheetName: string, water: LevelTable, ground: seq<GroundRow>)
    requires Rectangular(water)
    ensures var r := ConvertWorkbook(firstSheetName, water, ground);
      var prepared := PrepareLevels(water);
      r.Returned? ==>
        && |r.value.waterlevels| == |prepared.rows|
        && (forall k :: 0 <= k < |prepared.rows| ==>
              r.value.waterlevels[k].dateLabel == prepared.rows[k].timestamp &&
              |r.value.waterlevels[k].dateLabel.value| <= 16)
        && (forall k, l :: 0 <= k < l < |prepared.rows| ==>
              r.value.waterlevels[k].dateLabel != r.value.waterlevels[l].dateLabel)
        && (forall k, i :: 0 <= k < |prepared.rows| && 0 <= i < |r.value.waterlevels[k].values| ==>
              r.value.waterlevels[k].values[i].z.Num?)
  {
    PreparedSnapshots(PrepareLevels(water), WellsOf(ground));
  }

  /** The minute of every complete input row is the label of a snapshot of the converted workbook. */
  lemma ConvertWorkbookKeepsMinutes(firstSheetName: string, water: LevelTable, ground: seq<GroundRow>, j: nat)
    requires Rectangular(water)
    requires j < |water.rows| && Complete(water.rows[j])
    ensures var r := ConvertWorkbook(firstSheetName, water, ground);
      r.Returned? ==>
        exists k :: (0 <= k < |r.value.waterlevels| &&
                     r.value.waterlevels[k].dateLabel == Some(Slice(water.rows[j].timestamp.value, 16)))
  {
    var prepared := PrepareLevels(water);
    var r := ConvertWorkbook(firstSheetName, water, ground);
    ConvertWorkbookSnapshots(firstSheetName, water, ground);
    if r.Returned? {
      var k :| 0 <= k < |prepared.rows| && prepared.rows[k].timestamp == Some(Slice(water.rows[j].timestamp.value, 16));
      assert r.value.waterlevels[k].dateLabel == prepared.rows[k].timestamp;
    }
  }

  /**
   * Snapshot `k` is labelled with the minute of complete row `js[k]` of
   * `water`, and the positions `js` increase.
   */
  predicate LabelledInOrder(snapshots: seq<Snapshot>, water: LevelTable, js: seq<nat>)
  {
    && |js| == |snapshots|
    && (forall k, l :: 0 <= k < l < |js| ==> js[k] < js[l])
    && (forall k :: 0 <= k < |js| ==>
          js[k] < |water.rows| && Complete(water.rows[js[k]]) &&
          snapshots[k].dateLabel == Some(Slice(water.rows[js[k]].timestamp.value, 16)))
  }

  /** Snapshots labelled with the timestamps of rows in sheet order are themselves in sheet order. */
  lemma LabelsFollowRows(snapshots: seq<Snapshot>, rows: seq<LevelRow>, water: LevelTable, js: seq<nat>)
    requires CutInOrder(rows, water, js)
    requires |snapshots| == |rows|
    requires forall k :: 0 <= k < |rows| ==> snapshots[k].dateLabel == rows[k].timestamp
    ensures LabelledInOrder(snapshots, water, js)
  {
  }

  /**
   * The snapshots of a converted workbook are labelled by the minutes of
   * complete sheet rows at increasing positions.
   */
  lemma ConvertWorkbookInInputOrder(firstSheetName: string, water: LevelTable, ground: seq<GroundRow>)
    requires Rectangular(water)
    ensures var r := ConvertWorkbook(firstSheetName, water, ground);
      r.Returned? ==> LabelledInOrder(r.value.waterlevels, water, PreparedPositions(water))
  {
    var r := ConvertWorkbook(firstSheetName, water, ground);
    if r.Returned? {
      ConvertWorkbookSnapshots(firstSheetName, water, ground);
      PreparedInInputOrder(water);
      LabelsFollowRows(r.value.waterlevels, PrepareLevels(water).rows, water, PreparedPositions(water));
    }
  }

  /**
   * The other outputs of a converted workbook: one record per well, none
   * with `min_z` above `max_z`, one elevation point per survey station, and
   * the files named after the label.
   */
  lemma ConvertWorkbookRecords(firstSheetName: string, water: LevelTable, ground: seq<GroundRow>)
    requires Rectangular(water)
    ensures var r := ConvertWorkbook(firstSheetName, water, ground);
      r.Returned? ==>
        && |r.value.wells| == |WellsOf(ground)|
        && (forall s :: s in r.value.wells && s.minZ.Num? ==> s.maxZ.Num? && s.minZ.v <= s.maxZ.v)
        && |r.value.elevations| == |ground|
        && r.value.profileLabel == SheetLabel(firstSheetName)
        && r.value.files == OutputFilesOf(SheetLabel(firstSheetName))
  {
    WellsMinNotAboveMax(PrepareLevels(water), WellsOf(ground));
  }

  // ---------------------------------------------------------------------------
  // The run over all workbooks

  /** One workbook of the manifest: the name of its first sheet, and the two sheets `main` reads by the derived names. */
  datatype Workbook = Workbook(firstSheetName: string, water: LevelTable, ground: seq<GroundRow>)

  /** Every water-level sheet has one level per well column in each row. */
  predicate Readable(books: seq<Workbook>)
  {
    forall i :: 0 <= i < |books| ==> Rectangular(books[i].water)
  }

  function FirstSheetNames(books: seq<Workbook>): seq<string>
  {
    seq(|books|, i requires 0 <= i < |books| => books[i].firstSheetName)
  }

  /**
   * A loop that lets exceptions escape: the results up to the first
   * `Raises`, and that exception; every later iteration is skipped.
   */
  function UntilRaise<T>(outcomes: seq<Raised<T>>): (r: (seq<T>, Option<PyError>))
    ensures |r.0| <= |outcomes|
    ensures forall i :: 0 <= i < |r.0| ==> outcomes[i] == Returned(r.0[i])
    ensures r.1.None? ==> |r.0| == |outcomes|
    ensures r.1.Some? ==> |r.0| < |outcomes| && outcomes[|r.0|] == Raises(r.1.value)
  {
    if outcomes == [] then ([], None)
    else
      match outcomes[0]
      case Raises(e) => ([], Some(e))
      case Returned(v) =>
        var rest := UntilRaise(outcomes[1..]);
        assert forall i :: 1 <= i < |outcomes| ==> outcomes[i] == outcomes[1..][i - 1];
        ([v] + rest.0, rest.1)
  }

  /**
   * One step of a loop that stops at the first exception, having kept the
   * results of the first `i` outcomes: outcome `i` either ends the loop with
   * its exception, or its result extends the kept prefix.
   */
  lemma UntilRaiseStep<T>(outcomes: seq<Raised<T>>, i: nat, written: seq<T>)
    requires i < |outcomes|
    requires i <= |UntilRaise(outcomes).0| && written == UntilRaise(outcomes).0[..i]
    ensures outcomes[i].Raises? ==> UntilRaise(outcomes) == (written, Some(outcomes[i].error))
    ensures outcomes[i].Returned? ==>
      i + 1 <= |UntilRaise(outcomes).0| && written + [outcomes[i].value] == UntilRaise(outcomes).0[..i + 1]
  {
    var r := UntilRaise(outcomes);
    if outcomes[i].Raises? {
      assert r.0[..i] == r.0;
    } else {
      assert r.0[..i + 1] == r.0[..i] + [r.0[i]];
    }
  }

  /** A loop that stops at the first exception and met none has kept every result. */
  lemma UntilRaiseDone<T>(outcomes: seq<Raised<T>>, written: seq<T>)
    requires |outcomes| <= |UntilRaise(outcomes).0| && written == UntilRaise(outcomes).0[..|outcomes|]
    ensures UntilRaise(outcomes) == (written, None)
  {
    assert UntilRaise(outcomes).0[..|outcomes|] == UntilRaise(outcomes).0;
  }

  /** What converting each workbook on its own would give. */
  function Outcomes(books: seq<Workbook>): (r: seq<Raised<ProfileOutput>>)
    requires Readable(books)
    ensures |r| == |books|
  {
    seq(|books|, i requires 0 <= i < |books| => ConvertWorkbook(books[i].firstSheetName, books[i].water, books[i].ground))
  }

  /** Outcome `i` is workbook `i` converted on its own. */
  lemma OutcomesAt(books: seq<Workbook>)
    requires Readable(books)
    ensures forall i :: 0 <= i < |books| ==>
      Outcomes(books)[i] == ConvertWorkbook(books[i].firstSheetName, books[i].water, books[i].ground)
  {
  }

  /**
   * The second loop of `main`: the workbooks in manifest order, each one
   * written before the next is read. The first exception ends the run; the
   * outputs of the workbooks before it stay written, and no later workbook
   * is converted.
   */
  function ConvertAll(books: seq<Workbook>): (r: (seq<ProfileOutput>, Option<PyError>))
    requires Readable(books)
    ensures |r.0| <= |books|
    ensures forall i :: 0 <= i < |r.0| ==>
      ConvertWorkbook(books[i].firstSheetName, books[i].water, books[i].ground) == Returned(r.0[i])
    ensures r.1.None? ==> |r.0| == |books|
    ensures r.1.Some? ==>
      |r.0| < |books| &&
      ConvertWorkbook(books[|r.0|].firstSheetName, books[|r.0|].water, books[|r.0|].ground) == Raises(r.1.value)
  {
    OutcomesAt(books);
    UntilRaise(Outcomes(books))
  }

  /** The prefixes of the labels of `books`, in order, are the manifest. */
  lemma ManifestOfLabels(books: seq<Workbook>, labels: seq<string>)
    requires |labels| == |books|
    requires forall k :: 0 <= k < |books| ==> labels[k] == SheetLabel(books[k].firstSheetName)
    ensures seq(|labels|, i requires 0 <= i < |labels| => OutputPrefix(labels[i])) == Manifest(FirstSheetNames(books))
  {
    var m := Manifest(FirstSheetNames(books));
    assert forall i :: 0 <= i < |books| ==> m[i] == OutputPrefix(labels[i]);
  }

  /** The first loop of `main`: the label of each workbook, from the name of its first sheet. */
  method Labels(books: seq<Workbook>) returns (labels: seq<string>)
    ensures |labels| == |books|
    ensures forall k :: 0 <= k < |books| ==> labels[k] == SheetLabel(books[k].firstSheetName)
  {
    labels := [];
    for i := 0 to |books|
      invariant |labels| == i
      invariant forall k :: 0 <= k < i ==> labels[k] == SheetLabel(books[k].firstSheetName)
    {
      labels := labels + [SheetLabel(books[i].firstSheetName)];
    }
  }

  /** The body of the second loop of `main`: workbook `i` read and converted. */
  method ConvertBook(books: seq<Workbook>, i: nat) returns (out: Raised<ProfileOutput>)
    requires Readable(books) && i < |books|
    ensures out == Outcomes(books)[i]
  {
    out := ConvertWorkbook(books[i].firstSheetName, books[i].water, books[i].ground);
    OutcomesAt(books);
  }

  /** The second loop of `main`: each workbook converted and written in turn, until the first exception. */
  method ConvertLoop(books: seq<Workbook>) returns (written: seq<ProfileOutput>, failure: Option<PyError>)
    requires Readable(books)
    ensures (written, failure) == UntilRaise(Outcomes(books))
  {
    written, failure := [], None;
    ghost var outcomes := Outcomes(books);
    for i := 0 to |books|
      invariant i <= |UntilRaise(outcomes).0| && written == UntilRaise(outcomes).0[..i]
      invariant failure == None
    {
      var out := ConvertBook(books, i);
      UntilRaiseStep(outcomes, i, written);
      if out.Raises? {
        failure := Some(out.error);
        return;
      }
      written := written + [out.value];
    }
    UntilRaiseDone(outcomes, written);
  }

  /**
   * `main` after the manifest check: the labels of all workbooks, the
   * manifest of their prefixes, then the workbooks converted in order until
   * the first exception, which ends the run.
   */
  method Run(books: seq<Workbook>) returns (manifest: seq<string>, written: seq<ProfileOutput>, failure: Option<PyError>)
    requires Readable(books)
    ensures manifest == Manifest(FirstSheetNames(books))
    ensures (written, failure) == ConvertAll(books)
  {
    var labels := Labels(books);
    manifest := seq(|labels|, i requires 0 <= i < |labels| => OutputPrefix(labels[i]));
    ManifestOfLabels(books, labels);
    written, failure := ConvertLoop(books);
    assert ConvertAll(books) == UntilRaise(Outcomes(books));
  }

  /**
   * The manifest is written before any workbook converts, and it names them
   * all. The converted workbooks are its first entries, and the viewer's
   * names for each are the files written for it. When a workbook raises, the
   * manifest still lists it and every later workbook, whose files are never
   * written.
   */
  lemma ManifestOutrunsRun(books: seq<Workbook>)
    requires Readable(books)
    ensures var manifest := Manifest(FirstSheetNames(books));
      var written := ConvertAll(books).0;
      && |manifest| == |books|
      && (ConvertAll(books).1.None? <==> |written| == |manifest|)
      && (forall i :: 0 <= i < |written| ==>
            App.ResourceNames(manifest[i]) ==
            App.Resources(written[i].files.wells, written[i].files.elevations, written[i].files.waterlevels))
  {
    var manifest := Manifest(FirstSheetNames(books));
    var written := ConvertAll(books).0;
    forall i | 0 <= i < |written|
      ensures App.ResourceNames(manifest[i]) ==
              App.Resources(written[i].files.wells, written[i].files.elevations, written[i].files.waterlevels)
    {
      ConvertWorkbookRecords(books[i].firstSheetName, books[i].water, books[i].ground);
    }
  }
}
