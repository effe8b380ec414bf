/**
 * The table transforms of the spreadsheet converter, without pandas and
 * without file I/O: the per-timestamp snapshot (`format_waterlevel`), the
 * water-level, elevation and well outputs (`write_waterlevels`,
 * `write_elevations`, `write_wells` up to, not including, `json.dump`).
 * Each output is specified by a function over sequences; the loops that
 * build the lists with `append` are methods proved equal to them.
 */
module Converter {
  import opened Wrappers
  import opened PyBuiltins

  /** A numeric spreadsheet cell; pandas reads an empty cell as NaN. */
  datatype Cell = Num(v: real) | NaN

  /**
   * One row of the "<label> water" sheet: the timestamp (the column headed
   * 'well id', read as text and renamed 'timestamp'; NaN when empty) and one
   * water level per well column.
   */
  datatype LevelRow = LevelRow(timestamp: Option<string>, levels: seq<Cell>)

  /** The water-level sheet: the well id heading each level column, and the rows. */
  datatype LevelTable = LevelTable(wellIds: seq<string>, rows: seq<LevelRow>)

  /** Every row has one level per well column (a data frame is rectangular). */
  predicate Rectangular(t: LevelTable)
  {
    forall k :: 0 <= k < |t.rows| ==> |t.rows[k].levels| == |t.wellIds|
  }

  /** One row of the "<label> ground" sheet: the well id where a well stands, the station and the ground elevation. */
  datatype GroundRow = GroundRow(wellId: Option<string>, station: Cell, ground: Cell)

  /** A row of the wells frame: a ground row with no missing cell, indexed by well id. */
  datatype Well = Well(id: string, station: real, ground: real)

  /** `{"id", "x", "z"}` of a water-level snapshot. */
  datatype Reading = Reading(id: string, x: real, z: Cell)

  /** `{"label", "values"}`: one timestamp and one reading per well column. */
  datatype Snapshot = Snapshot(dateLabel: Option<string>, values: seq<Reading>)

  /** `{"x", "z"}` of the elevation profile. */
  datatype ElevationPoint = ElevationPoint(x: Cell, z: Cell)

  /** `{"id", "x", "min_z", "max_z", "surface"}` of the wells output. */
  datatype WellSummary = WellSummary(id: string, x: real, minZ: Cell, maxZ: Cell, surface: real)

  // ---------------------------------------------------------------------------
  // Row filters (`dropna`)

  /** The elements of `s` that `keep` accepts, in their order. */
  function Filter<T>(s: seq<T>, keep: T -> bool): (r: seq<T>)
    ensures |r| <= |s|
    ensures forall i :: 0 <= i < |r| ==> r[i] in s && keep(r[i])
    ensures forall i :: 0 <= i < |s| && keep(s[i]) ==> s[i] in r
  {
    if s == [] then []
    else Filter(s[..|s| - 1], keep) + (if keep(s[|s| - 1]) then [s[|s| - 1]] else [])
  }

  /** Filtering keeps the order: it distributes over concatenation. */
  lemma {:induction false} FilterAppend<T>(a: seq<T>, b: seq<T>, keep: T -> bool)
    ensures Filter(a + b, keep) == Filter(a, keep) + Filter(b, keep)
  {
    if b == [] {
      assert a + b == a;
    } else {
      var b' := b[..|b| - 1];
      FilterAppend(a, b', keep);
      assert (a + b)[..|a + b| - 1] == a + b';
    }
  }

  /** Filtering a sequence whose every element is kept gives it back. */
  lemma {:induction false} FilterAll<T>(s: seq<T>, keep: T -> bool)
    requires forall i :: 0 <= i < |s| ==> keep(s[i])
    ensures Filter(s, keep) == s
  {
    if s != [] {
      FilterAll(s[..|s| - 1], keep);
    }
  }

  /** The positions of the elements `Filter` keeps, in increasing order. */
  function KeptPositions<T>(s: seq<T>, keep: T -> bool): (ps: seq<nat>)
    ensures forall k :: 0 <= k < |ps| ==> ps[k] < |s| && keep(s[ps[k]])
    ensures forall k, l :: 0 <= k < l < |ps| ==> ps[k] < ps[l]
  {
    if s == [] then []
    else
      var n := |s| - 1;
      var ps := KeptPositions(s[..n], keep);
      assert forall k :: 0 <= k < |ps| ==> s[..n][ps[k]] == s[ps[k]];
      if keep(s[n]) then ps + [n] else ps
  }

  /** The filtered sequence is the input read at the kept positions. */
  lemma {:induction false} KeptPositionsRead<T>(s: seq<T>, keep: T -> bool)
    ensures |KeptPositions(s, keep)| == |Filter(s, keep)|
    ensures forall k :: 0 <= k < |Filter(s, keep)| ==> Filter(s, keep)[k] == s[KeptPositions(s, keep)[k]]
  {
    if s != [] {
      var n := |s| - 1;
      KeptPositionsRead(s[..n], keep);
      var ps := KeptPositions(s[..n], keep);
      assert forall k :: 0 <= k < |ps| ==> s[..n][ps[k]] == s[ps[k]];
    }
  }

  /** Every position `keep` accepts is among the kept positions. */
  lemma {:induction false} KeptPositionsComplete<T>(s: seq<T>, keep: T -> bool, i: nat)
    requires i < |s| && keep(s[i])
    ensures i in KeptPositions(s, keep)
  {
    var n := |s| - 1;
    if i < n {
      assert s[..n][i] == s[i];
      KeptPositionsComplete(s[..n], keep, i);
    }
  }

  /** A water-level row without NaN. */
  predicate Complete(row: LevelRow)
  {
    row.timestamp.Some? && forall i :: 0 <= i < |row.levels| ==> row.levels[i].Num?
  }

  /** `df.dropna()` on the water-level rows: the rows with no NaN, in their order. */
  function DropNa(rows: seq<LevelRow>): (r: seq<LevelRow>)
    ensures forall k :: 0 <= k < |r| ==> Complete(r[k]) && r[k] in rows
    ensures forall k :: 0 <= k < |rows| && Complete(rows[k]) ==> rows[k] in r
  {
    Filter(rows, Complete)
  }

  predicate GroundComplete(row: GroundRow)
  {
    row.wellId.Some? && row.station.Num? && row.ground.Num?
  }

  /**
   * `elevations.dropna()` indexed by 'well id': the stations where a well
   * stands, one per complete ground row in sheet order (`WellsInSheetOrder`).
   */
  function WellsOf(ground: seq<GroundRow>): (wells: seq<Well>)
    ensures forall w :: w in wells <==> GroundRow(Some(w.id), Num(w.station), Num(w.ground)) in ground
  {
    var kept := Filter(ground, GroundComplete);
    var wells := seq(|kept|, i requires 0 <= i < |kept| => Well(kept[i].wellId.value, kept[i].station.v, kept[i].ground.v));
    assert forall w: Well :: GroundRow(Some(w.id), Num(w.station), Num(w.ground)) in ground ==> w in wells by {
      forall w: Well | GroundRow(Some(w.id), Num(w.station), Num(w.ground)) in ground ensures w in wells {
        var g := GroundRow(Some(w.id), Num(w.station), Num(w.ground));
        assert g in kept;
        var i :| 0 <= i < |kept| && kept[i] == g;
        assert wells[i] == w;
      }
    }
    wells
  }

  /**
   * Well `i` is the `i`-th complete ground row, found at the `i`-th kept position; those
   * positions increase and include every complete row, so each complete row
   * gives exactly one well, in sheet order.
   */
  lemma WellsInSheetOrder(ground: seq<GroundRow>)
    ensures var kept := Filter(ground, GroundComplete);
      var wells := WellsOf(ground);
      |wells| == |kept| &&
      forall i :: 0 <= i < |wells| ==>
        wells[i] == Well(kept[i].wellId.value, kept[i].station.v, kept[i].ground.v)
    ensures var ps := KeptPositions(ground, GroundComplete);
      var wells := WellsOf(ground);
      |wells| == |ps| &&
      forall i :: 0 <= i < |wells| ==>
        wells[i] == Well(ground[ps[i]].wellId.value, ground[ps[i]].station.v, ground[ps[i]].ground.v)
  {
    KeptPositionsRead(ground, GroundComplete);
  }

  /** `wells.loc[id]`: the first well with that id, if any. */
  function Lookup(wells: seq<Well>, id: string): (r: Option<Well>)
    ensures r.Some? <==> exists i :: 0 <= i < |wells| && wells[i].id == id
    ensures r.Some? ==> r.value in wells && r.value.id == id
  {
    if wells == [] then None
    else if wells[0].id == id then Some(wells[0])
    else
      var r := Lookup(wells[1..], id);
      assert forall i :: 1 <= i < |wells| ==> wells[i] == wells[1..][i - 1];
      r
  }

  // ---------------------------------------------------------------------------
  // format_waterlevel

  /** Put `prefix` before a returned list; an exception passes through. */
  function Prepend<T>(prefix: seq<T>, r: Raised<seq<T>>): Raised<seq<T>>
  {
    match r
    case Returned(s) => Returned(prefix + s)
    case Raises(e) => Raises(e)
  }

  /** Prepending nothing changes nothing. */
  lemma PrependNothing<T>(r: Raised<seq<T>>)
    ensures Prepend([], r) == r
  {
    if r.Returned? {
      assert [] + r.value == r.value;
    }
  }

  /** Prepending twice is prepending the concatenation. */
  lemma PrependTwice<T>(a: seq<T>, b: seq<T>, r: Raised<seq<T>>)
    ensures Prepend(a, Prepend(b, r)) == Prepend(a + b, r)
  {
    if r.Returned? {
      assert a + (b + r.value) == (a + b) + r.value;
    }
  }

  /**
   * The readings of one row, one per well column in column order; the first
   * column whose well id is missing from the wells raises `KeyError`.
   */
  function FormatValues(ids: seq<string>, levels: seq<Cell>, wells: seq<Well>): Raised<seq<Reading>>
    requires |levels| == |ids|
  {
    if ids == [] then Returned([])
    else
      match Lookup(wells, ids[0])
      case None => Raises(KeyError(ids[0]))
      case Some(w) => Prepend([Reading(ids[0], w.station, levels[0])], FormatValues(ids[1..], levels[1..], wells))
  }

  /**
   * The readings succeed exactly when every column's well id is a known well;
   * then reading `i` is column `i`'s id, that well's station and the level in
   * column `i`; otherwise the error is `KeyError` for the first unknown id.
   */
  lemma {:induction false} FormatValuesSpec(ids: seq<string>, levels: seq<Cell>, wells: seq<Well>)
    requires |levels| == |ids|
    ensures var r := FormatValues(ids, levels, wells);
      && (r.Returned? <==> forall i :: 0 <= i < |ids| ==> Lookup(wells, ids[i]).Some?)
      && (r.Returned? ==>
            && |r.value| == |ids|
            && forall i :: 0 <= i < |ids| ==>
                 r.value[i] == Reading(ids[i], Lookup(wells, ids[i]).value.station, levels[i]))
      && (r.Raises? ==>
            exists k :: (0 <= k < |ids| && r.error == KeyError(ids[k]) && Lookup(wells, ids[k]).None? &&
                         forall i :: 0 <= i < k ==> Lookup(wells, ids[i]).Some?))
  {
    if ids != [] && Lookup(wells, ids[0]).Some? {
      var rest := FormatValues(ids[1..], levels[1..], wells);
      FormatValuesSpec(ids[1..], levels[1..], wells);
      assert forall i :: 1 <= i < |ids| ==> ids[i] == ids[1..][i - 1] && levels[i] == levels[1..][i - 1];
      if rest.Raises? {
        var k' :| 0 <= k' < |ids| - 1 && rest.error == KeyError(ids[1..][k']) && Lookup(wells, ids[1..][k']).None? &&
          forall i :: 0 <= i < k' ==> Lookup(wells, ids[1..][i]).Some?;
        assert Lookup(wells, ids[k' + 1]).None?;
        assert forall i :: 0 <= i < k' + 1 ==> Lookup(wells, ids[i]).Some? by {
          forall i | 0 <= i < k' + 1 ensures Lookup(wells, ids[i]).Some? {
            if i > 0 { assert Lookup(wells, ids[1..][i - 1]).Some?; }
          }
        }
      } else {
        assert forall i :: 0 <= i < |ids| ==> Lookup(wells, ids[i]).Some? by {
          forall i | 0 <= i < |ids| ensures Lookup(wells, ids[i]).Some? {
            if i > 0 { assert Lookup(wells, ids[1..][i - 1]).Some?; }
          }
        }
      }
    }
  }

  /**
   * `format_waterlevel(row, wells)`: the row's timestamp as label, and one
   * reading per column; `KeyError` for the first column whose id is no well.
   */
  function FormatWaterlevel(row: LevelRow, ids: seq<string>, wells: seq<Well>): (r: Raised<Snapshot>)
    requires |row.levels| == |ids|
    ensures r.Returned? <==> forall i :: 0 <= i < |ids| ==> Lookup(wells, ids[i]).Some?
    ensures r.Returned? ==>
      && r.value.dateLabel == row.timestamp
      && |r.value.values| == |ids|
      && forall i :: 0 <= i < |ids| ==>
           r.value.values[i] == Reading(ids[i], Lookup(wells, ids[i]).value.station, row.levels[i])
    ensures r.Raises? ==>
      exists k :: (0 <= k < |ids| && r.error == KeyError(ids[k]) && Lookup(wells, ids[k]).None? &&
                   forall i :: 0 <= i < k ==> Lookup(wells, ids[i]).Some?)
  {
    FormatValuesSpec(ids, row.levels, wells);
    match FormatValues(ids, row.levels, wells)
    case Returned(values) => Returned(Snapshot(row.timestamp, values))
    case Raises(e) => Raises(e)
  }

  /** The `for k, v in mydict.items(): values.append(...)` loop of `format_waterlevel`. */
  method FormatWaterlevelLoop(row: LevelRow, ids: seq<string>, wells: seq<Well>) returns (r: Raised<Snapshot>)
    requires |row.levels| == |ids|
    ensures r == FormatWaterlevel(row, ids, wells)
  {
    var values: seq<Reading> := [];
    assert ids[0..] == ids && row.levels[0..] == row.levels;
    PrependNothing(FormatValues(ids, row.levels, wells));
    for i := 0 to |ids|
      invariant FormatValues(ids, row.levels, wells) == Prepend(values, FormatValues(ids[i..], row.levels[i..], wells))
    {
      assert ids[i..][0] == ids[i] && row.levels[i..][0] == row.levels[i];
      assert ids[i..][1..] == ids[i + 1..] && row.levels[i..][1..] == row.levels[i + 1..];
      var w := Lookup(wells, ids[i]);
      if w.None? {
        return Raises(KeyError(ids[i]));
      }
      var reading := Reading(ids[i], w.value.station, row.levels[i]);
      PrependTwice(values, [reading], FormatValues(ids[i + 1..], row.levels[i + 1..], wells));
      values := values + [reading];
    }
    assert ids[|ids|..] == [] && row.levels[|ids|..] == [];
    assert values + [] == values;
    return Returned(Snapshot(row.timestamp, values));
  }

  // ---------------------------------------------------------------------------
  // write_waterlevels

  /** Formats the rows in order; the first exception stops the whole output. */
  function FormatAll(rows: seq<LevelRow>, ids: seq<string>, wells: seq<Well>): Raised<seq<Snapshot>>
    requires forall k :: 0 <= k < |rows| ==> |rows[k].levels| == |ids|
  {
    if rows == [] then Returned([])
    else
      match FormatWaterlevel(rows[0], ids, wells)
      case Raises(e) => Raises(e)
      case Returned(s) => Prepend([s], FormatAll(rows[1..], ids, wells))
  }

  /**
   * Formatting all rows fails exactly when there is a row and some column's
   * well id is unknown; otherwise snapshot `k` is the formatting of row `k`.
   */
  lemma {:induction false} FormatAllSpec(rows: seq<LevelRow>, ids: seq<string>, wells: seq<Well>)
    requires forall k :: 0 <= k < |rows| ==> |rows[k].levels| == |ids|
    ensures var r := FormatAll(rows, ids, wells);
      && (r.Raises? <==> |rows| > 0 && exists i :: 0 <= i < |ids| && Lookup(wells, ids[i]).None?)
      && (r.Raises? ==> FormatWaterlevel(rows[0], ids, wells) == Raises(r.error))
      && (r.Returned? ==>
            && |r.value| == |rows|
            && forall k :: 0 <= k < |rows| ==> FormatWaterlevel(rows[k], ids, wells) == Returned(r.value[k]))
  {
    if rows != [] {
      FormatValuesSpec(ids, rows[0].levels, wells);
      FormatAllSpec(rows[1..], ids, wells);
      assert forall k :: 1 <= k < |rows| ==> rows[k] == rows[1..][k - 1];
    }
  }

  /**
   * `write_waterlevels(df, wells, ...)` up to the file write: one snapshot
   * per complete row, or the `KeyError` of the first column whose id is no
   * well as soon as there is a complete row to format.
   */
  function WriteWaterlevels(table: LevelTable, wells: seq<Well>): (r: Raised<seq<Snapshot>>)
    requires Rectangular(table)
    ensures r.Raises? <==>
      |DropNa(table.rows)| > 0 && exists i :: 0 <= i < |table.wellIds| && Lookup(wells, table.wellIds[i]).None?
    ensures r.Raises? ==>
      exists i :: (0 <= i < |table.wellIds| && r.error == KeyError(table.wellIds[i]) &&
                   Lookup(wells, table.wellIds[i]).None? &&
                   forall j :: 0 <= j < i ==> Lookup(wells, table.wellIds[j]).Some?)
    ensures r.Returned? ==> |r.value| == |DropNa(table.rows)|
  {
    var rows := DropNa(table.rows);
    assert forall k :: 0 <= k < |rows| ==> rows[k] in table.rows;
    FormatAllSpec(rows, table.wellIds, wells);
    FormatAll(rows, table.wellIds, wells)
  }

  /**
   * The water-level output keeps exactly the rows with no missing cell, in
   * their input order, and carries over each one's timestamp and levels.
   */
  lemma WaterlevelsKeepCompleteRows(table: LevelTable, wells: seq<Well>)
    requires Rectangular(table)
    ensures var r := WriteWaterlevels(table, wells);
      var rows := DropNa(table.rows);
      r.Returned? ==>
        && |r.value| == |rows|
        && forall k :: 0 <= k < |rows| ==>
             && r.value[k].dateLabel == rows[k].timestamp && r.value[k].dateLabel.Some?
             && |r.value[k].values| == |table.wellIds|
             && forall i :: 0 <= i < |table.wellIds| ==>
                  r.value[k].values[i].id == table.wellIds[i] && r.value[k].values[i].z == rows[k].levels[i]
                  && r.value[k].values[i].z.Num?
  {
    var r := WriteWaterlevels(table, wells);
    var rows := DropNa(table.rows);
    assert forall k :: 0 <= k < |rows| ==> rows[k] in table.rows && Complete(rows[k]);
    FormatAllSpec(rows, table.wellIds, wells);
    if r.Returned? {
      forall k | 0 <= k < |rows|
        ensures r.value[k].dateLabel == rows[k].timestamp
        ensures |r.value[k].values| == |table.wellIds|
        ensures forall i :: 0 <= i < |table.wellIds| ==>
                  r.value[k].values[i].id == table.wellIds[i] && r.value[k].values[i].z == rows[k].levels[i]
      {
        assert FormatWaterlevel(rows[k], table.wellIds, wells) == Returned(r.value[k]);
        FormatValuesSpec(table.wellIds, rows[k].levels, wells);
        assert FormatValues(table.wellIds, rows[k].levels, wells) == Returned(r.value[k].values);
      }
    }
  }

  /**
   * For rows with no NaN, `dropna` keeps them all: one snapshot per row, in
   * order, labelled with its timestamp, and every level a number.
   */
  lemma WaterlevelsOfCompleteRows(table: LevelTable, wells: seq<Well>)
    requires Rectangular(table)
    requires forall k :: 0 <= k < |table.rows| ==> Complete(table.rows[k])
    ensures var r := WriteWaterlevels(table, wells);
      r.Returned? ==>
        && |r.value| == |table.rows|
        && forall k :: 0 <= k < |table.rows| ==>
             && r.value[k].dateLabel == table.rows[k].timestamp
             && forall i :: 0 <= i < |r.value[k].values| ==> r.value[k].values[i].z.Num?
  {
    FilterAll(table.rows, Complete);
    assert DropNa(table.rows) == table.rows;
    if WriteWaterlevels(table, wells).Returned? {
      WaterlevelsKeepCompleteRows(table, wells);
    }
  }

  /** One unfolding of `FormatAll` at position `k`. */
  lemma FormatAllAt(rows: seq<LevelRow>, k: nat, ids: seq<string>, wells: seq<Well>)
    requires forall j :: 0 <= j < |rows| ==> |rows[j].levels| == |ids|
    requires k < |rows|
    ensures FormatAll(rows[k..], ids, wells) ==
      match FormatWaterlevel(rows[k], ids, wells)
      case Raises(e) => Raises(e)
      case Returned(s) => Prepend([s], FormatAll(rows[k + 1..], ids, wells))
  {
    assert rows[k..][0] == rows[k] && rows[k..][1..] == rows[k + 1..];
  }

  /** The loop of `write_waterlevels`: `results.append(format_waterlevel(row, wells))` for each complete row. */
  method WriteWaterlevelsLoop(table: LevelTable, wells: seq<Well>) returns (r: Raised<seq<Snapshot>>)
    requires Rectangular(table)
    ensures r == WriteWaterlevels(table, wells)
  {
    var rows := DropNa(table.rows);
    var ids := table.wellIds;
    assert forall j :: 0 <= j < |rows| ==> |rows[j].levels| == |ids| by {
      assert forall j :: 0 <= j < |rows| ==> rows[j] in table.rows;
    }
    var results: seq<Snapshot> := [];
    assert rows[0..] == rows;
    PrependNothing(FormatAll(rows, ids, wells));
    for k := 0 to |rows|
      invariant FormatAll(rows, ids, wells) == Prepend(results, FormatAll(rows[k..], ids, wells))
    {
      FormatAllAt(rows, k, ids, wells);
      var s := FormatWaterlevelLoop(rows[k], ids, wells);
      if s.Raises? {
        return Raises(s.error);
      }
      PrependTwice(results, [s.value], FormatAll(rows[k + 1..], ids, wells));
      results := results + [s.value];
    }
    assert rows[|rows|..] == [];
    assert results + [] == results;
    return Returned(results);
  }

  // ---------------------------------------------------------------------------
  // write_elevations

  /** `write_elevations(df, ...)` up to the file write: every ground row becomes `{x, z}`. */
  function WriteElevations(ground: seq<GroundRow>): (r: seq<ElevationPoint>)
    ensures |r| == |ground|
    ensures forall i :: 0 <= i < |ground| ==> r[i] == ElevationPoint(ground[i].station, ground[i].ground)
  {
    if ground == [] then []
    else
      var last := ground[|ground| - 1];
      WriteElevations(ground[..|ground| - 1]) + [ElevationPoint(last.station, last.ground)]
  }

  /** The loop of `write_elevations`. */
  method WriteElevationsLoop(ground: seq<GroundRow>) returns (r: seq<ElevationPoint>)
    ensures r == WriteElevations(ground)
  {
    r := [];
    for i := 0 to |ground|
      invariant r == WriteElevations(ground[..i])
    {
      assert ground[..i + 1][..i] == ground[..i];
      r := r + [ElevationPoint(ground[i].station, ground[i].ground)];
    }
    assert ground[..|ground|] == ground;
  }

  // ---------------------------------------------------------------------------
  // write_wells

  /** The position of the column headed `id`, if any. */
  function ColumnOf(ids: seq<string>, id: string): (r: Option<nat>)
    ensures r.Some? <==> id in ids
    ensures r.Some? ==> r.value < |ids| && ids[r.value] == id
  {
    if ids == [] then None
    else if ids[0] == id then Some(0)
    else
      match ColumnOf(ids[1..], id)
      case None => None
      case Some(j) => Some(j + 1)
  }

  /** The numbers in column `j`, skipping NaN as pandas' `min` and `max` do. */
  function ColumnValues(rows: seq<LevelRow>, j: nat): (vs: seq<real>)
    requires forall k :: 0 <= k < |rows| ==> j < |rows[k].levels|
    ensures forall x :: x in vs <==> exists k :: 0 <= k < |rows| && rows[k].levels[j] == Num(x)
  {
    if rows == [] then []
    else
      var init := rows[..|rows| - 1];
      var last := rows[|rows| - 1].levels[j];
      var vs := ColumnValues(init, j) + (if last.Num? then [last.v] else []);
      assert forall k :: 0 <= k < |init| ==> init[k] == rows[k];
      vs
  }

  /** The least element of a non-empty sequence. */
  function SeqMin(s: seq<real>): (m: real)
    requires |s| > 0
    ensures m in s && forall x :: x in s ==> m <= x
  {
    if |s| == 1 then s[0]
    else
      var m := SeqMin(s[1..]);
      assert forall x :: x in s ==> x == s[0] || x in s[1..];
      if s[0] <= m then s[0] else m
  }

  /** The greatest element of a non-empty sequence. */
  function SeqMax(s: seq<real>): (m: real)
    requires |s| > 0
    ensures m in s && forall x :: x in s ==> x <= m
  {
    if |s| == 1 then s[0]
    else
      var m := SeqMax(s[1..]);
      assert forall x :: x in s ==> x == s[0] || x in s[1..];
      if s[0] >= m then s[0] else m
  }

  /** The well `id` has a column in `table`, and that column holds at least one number. */
  predicate HasReadings(table: LevelTable, id: string)
    requires Rectangular(table)
  {
    match ColumnOf(table.wellIds, id)
    case None => false
    case Some(j) => exists k :: 0 <= k < |table.rows| && table.rows[k].levels[j].Num?
  }

  /**
   * The `min_z` and `max_z` of one well: the least and greatest level in its
   * column over all rows, NaN when the well has no column or the column no
   * number (pandas aligns the wells frame with the column-wise minima by id).
   */
  function Extremes(table: LevelTable, id: string): (r: (Cell, Cell))
    requires Rectangular(table)
    ensures r.0.Num? <==> HasReadings(table, id)
    ensures r.0.Num? <==> r.1.Num?
    ensures r.0.Num? ==> r.0.v <= r.1.v
    ensures match ColumnOf(table.wellIds, id)
      case None => r == (NaN, NaN)
      case Some(j) =>
        r.0.Num? ==>
          (forall k :: 0 <= k < |table.rows| && table.rows[k].levels[j].Num? ==>
             r.0.v <= table.rows[k].levels[j].v <= r.1.v) &&
          (exists k :: 0 <= k < |table.rows| && table.rows[k].levels[j] == r.0) &&
          (exists k :: 0 <= k < |table.rows| && table.rows[k].levels[j] == r.1)
  {
    match ColumnOf(table.wellIds, id)
    case None => (NaN, NaN)
    case Some(j) =>
      var vs := ColumnValues(table.rows, j);
      assert forall k :: 0 <= k < |table.rows| && table.rows[k].levels[j].Num? ==> table.rows[k].levels[j].v in vs;
      if |vs| == 0 then (NaN, NaN)
      else
        var lo, hi := SeqMin(vs), SeqMax(vs);
        assert vs[0] in vs;
        (Num(lo), Num(hi))
  }

  /** One record of the wells output. */
  function Summary(table: LevelTable, w: Well): WellSummary
    requires Rectangular(table)
  {
    var (lo, hi) := Extremes(table, w.id);
    WellSummary(w.id, w.station, lo, hi, w.ground)
  }

  /** `write_wells(waterlevels, wells, ...)` up to the file write: one record per well, in the wells' order. */
  function WriteWells(table: LevelTable, wells: seq<Well>): (r: seq<WellSummary>)
    requires Rectangular(table)
    ensures |r| == |wells|
    ensures forall i :: 0 <= i < |wells| ==> r[i] == Summary(table, wells[i])
  {
    if wells == [] then []
    else WriteWells(table, wells[..|wells| - 1]) + [Summary(table, wells[|wells| - 1])]
  }

  /**
   * Every record has `min_z <= max_z` (both NaN, or both numbers), its
   * position and surface come from the well, and its extremes are numbers
   * exactly when the well's column holds a reading.
   */
  lemma WellsMinNotAboveMax(table: LevelTable, wells: seq<Well>)
    requires Rectangular(table)
    ensures forall s :: s in WriteWells(table, wells) ==> (s.minZ.Num? <==> s.maxZ.Num?)
    ensures forall s :: s in WriteWells(table, wells) && s.minZ.Num? ==> s.minZ.v <= s.maxZ.v
    ensures forall i :: 0 <= i < |wells| ==>
      WriteWells(table, wells)[i].x == wells[i].station && WriteWells(table, wells)[i].surface == wells[i].ground
    ensures forall i :: 0 <= i < |wells| ==>
      (WriteWells(table, wells)[i].minZ.Num? <==> HasReadings(table, wells[i].id))
  {
    var r := WriteWells(table, wells);
    forall s | s in r ensures (s.minZ.Num? <==> s.maxZ.Num?) && (s.minZ.Num? ==> s.minZ.v <= s.maxZ.v) {
      var i :| 0 <= i < |r| && r[i] == s;
      var e := Extremes(table, wells[i].id);
    }
  }

  /** The loop of `write_wells`: `wells_data.append(...)` for each row of the joined frame. */
  method WriteWellsLoop(table: LevelTable, wells: seq<Well>) returns (r: seq<WellSummary>)
    requires Rectangular(table)
    ensures r == WriteWells(table, wells)
  {
    r := [];
    for i := 0 to |wells|
      invariant r == WriteWells(table, wells[..i])
    {
      assert wells[..i + 1][..i] == wells[..i];
      var (lo, hi) := Extremes(table, wells[i].id);
      r := r + [WellSummary(wells[i].id, wells[i].station, lo, hi, wells[i].ground)];
    }
    assert wells[..|wells|] == wells;
  }
}
