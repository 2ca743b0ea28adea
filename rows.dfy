/**
 * The two passes `updateAsync` makes over the query rows: collecting the set of
 * countries, and building the country -> value table while tracking the extrema
 * that become the colour scale's domain.
 *
 * A row is already reduced to the dimension value (the country) and the measure
 * value that the code reads from `row[dimensions[0].name].value` and
 * `row[measures[0].name].value`.
 */
module Rows {

  datatype Row = Row(country: string, value: int)

  /** The running minimum and maximum start at `Infinity` and `-Infinity`. */
  datatype Extreme = PosInfinity | NegInfinity | Finite(value: int)

  /** `v < e` as JavaScript compares a number with a possibly infinite one. */
  predicate Below(v: int, e: Extreme) {
    match e
    case PosInfinity => true
    case NegInfinity => false
    case Finite(m) => v < m
  }

  /** `v > e` as JavaScript compares a number with a possibly infinite one. */
  predicate Above(v: int, e: Extreme) {
    match e
    case PosInfinity => false
    case NegInfinity => true
    case Finite(m) => v > m
  }

  /** The countries the rows mention. */
  function Countries(rows: seq<Row>): set<string>
  {
    set i | 0 <= i < |rows| :: rows[i].country
  }

  /** The table the scan builds: each row in turn overwrites its country's entry. */
  function CountryValues(rows: seq<Row>): map<string, int>
  {
    if rows == [] then map[]
    else
      var last := rows[|rows| - 1];
      CountryValues(rows[..|rows| - 1])[last.country := last.value]
  }

  /** The running minimum after all rows, starting from `Infinity`. */
  function MinValue(rows: seq<Row>): (m: Extreme)
    ensures m != NegInfinity
    ensures m == PosInfinity <==> rows == []
  {
    if rows == [] then PosInfinity
    else
      var m := MinValue(rows[..|rows| - 1]);
      var v := rows[|rows| - 1].value;
      if Below(v, m) then Finite(v) else m
  }

  /** The running maximum after all rows, starting from `-Infinity`. */
  function MaxValue(rows: seq<Row>): (m: Extreme)
    ensures m != PosInfinity
    ensures m == NegInfinity <==> rows == []
  {
    if rows == [] then NegInfinity
    else
      var m := MaxValue(rows[..|rows| - 1]);
      var v := rows[|rows| - 1].value;
      if Above(v, m) then Finite(v) else m
  }

  /** The first `forEach`: adds every row's country to a set. */
  method CollectCountries(rows: seq<Row>) returns (countries: set<string>)
    ensures forall c :: c in countries <==> exists i :: 0 <= i < |rows| && rows[i].country == c
    ensures countries == Countries(rows)
  {
    countries := {};
    var i := 0;
    while i < |rows|
      invariant 0 <= i <= |rows|
      invariant countries == Countries(rows[..i])
    {
      assert rows[..i + 1] == rows[..i] + [rows[i]];
      assert Countries(rows[..i + 1]) == Countries(rows[..i]) + {rows[i].country} by {
        var next := rows[..i + 1];
        forall c | c in Countries(next) ensures c in Countries(rows[..i]) + {rows[i].country} {
          var j :| 0 <= j < |next| && next[j].country == c;
          if j < i { assert rows[..i][j] == next[j]; }
        }
        forall c | c in Countries(rows[..i]) ensures c in Countries(next) {
          var j :| 0 <= j < i && rows[..i][j].country == c;
          assert next[j] == rows[..i][j];
        }
        assert next[i] == rows[i];
      }
      countries := countries + {rows[i].country};
      i := i + 1;
    }
    assert rows[..i] == rows;
  }

  /** The second `forEach`: fills `countryData` and tracks `minValue` and `maxValue`. */
  method ScanRows(rows: seq<Row>) returns (countryData: map<string, int>, minValue: Extreme, maxValue: Extreme)
    ensures countryData == CountryValues(rows)
    ensures minValue == MinValue(rows) && maxValue == MaxValue(rows)
  {
    countryData := map[];
    minValue, maxValue := PosInfinity, NegInfinity;
    var i := 0;
    while i < |rows|
      invariant 0 <= i <= |rows|
      invariant countryData == CountryValues(rows[..i])
      invariant minValue == MinValue(rows[..i]) && maxValue == MaxValue(rows[..i])
    {
      var row := rows[i];
      assert rows[..i + 1][..i] == rows[..i];
      countryData := countryData[row.country := row.value];
      if Below(row.value, minValue) { minValue := Finite(row.value); }
      if Above(row.value, maxValue) { maxValue := Finite(row.value); }
      i := i + 1;
    }
    assert rows[..i] == rows;
  }

  /** For non-empty rows the extrema are finite and bracket every row's value, overwritten rows included. */
  lemma {:induction false} ExtremaBoundEveryRow(rows: seq<Row>)
    requires rows != []
    ensures MinValue(rows).Finite? && MaxValue(rows).Finite?
    ensures forall i :: 0 <= i < |rows| ==> MinValue(rows).value <= rows[i].value <= MaxValue(rows).value
  {
    var init := rows[..|rows| - 1];
    if init != [] {
      ExtremaBoundEveryRow(init);
      forall i | 0 <= i < |rows| - 1
        ensures MinValue(rows).value <= rows[i].value <= MaxValue(rows).value
      {
        assert init[i] == rows[i];
      }
    }
  }

  /** For non-empty rows the minimum and the maximum are each some row's value. */
  lemma {:induction false} ExtremaAttained(rows: seq<Row>)
    requires rows != []
    ensures exists i :: 0 <= i < |rows| && MinValue(rows) == Finite(rows[i].value)
    ensures exists j :: 0 <= j < |rows| && MaxValue(rows) == Finite(rows[j].value)
  {
    var n := |rows|;
    var init := rows[..n - 1];
    if init == [] {
      assert MinValue(rows) == Finite(rows[0].value);
      assert MaxValue(rows) == Finite(rows[0].value);
    } else {
      ExtremaAttained(init);
      var i :| 0 <= i < |init| && MinValue(init) == Finite(init[i].value);
      var j :| 0 <= j < |init| && MaxValue(init) == Finite(init[j].value);
      assert init[i] == rows[i] && init[j] == rows[j];
      if MinValue(rows) != MinValue(init) { assert MinValue(rows) == Finite(rows[n - 1].value); }
      if MaxValue(rows) != MaxValue(init) { assert MaxValue(rows) == Finite(rows[n - 1].value); }
    }
  }

  /** The table has an entry exactly for the countries the rows mention. */
  lemma {:induction false} CountryValuesKeys(rows: seq<Row>)
    ensures CountryValues(rows).Keys == Countries(rows)
  {
    if rows != [] {
      var init := rows[..|rows| - 1];
      CountryValuesKeys(init);
      assert Countries(rows) == Countries(init) + {rows[|rows| - 1].country} by {
        forall c | c in Countries(rows) ensures c in Countries(init) + {rows[|rows| - 1].country} {
          var j :| 0 <= j < |rows| && rows[j].country == c;
          if j < |rows| - 1 { assert init[j] == rows[j]; }
        }
        forall c | c in Countries(init) ensures c in Countries(rows) {
          var j :| 0 <= j < |init| && init[j].country == c;
          assert rows[j] == init[j];
        }
      }
    }
  }

  /** The last row carrying a country decides that country's entry. */
  lemma {:induction false} LastRowWins(rows: seq<Row>, i: nat)
    requires i < |rows|
    requires forall j :: i < j < |rows| ==> rows[j].country != rows[i].country
    ensures rows[i].country in CountryValues(rows)
    ensures CountryValues(rows)[rows[i].country] == rows[i].value
  {
    var n := |rows|;
    if i < n - 1 {
      var init := rows[..n - 1];
      assert init[i] == rows[i];
      forall j | i < j < |init| ensures init[j].country != init[i].country {
        assert init[j] == rows[j];
      }
      LastRowWins(init, i);
    }
  }

  /**
   * The legend's domain is taken over every row, the overwritten ones too, so it can
   * reach a value that no region displays: two rows for Chile leave only the second
   * in the table, while the minimum is the first.
   */
  lemma LegendDomainMayExceedDisplayedValues()
    ensures var rows := [Row("Chile", 1), Row("Chile", 5)];
      MinValue(rows) == Finite(1) && CountryValues(rows) == map["Chile" := 5]
  {
  }
}
