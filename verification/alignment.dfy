/**
 * Column alignment: the built feature row is reindexed against the model
 * bundle's authoritative, ordered column list. A listed column that was not
 * built is filled with 0; a built key that is not listed is dropped. The
 * result is the numeric vector the scaler and model consume, position by
 * position.
 */
module Alignment {
  import opened Vehicle
  import opened Features

  /** The value reindexing puts under one listed column. */
  function Cell(row: map<string, real>, column: string): real {
    if column in row then row[column] else 0.0
  }

  /** The aligned vector, one entry per listed column, in list order. */
  function Align(columns: seq<string>, row: map<string, real>): (v: seq<real>)
    ensures |v| == |columns|
    ensures forall i :: 0 <= i < |columns| && columns[i] in row ==> v[i] == row[columns[i]]
    ensures forall i :: 0 <= i < |columns| && columns[i] !in row ==> v[i] == 0.0
    decreases |columns|
  {
    if columns == [] then []
    else [Cell(row, columns[0])] + Align(columns[1..], row)
  }

  /**
   * The aligned vector as a labelled frame: its key set is exactly the listed
   * columns, nothing missing and nothing extra, and each key holds the value
   * at that column's position.
   */
  function Frame(columns: seq<string>, row: map<string, real>): (frame: map<string, real>)
    ensures frame.Keys == set c | c in columns
    ensures forall i :: 0 <= i < |columns| ==> frame[columns[i]] == Align(columns, row)[i]
  {
    map c | c in columns :: Cell(row, c)
  }

  /**
   * Only the listed keys matter: two rows that agree on every listed column
   * (present in both with the same value, or absent from both) align to the
   * same vector, whatever else they hold.
   */
  lemma AlignIgnoresUnlisted(columns: seq<string>, row: map<string, real>, other: map<string, real>)
    requires forall c :: c in columns ==> (c in row <==> c in other)
    requires forall c :: c in columns && c in row ==> row[c] == other[c]
    ensures Align(columns, row) == Align(columns, other)
  {
  }

  /** In particular, dropping every unlisted key first changes nothing. */
  lemma AlignDropsUnlisted(columns: seq<string>, row: map<string, real>)
    ensures Align(columns, row) == Align(columns, map c | c in row && c in columns :: row[c])
  {
  }

  /** The full pipeline: build the feature row, then align it to the bundle's columns. */
  function FeatureVector(x: Inputs, currentYear: int, log1p: real -> real, columns: seq<string>): seq<real> {
    Align(columns, Row(x, currentYear, log1p))
  }

  /**
   * Position i of the model's input holds the value of the feature whose
   * column name is `columns[i]`, and 0 when `columns[i]` names no feature or
   * only a baseline level.
   */
  lemma FeatureVectorCells(x: Inputs, currentYear: int, log1p: real -> real, columns: seq<string>)
    ensures |FeatureVector(x, currentYear, log1p, columns)| == |columns|
    ensures forall i, f :: 0 <= i < |columns| && columns[i] == Name(f) && !Baseline(f) ==>
      FeatureVector(x, currentYear, log1p, columns)[i] == Value(x, currentYear, log1p, f)
    ensures forall i :: 0 <= i < |columns| && (forall f :: columns[i] == Name(f) ==> Baseline(f)) ==>
      FeatureVector(x, currentYear, log1p, columns)[i] == 0.0
  {
    var row := Row(x, currentYear, log1p);
    forall i, f | 0 <= i < |columns| && columns[i] == Name(f) && !Baseline(f)
      ensures FeatureVector(x, currentYear, log1p, columns)[i] == Value(x, currentYear, log1p, f)
    {
      RowColumn(x, currentYear, log1p, f);
    }
    forall i | 0 <= i < |columns| && (forall f :: columns[i] == Name(f) ==> Baseline(f))
      ensures FeatureVector(x, currentYear, log1p, columns)[i] == 0.0
    {
      RowKeys(x, currentYear, log1p, columns[i]);
    }
  }
}
