/** The tables that flow between the stages: one row per sample, a timestamp
    (whole seconds) followed by the integer particle counts of the reading
    columns. */
module Frames {

  datatype Sample = Sample(time: int, readings: seq<int>)

  /** A data frame has the same columns in every row. */
  predicate Uniform(rows: seq<Sample>)
  {
    forall i :: 0 <= i < |rows| ==> |rows[i].readings| == |rows[0].readings|
  }

  /** Number of reading columns, taken from the first row (`df.values[0][1:]`). */
  function Width(rows: seq<Sample>): nat
  {
    if rows == [] then 0 else |rows[0].readings|
  }

  function Times(rows: seq<Sample>): (ts: seq<int>)
    ensures |ts| == |rows|
    ensures forall i :: 0 <= i < |rows| ==> ts[i] == rows[i].time
  {
    seq(|rows|, i requires 0 <= i < |rows| => rows[i].time)
  }

  function Zeros(w: nat): (z: seq<int>)
    ensures |z| == w && forall c :: 0 <= c < w ==> z[c] == 0
  {
    seq(w, c => 0)
  }
}
