/** Paths of IR values, as carried by the worklist (lib/type/ValuePath.h). */
module ValuePath {
  import opened Wrappers

  /** The identity of an IR value. */
  type Value = nat

  datatype ValuePath = ValuePath(values: seq<Value>)
  {
    predicate IsEmpty() { values == [] }

    predicate OnlyStart() { |values| == 1 }

    function LastValue(): Option<Value> {
      if values == [] then None else Some(values[|values| - 1])
    }

    function StartValue(): Option<Value> {
      if values == [] then None else Some(values[0])
    }

    function Append(v: Value): ValuePath { ValuePath(values + [v]) }

    /** The path without its last value. */
    function Prefix(): ValuePath
      requires values != []
    {
      ValuePath(values[..|values| - 1])
    }

    /** No value repeats. */
    predicate IsSimple() {
      forall i, j :: 0 <= i < j < |values| ==> values[i] != values[j]
    }
  }
}
