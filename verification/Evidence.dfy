/** Timestamps as the evidence records carry them: a monotonic and a wall clock, in milliseconds (evidence.rs). */
module Evidence {

  datatype Timestamp = Timestamp(mono: nat, wall: int)

  function Later(left: Timestamp, right: Timestamp): (r: Timestamp)
    ensures r.mono >= left.mono && r.mono >= right.mono && r in {left, right}
  {
    if left.mono >= right.mono then left else right
  }

  predicate NotBefore(t: Timestamp, bound: Timestamp) {
    t.mono >= bound.mono && t.wall >= bound.wall
  }
}
