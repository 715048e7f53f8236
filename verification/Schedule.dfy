// The halving plan table and the unit slice every candidate of a round gets.
module Schedule {
  import opened Common

  datatype ScheduleError = RoundOutOfRange(round: int)

  datatype HalvingSchedule = HalvingSchedule(roundSizes: seq<nat>, unitsPerArm: seq<nat>, poolSize: nat) {
    /** What construction accepts. */
    predicate Valid() {
      && |roundSizes| == |unitsPerArm| && roundSizes != []
      && (forall i :: 0 <= i < |roundSizes| ==> roundSizes[i] > 0 && unitsPerArm[i] > 0)
      && poolSize > 0
    }

    predicate HasRound(k: int) {
      1 <= k <= |roundSizes|
    }

    predicate IsFinal(k: int) {
      k == |roundSizes|
    }

    /** After round k: the size of round k + 1, or a single winner after the last. */
    function NextRoundSize(k: int): (r: Result<nat, ScheduleError>)
      requires Valid()
      ensures r.Ok? <==> HasRound(k)
      ensures r.Ok? ==> r.value >= 1
      ensures r.Ok? && IsFinal(k) ==> r.value == 1
    {
      if k < 1 || k > |roundSizes| then Err(RoundOutOfRange(k))
      else if k == |roundSizes| then Ok(1)
      else Ok(roundSizes[k])
    }

    /** Task units per candidate in round k, clamped to the pool. */
    function UnitsFor(k: int, pool: nat): (n: nat)
      requires Valid() && HasRound(k)
      ensures n <= pool && n <= unitsPerArm[k - 1]
      ensures n == pool || n == unitsPerArm[k - 1]
    {
      if unitsPerArm[k - 1] > pool then pool else unitsPerArm[k - 1]
    }

    function Slice(k: int, pool: seq<string>): (s: Result<seq<string>, ScheduleError>)
      requires Valid()
      ensures s.Ok? <==> HasRound(k)
      ensures s.Ok? ==> s.value <= pool && |s.value| == UnitsFor(k, |pool|)
    {
      if k < 1 || k > |unitsPerArm| then Err(RoundOutOfRange(k))
      else Ok(pool[..UnitsFor(k, |pool|)])
    }
  }
}
