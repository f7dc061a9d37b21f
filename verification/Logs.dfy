/** Logs of what happens in the clocks of a run. */
module Logs {

  function When<T>(c: bool, x: T): (r: seq<T>) { if c then [x] else [] }

  /** If one clock takes what was due and what it fires to what it delivers and what is now due, and
      the rest of the run does too, then the run does. */
  lemma Chained<T>(was: seq<T>, fired: seq<T>, later: seq<T>, left: seq<T>, now: seq<T>, rest: seq<T>, last: seq<T>)
    requires was + fired == left + now && now + later == rest + last
    ensures was + (fired + later) == (left + rest) + last
  {
    calc {
      was + (fired + later);
      (was + fired) + later;
      left + (now + later);
      (left + rest) + last;
    }
  }
}
