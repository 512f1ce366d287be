/** Slices of sequences with Python's bounds. */
module Slices {

  /** `items[:end]`: an end past the sequence keeps all of it, a negative one counts from its end. */
  function Slice<T>(items: seq<T>, end: int): (kept: seq<T>)
    ensures kept <= items
    ensures end >= 0 ==> |kept| == if end < |items| then end else |items|
    ensures end < 0 ==> |kept| == if -end < |items| then |items| - -end else 0
  {
    if end >= |items| then items
    else if end >= 0 then items[..end]
    else if |items| + end >= 0 then items[..|items| + end]
    else []
  }
}
