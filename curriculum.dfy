/**
 * The curriculum of horizontal launch and target ranges: a FIFO queue of
 * ranges with an active one, falling back to the full width once the queue
 * is used up.
 */
module Curriculum {

  /** A horizontal span as fractions of the episode width; left <= right is not required. */
  datatype Range = Range(left: real, right: real)

  /** The full episode width, (-0.5, 0.5). */
  const FullRange: Range := Range(-0.5, 0.5)

  datatype Option<T> = None | Some(value: T)

  /** A range bound accepted by the setters: within [-0.5, 0.5]. */
  predicate InHalfUnit(v: real) { -0.5 <= v <= 0.5 }

  /** The queue a batch starts from: the configured list, or the single full range. */
  function InitialQueue(configured: Option<seq<Range>>): seq<Range>
  {
    match configured
    case None => [FullRange]
    case Some(q) => q
  }

  /**
   * One advance of a queue: a non-empty queue gives up its front, which
   * becomes the active range; an empty queue gives the full range and stays
   * empty. Yields the new active range and the new queue.
   */
  function NextRange(queue: seq<Range>): (r: (Range, seq<Range>))
    ensures queue != [] ==> [r.0] + r.1 == queue
    ensures queue == [] ==> r.0 == FullRange && r.1 == []
  {
    if |queue| > 0 then (queue[0], queue[1..]) else (FullRange, [])
  }

  /** The active range and queue after n advances. */
  function AdvanceTimes(active: Range, queue: seq<Range>, n: nat): (Range, seq<Range>)
    decreases n
  {
    if n == 0 then (active, queue)
    else
      var (next, rest) := NextRange(queue);
      AdvanceTimes(next, rest, n - 1)
  }

  /**
   * Advancing n >= 1 times through a queue of length L yields its n-th entry
   * while n <= L, and the full range for ever after.
   */
  lemma {:induction false} AdvanceTimesYields(active: Range, queue: seq<Range>, n: nat)
    ensures AdvanceTimes(active, queue, n) ==
              if n == 0 then (active, queue)
              else if n <= |queue| then (queue[n - 1], queue[n..])
              else (FullRange, [])
    decreases n
  {
    if n > 0 {
      var (next, rest) := NextRange(queue);
      AdvanceTimesYields(next, rest, n - 1);
      if 1 < n <= |queue| {
        assert rest == queue[1..];
        assert rest[n - 2] == queue[n - 1];
        assert rest[n - 1..] == queue[n..];
      }
    }
  }
}
