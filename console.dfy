/**
 * The read-eval-print loop shared by the two calculators: what one input line
 * produces, and the loop state it leaves behind (the memory slots and the
 * previous result, two locals of `main` in the source).
 */
module Console {

  /** What a line produces: the end of input, a printed value, a panic, or a non-finite f64. */
  datatype Reply = Stop | Output(value: real) | Panicked | NonFinite

  /** The reply to one line and the loop state after it. */
  datatype Step = Step(reply: Reply, slots: map<string, real>, prev: real)
}
