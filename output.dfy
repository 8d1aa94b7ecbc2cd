/**
 * What the program writes to standard output, as a trace of events.
 * The display strategies (ConsoleDisplay, ReverseDisplay) live in a file that
 * is not part of this model, so a display is recorded as an abstract event
 * naming the strategy and the text it was given, rather than as its output.
 */
module Output {
  /** The two display strategies the dispatcher knows. */
  datatype DisplayMethod = ConsoleDisplay | ReverseDisplay

  datatype Event =
    | Displayed(strategy: DisplayMethod, content: string)  // one call of a display strategy
    | Line(text: string)                                 // one line written by a print call
}
