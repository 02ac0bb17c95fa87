/** The colours the fallback colour storage hands out, kept abstract: their RGB
    values and how a brush renders them are not part of this model. */
module Colors {

  /** Six colours read from the host's ambient system palette (SystemColors) and
      the two fixed colours (Colors.Beige, Colors.MidnightBlue) of the default branch. */
  datatype Color =
    | Window
    | WindowText
    | Highlight
    | HighlightText
    | Control
    | ControlText
    | Beige
    | MidnightBlue

  /** True exactly for the colours taken from the ambient system palette. */
  predicate IsSystemColor(c: Color) {
    !(c.Beige? || c.MidnightBlue?)
  }
}
