/**
 * The terminal surface the engine talks to, reduced to the values that cross
 * its boundary: colours, styles, keys and single cell writes.  The colour and
 * key names are those terminus re-exports in terminus.go.
 */
module Display {

  /** A Go rune: a Unicode code point stored in an int32. */
  type Rune = int

  /** The sprite value meaning "draw nothing" (the zero rune). */
  const NoGlyph: Rune := 0

  datatype Color =
    | White | Black | Gray | Red | Pink | DarkRed | Green | LightGreen | DarkGreen
    | Blue | LightBlue | DarkBlue | Orange | Purple | Yellow

  /** tcell.StyleDefault, or the default style with a foreground and a background set. */
  datatype Style = DefaultStyle | Styled(fg: Color, bg: Color)

  /** The logical key of a key event; KeyRune is a printable character, KeyOther any other code. */
  datatype Key = KeyEsc | KeyUp | KeyDown | KeyRight | KeyLeft | KeyEnter | KeyRune | KeyOther(code: int)

  /** A key event: its logical key (EventKey.Key) and its character (EventKey.Rune). */
  datatype KeyEvent = KeyEvent(key: Key, ch: Rune)

  /** One SetContent call: a glyph written at a screen cell in a style. */
  datatype Cell = Cell(x: int, y: int, glyph: Rune, style: Style)

  predicate IsArrow(k: Key)
  {
    k == KeyUp || k == KeyDown || k == KeyLeft || k == KeyRight
  }
}
