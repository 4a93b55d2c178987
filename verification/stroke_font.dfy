/**
 * The stroke font: every glyph is a list of polylines in a box with the
 * baseline at y = 0 and the cap height at y = 1. Characters are looked up by
 * their lower-case form; anything the font lacks is drawn as '?'.
 */
module StrokeFont {
  import opened Wrappers
  import opened Plotting

  /** A glyph: its nominal advance in em (drawing ignores it) and its polylines. */
  datatype Glyph = Glyph(width: real, strokes: seq<seq<Point>>)

  /**
   * `FONT.get(c)`. The table lists 'w' twice; as with any Python dict literal the
   * second entry wins while the key keeps its first position.
   */
  function FontEntry(c: char): Option<Glyph>
  {
    match c
    case 'a' => Some(Glyph(1.0, [
        [Point(0.0, 1.0), Point(0.5, 0.0), Point(1.0, 1.0)],
        [Point(0.25, 0.5), Point(0.75, 0.5)]]))
    case 'b' => Some(Glyph(1.0, [
        [Point(0.0, 0.0), Point(0.8, 0.0), Point(1.0, 0.2), Point(1.0, 0.5), Point(0.0, 0.5)],
        [Point(0.0, 0.0), Point(0.0, 1.0), Point(1.0, 1.0), Point(1.0, 0.7), Point(0.8, 0.5)]]))
    case 'c' => Some(Glyph(1.0, [
        [Point(1.0, 0.0), Point(0.5, 0.0), Point(0.0, 1.0), Point(1.0, 1.0)]]))
    case 'd' => Some(Glyph(1.0, [
        [Point(0.0, 0.0), Point(0.8, 0.0), Point(1.0, 0.2), Point(1.0, 1.0), Point(0.0, 1.0)],
        [Point(0.3, 1.0), Point(0.3, 0.0)]]))
    case 'e' => Some(Glyph(1.0, [
        [Point(1.0, 0.0), Point(0.0, 0.0), Point(0.0, 1.0), Point(1.0, 1.0)],
        [Point(0.0, 0.5), Point(1.0, 0.5)]]))
    case 'f' => Some(Glyph(1.0, [
        [Point(1.0, 0.0), Point(0.5, 0.0), Point(0.0, 1.0)],
        [Point(0.25, 0.5), Point(1.0, 0.5)]]))
    case 'g' => Some(Glyph(1.0, [
        [Point(1.0, 0.0), Point(0.5, 0.0), Point(0.0, 1.0), Point(1.0, 1.0), Point(1.0, 0.5), Point(0.75, 0.5)]]))
    case 'h' => Some(Glyph(1.0, [
        [Point(0.0, 0.0), Point(0.0, 1.0)],
        [Point(0.0, 0.5), Point(1.0, 0.5)],
        [Point(1.0, 1.0), Point(1.0, 0.0)]]))
    case 'i' => Some(Glyph(1.0, [
        [Point(0.0, 0.0), Point(1.0, 0.0)],
        [Point(1.0, 1.0), Point(0.0, 1.0)],
        [Point(0.5, 1.0), Point(0.5, 0.0)]]))
    case 'j' => Some(Glyph(1.0, [
        [Point(0.0, 0.0), Point(1.0, 0.0)],
        [Point(0.5, 0.0), Point(1.0, 0.5), Point(0.0, 1.0), Point(0.0, 0.75)]]))
    case 'k' => Some(Glyph(1.0, [
        [Point(0.0, 0.0), Point(0.0, 1.0)],
        [Point(1.0, 0.0), Point(0.0, 0.5), Point(1.0, 1.0)]]))
    case 'l' => Some(Glyph(1.0, [
        [Point(0.0, 0.0), Point(0.0, 1.0), Point(1.0, 1.0)]]))
    case 'm' => Some(Glyph(1.0, [
        [Point(0.0, 1.0), Point(0.0, 0.0), Point(0.5, 0.5), Point(1.0, 0.0), Point(1.0, 1.0)]]))
    case 'n' => Some(Glyph(1.0, [
        [Point(0.0, 1.0), Point(0.0, 0.0), Point(1.0, 1.0), Point(1.0, 0.0)]]))
    case 'o' => Some(Glyph(0.6, [
        [Point(0.0, 0.0), Point(0.8, 0.0), Point(1.0, 0.2), Point(1.0, 1.0), Point(0.0, 1.0), Point(0.0, 0.0)]]))
    case 'p' => Some(Glyph(0.6, [
        [Point(0.0, 1.0), Point(0.0, 0.0), Point(0.8, 0.0), Point(1.0, 0.2), Point(1.0, 0.5), Point(0.0, 0.5)]]))
    case 'q' => Some(Glyph(0.6, [
        [Point(0.0, 0.0), Point(0.0, 1.0), Point(0.5, 1.0), Point(1.0, 0.5), Point(1.0, 0.2), Point(0.8, 0.0), Point(0.0, 0.0)],
        [Point(0.5, 0.5), Point(1.0, 1.0)]]))
    case 'r' => Some(Glyph(0.6, [
        [Point(0.0, 1.0), Point(0.0, 0.0), Point(0.8, 0.0), Point(1.0, 0.2), Point(1.0, 0.5), Point(0.0, 0.5), Point(1.0, 1.0)]]))
    case 'w' => Some(Glyph(1.0, [
        [Point(0.0, 0.0), Point(0.25, 1.0), Point(0.5, 0.0), Point(0.75, 1.0), Point(1.0, 0.0)]]))
    case 's' => Some(Glyph(0.55, [
        [Point(1.0, 0.0), Point(0.5, 0.0), Point(0.25, 0.5), Point(1.0, 0.5), Point(1.0, 1.0), Point(0.0, 1.0)]]))
    case 't' => Some(Glyph(1.0, [
        [Point(0.0, 0.0), Point(1.0, 0.0)],
        [Point(0.5, 0.0), Point(0.5, 1.0)]]))
    case 'u' => Some(Glyph(1.0, [
        [Point(0.0, 0.0), Point(0.0, 1.0), Point(1.0, 1.0), Point(1.0, 0.0)]]))
    case 'v' => Some(Glyph(1.0, [
        [Point(0.0, 0.0), Point(0.5, 1.0), Point(1.0, 0.0)]]))
    case 'x' => Some(Glyph(1.0, [
        [Point(0.0, 0.0), Point(1.0, 1.0)],
        [Point(0.0, 1.0), Point(1.0, 0.0)]]))
    case 'y' => Some(Glyph(1.0, [
        [Point(0.0, 0.0), Point(0.5, 0.5), Point(0.5, 1.0)],
        [Point(0.5, 0.5), Point(1.0, 0.0)]]))
    case 'z' => Some(Glyph(1.0, [
        [Point(0.0, 0.0), Point(1.0, 0.0), Point(0.0, 1.0), Point(1.0, 1.0)]]))
    case '1' => Some(Glyph(1.0, [
        [Point(0.25, 0.25), Point(0.5, 0.0), Point(0.5, 1.0), Point(0.0, 1.0)],
        [Point(0.5, 1.0), Point(1.0, 1.0)]]))
    case '2' => Some(Glyph(1.0, [
        [Point(0.0, 0.0), Point(0.8, 0.0), Point(1.0, 0.2), Point(1.0, 0.5), Point(0.0, 1.0), Point(1.0, 1.0)]]))
    case '3' => Some(Glyph(1.0, [
        [Point(0.0, 0.0), Point(1.0, 0.0), Point(1.0, 1.0), Point(0.0, 1.0)],
        [Point(0.0, 0.5), Point(1.0, 0.5)]]))
    case '4' => Some(Glyph(1.0, [
        [Point(0.0, 0.0), Point(0.0, 0.5), Point(1.0, 0.5)],
        [Point(1.0, 1.0), Point(1.0, 0.0)]]))
    case '5' => Some(Glyph(1.0, [
        [Point(0.0, 1.0), Point(1.0, 1.0), Point(1.0, 0.5), Point(0.0, 0.5), Point(0.0, 0.0), Point(1.0, 0.0)]]))
    case '6' => Some(Glyph(1.0, [
        [Point(0.0, 0.5), Point(0.0, 1.0), Point(1.0, 1.0), Point(1.0, 0.5), Point(0.0, 0.5), Point(0.5, 0.0), Point(1.0, 0.0)]]))
    case '7' => Some(Glyph(1.0, [
        [Point(0.0, 1.0), Point(1.0, 0.0), Point(0.0, 0.0)]]))
    case '8' => Some(Glyph(1.0, [
        [Point(0.0, 0.5), Point(0.0, 0.0), Point(1.0, 0.0), Point(1.0, 0.5), Point(0.0, 0.5), Point(0.0, 1.0), Point(1.0, 1.0), Point(1.0, 0.5)]]))
    case '9' => Some(Glyph(1.0, [
        [Point(1.0, 1.0), Point(1.0, 0.0), Point(0.0, 0.0), Point(0.0, 0.5), Point(1.0, 0.5)]]))
    case '0' => Some(Glyph(1.0, [
        [Point(0.0, 0.0), Point(0.0, 1.0), Point(1.0, 1.0), Point(1.0, 0.0), Point(0.0, 0.0)],
        [Point(0.0, 1.0), Point(1.0, 0.0)]]))
    case '-' => Some(Glyph(1.0, [
        [Point(0.0, 0.5), Point(1.0, 0.5)]]))
    case '.' => Some(Glyph(1.0, [
        [Point(0.0, 1.0), Point(0.01, 1.0)]]))
    case '!' => Some(Glyph(1.0, [
        [Point(0.0, 0.0), Point(0.0, 0.75)],
        [Point(0.0, 1.0), Point(0.01, 1.0)]]))
    case ',' => Some(Glyph(1.0, [
        [Point(0.0, 1.0), Point(0.2, 0.8)]]))
    case '?' => Some(Glyph(1.0, [
        [Point(0.0, 0.0), Point(0.8, 0.0), Point(1.0, 0.2), Point(0.5, 0.5), Point(0.5, 0.8)],
        [Point(0.5, 1.0), Point(0.51, 1.0)]]))
    case '"' => Some(Glyph(1.0, [
        [Point(0.3, 0.0), Point(0.3, 0.3)],
        [Point(0.7, 0.0), Point(0.7, 0.3)]]))
    case '%' => Some(Glyph(1.0, [
        [Point(0.0, 0.0), Point(0.01, 0.0)],
        [Point(1.0, 0.0), Point(0.0, 1.0)],
        [Point(1.0, 1.0), Point(0.99, 1.0)]]))
    case '#' => Some(Glyph(1.0, [
        [Point(0.3, 0.0), Point(0.3, 1.0)],
        [Point(0.7, 0.0), Point(0.7, 1.0)],
        [Point(0.0, 0.35), Point(1.0, 0.35)],
        [Point(0.0, 0.65), Point(1.0, 0.65)]]))
    case '+' => Some(Glyph(1.0, [
        [Point(0.0, 0.5), Point(1.0, 0.5)],
        [Point(0.5, 0.2), Point(0.5, 0.8)]]))
    case 'ß' => Some(Glyph(1.0, [
        [Point(0.0, 1.0), Point(0.0, 0.0), Point(0.8, 0.0), Point(1.0, 0.2), Point(1.0, 0.4), Point(0.0, 0.5), Point(1.0, 0.6), Point(1.0, 0.8), Point(0.8, 1.0), Point(0.5, 1.0)]]))
    case 'é' => Some(Glyph(1.0, [
        [Point(1.0, 0.0), Point(0.0, 0.0), Point(0.0, 1.0), Point(1.0, 1.0)],
        [Point(0.0, 0.5), Point(1.0, 0.5)],
        [Point(0.35, -0.15), Point(0.65, -0.35)]]))
    case 'í' => Some(Glyph(1.0, [
        [Point(0.0, 0.0), Point(1.0, 0.0)],
        [Point(1.0, 1.0), Point(0.0, 1.0)],
        [Point(0.5, 1.0), Point(0.5, 0.0)],
        [Point(0.35, -0.15), Point(0.65, -0.35)]]))
    case ' ' => Some(Glyph(0.35, []))
    case _ => None
  }

  /** `FONT.get(key, FONT['?'])`. */
  function GlyphFor(key: char): (g: Glyph)
    ensures FontEntry(key).Some? ==> g == FontEntry(key).value
    ensures FontEntry(key).None? ==> g == FontEntry('?').value
  {
    match FontEntry(key)
    case Some(g) => g
    case None => FontEntry('?').value
  }

  /**
   * `ch.lower()` as far as a font lookup can tell: ASCII capitals, the Kelvin
   * sign, capital sharp s, and the capitals of the two accented letters in the
   * font map to their lower-case keys. Every other character either is its own
   * lower case or lowers to something the font lacks, so it looks up like itself.
   */
  function GlyphKey(c: char): (k: char)
    ensures 'A' <= c <= 'Z' ==> k as int == c as int + 32
    ensures k == ' ' <==> c == ' '
  {
    if 'A' <= c <= 'Z' then (c as int + 32) as char
    else if c == '\U{212A}' then 'k'
    else if c == '\U{1E9E}' then '\U{df}'
    else if c == '\U{c9}' then '\U{e9}'
    else if c == '\U{cd}' then '\U{ed}'
    else c
  }

  /** Every key of the font is already lower case, so it looks up as itself. */
  lemma FontKeysAreLowerCase(c: char)
    requires FontEntry(c).Some?
    ensures GlyphKey(c) == c
  {
  }

  /** The space is in the font and draws nothing. */
  lemma SpaceDrawsNothing()
    ensures FontEntry(' ') == Some(Glyph(0.35, []))
    ensures GlyphFor(GlyphKey(' ')).strokes == []
  {
  }

  /** Capitals draw as their lower-case glyph; characters outside the font draw as '?'. */
  lemma LookupExamples()
    ensures GlyphFor(GlyphKey('A')) == GlyphFor('a')
    ensures GlyphFor(GlyphKey('\U{212A}')) == GlyphFor('k')
    ensures GlyphFor(GlyphKey('@')) == GlyphFor('?')
    ensures GlyphFor(GlyphKey('\U{c9}')) == GlyphFor('\U{e9}')
  {
  }
}
