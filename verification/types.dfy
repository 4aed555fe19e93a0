/** Shared vocabulary of the browser: terminal styles, the spans and lines the
    content pane draws, the annotations html2text attaches to text, links, modes
    and key codes. */
module Types {

  datatype Option<+T> = None | Some(value: T)

  /** Unsigned 16-bit integer: the type of the scroll offset. */
  newtype u16 = x: int | 0 <= x < 0x1_0000

  /** One luminance sample. */
  newtype byte = x: int | 0 <= x < 0x100

  const U16_MAX: u16 := 0xFFFF

  /** The terminal colours of the drawing library. */
  datatype Color =
    | Reset | Black | Red | Green | Yellow | Blue | Magenta | Cyan | Gray
    | DarkGray | LightRed | LightGreen | LightYellow | LightBlue | LightMagenta
    | LightCyan | White | Rgb(r: byte, g: byte, b: byte) | Indexed(i: byte)

  datatype Modifier =
    | Bold | Dim | Italic | Underlined | SlowBlink | RapidBlink | Reversed
    | Hidden | CrossedOut

  /** A style: optional foreground and background colours and the set of
      modifiers it adds. The default style sets nothing. */
  datatype Style = Style(fg: Option<Color>, bg: Option<Color>, mods: set<Modifier>)

  const DefaultStyle := Style(None, None, {})

  function WithFg(s: Style, c: Color): Style { s.(fg := Some(c)) }
  function WithBg(s: Style, c: Color): Style { s.(bg := Some(c)) }
  function AddModifier(s: Style, m: Modifier): Style { s.(mods := s.mods + {m}) }

  /** A run of text drawn in one style. */
  datatype Span = Span(content: string, style: Style)

  /** One drawn row: its spans from left to right. */
  type Line = seq<Span>

  datatype Mode = Normal | Command

  datatype LinkType = Web | Image

  datatype LinkData = LinkData(url: string, linkType: LinkType)

  const LINK_COLOR_WEB: Color := Blue
  const LINK_COLOR_IMG: Color := Magenta

  /** The annotations html2text attaches to a piece of text. */
  datatype RichAnnotation =
    | Default
    | Link(target: string)
    | Image(src: string)
    | Emphasis
    | Strong
    | Strikeout
    | Code
    | Preformat(continuation: bool)

  /** A piece of rendered text with its annotations. */
  datatype TaggedString = TaggedString(s: string, tag: seq<RichAnnotation>)

  /** One line of html2text's rich output. */
  type RichLine = seq<TaggedString>

  /** Key codes the event loop distinguishes; every other key is `OtherKey`. */
  datatype Key = Char(c: char) | Tab | Enter | Esc | Backspace | OtherKey

  /** Whether `p` is a prefix of `s` (Rust's `starts_with`). */
  predicate StartsWith(s: string, p: string) {
    |p| <= |s| && s[..|p|] == p
  }
}
