/** The terminal operations the VT decoder hands to the sanitiser, one per
    `vte::ansi::Handler` callback, and the SGR attributes of
    `vte::ansi::Attr`. */
module Ansi {
  import opened Io

  newtype u16 = x: int | 0 <= x < 0x1_0000

  datatype Rgb = Rgb(r: byte, g: byte, b: byte)

  datatype Color = Named(name: nat) | Spec(rgb: Rgb) | Indexed(index: byte)

  datatype Attr =
    | Reset
    | Bold
    | Dim
    | Italic
    | Underline
    | DoubleUnderline
    | Undercurl
    | DottedUnderline
    | DashedUnderline
    | BlinkSlow
    | BlinkFast
    | Reverse
    | Hidden
    | Strike
    | CancelBold
    | CancelBoldDim
    | CancelItalic
    | CancelUnderline
    | CancelBlink
    | CancelReverse
    | CancelHidden
    | CancelStrike
    | Foreground(fg: Color)
    | Background(bg: Color)
    | UnderlineColor(color: Option<Color>)

  /** Counts are `usize` in the handler; `PutTab` alone takes a `u16`.
      `Unhandled` stands for every callback the sanitiser leaves at the trait's
      default, which does nothing. */
  datatype Op =
    | Input(c: char)
    | GotoCol(column: nat)
    | InsertBlank(count: nat)
    | MoveUp(rows: nat)
    | MoveDown(rows: nat)
    | MoveForward(cols: nat)
    | MoveBackward(cols: nat)
    | MoveDownAndCr(rows: nat)
    | MoveUpAndCr(rows: nat)
    | PutTab(tabs: u16)
    | Backspace
    | CarriageReturn
    | Linefeed
    | Bell
    | Substitute
    | Newline
    | ScrollUp(rows: nat)
    | ScrollDown(rows: nat)
    | InsertBlankLines(rows: nat)
    | ResetState
    | TerminalAttribute(attr: Attr)
    | Unhandled

  /** The UTF-8 encoding of `c`, which is what `write!(w, "{c}")` emits. */
  function Utf8(c: char): (r: seq<byte>)
    ensures 1 <= |r| <= 4
    ensures |r| == 1 <==> c as int < 0x80
    ensures |r| == 1 ==> r[0] as int == c as int
    ensures forall i :: 1 <= i < |r| ==> 0x80 <= r[i] < 0xC0
    ensures |r| > 1 ==> r[0] >= 0xC0
  {
    var n := c as int;
    if n < 0x80 then [n as byte]
    else if n < 0x800 then [(0xC0 + n / 0x40) as byte, (0x80 + n % 0x40) as byte]
    else if n < 0x1_0000 then
      [(0xE0 + n / 0x1000) as byte, (0x80 + n / 0x40 % 0x40) as byte, (0x80 + n % 0x40) as byte]
    else
      [(0xF0 + n / 0x4_0000) as byte, (0x80 + n / 0x1000 % 0x40) as byte,
       (0x80 + n / 0x40 % 0x40) as byte, (0x80 + n % 0x40) as byte]
  }
}
