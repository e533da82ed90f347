/** The destination terminal's capability (terminfo) database, as the
    sanitiser sees it: read-only, and for each capability it knows, the result
    of expanding its template. The sanitiser only uses parameterless
    capabilities, so an expansion either yields fixed bytes or fails the same
    way every time. */
module Terminfo {
  import opened Io

  /** The capabilities the sanitiser looks up. */
  datatype Cap =
    | CarriageReturn
    | CursorRight
    | CursorLeft
    | CursorUp
    | CursorDown
    | Tab
    | Bell
    | ScrollForward
    | ScrollReverse
    | ExitAttributeMode
    | EnterStandoutMode
    | ExitStandoutMode
    | EnterBoldMode
    | EnterUnderlineMode
    | ExitUnderlineMode
    | EnterItalicsMode
    | ExitItalicsMode

  datatype Expansion = Expands(bytes: seq<byte>) | Unexpandable

  /** A capability missing from the map is one the terminal does not have. */
  type Database = map<Cap, Expansion>

  /** What reaches the terminal when `cap` is used once and its write succeeds:
      nothing if the capability is absent or does not expand. */
  function CapBytes(db: Database, cap: Cap): seq<byte>
  {
    if cap in db && db[cap].Expands? then db[cap].bytes else []
  }
}
