# dummare sanitiser, modelled in Dafny

`dummare` runs a program on a pseudo-terminal and rewrites its output for a
dumb or hard-copy terminal. The rewriting is done by the sanitiser in
`src/sanitiser.rs`:

- An external VT decoder turns each chunk of output into terminal operations.
  These include printing a character, moving the cursor, setting an attribute
  and ringing the bell.
- `Sanitizer` reacts to each operation. It writes the terminal's own
  capability string when the terminfo database has one.
- When the database has none, it does one of three things:
  - writes literal bytes, such as spaces for a right move;
  - emulates bold and underline by overstrike, such as `c BS c` or `_ BS c`;
  - does nothing.
- `Writer` is the `std::io::Write` front end. It feeds one decoded chunk to the
  sanitiser and reports the error latched in `err`, if any.

The model has six modules:

- `Io` (`io.dfy`):
  - bytes and the errors;
  - the output sink. `Sink` is a class whose `WriteAll` consumes one scripted
    reply per write. A reply either accepts the write, or rejects it after a
    prefix of the bytes.
- `Terminfo` (`terminfo.dfy`): the capabilities the sanitiser asks for, and
  the database as a map from capability to expansion. An expansion can fail.
- `Ansi` (`ansi.dfy`):
  - the decoder's `Attr` and the operations `Op` it hands over;
  - the UTF-8 encoding `write!("{c}")` produces.
- `Handler` (`handler.dfy`): the specification of the sanitiser, stated as
  functions of its state. For each operation:
  - `Writes` is the writes issued, in order;
  - `Effect` is the attribute flags left behind;
  - `Handle` is one callback;
  - `Feed` is one chunk;
  - `WriteChunk` is `Writer::write`.
- `Sanitiser` (`sanitiser.dfy`): the classes `Sanitizer` and `Writer`, with the
  fields, loops and in-place updates of the source. Each method is proved to
  change the state exactly as `Handle`, `Feed` or `WriteChunk` says.
- `Properties` (`properties.dfy`): what each operation does to the output
  and the flags, stated in the terms the program documents. It also has
  whole-chunk facts and a few concrete scenarios.

Output properties are stated for a sink that accepts every write (`Clean`).
On such a sink, "appends X" means the sink's data grows by exactly X.
The class methods are proved for any sink.

Three facts about the code shape the model:

- **The latched error is the outcome of the last write.**
  - Every write assigns `err` (`src/sanitiser.rs:84-86`, `100-102`,
    `135-139`, `188`), success included.
  - A later successful write therefore clears an earlier failure of the same
    chunk.
  - `Properties.SinkErrorOverwritten` shows a chunk that reports success
    although its first byte was rejected.
- **`move_down_and_cr` and `move_up_and_cr` move vertically first, then
  return the carriage** (`src/sanitiser.rs:173-181`).
- **`Writer::new` takes `(inner, terminfo)`** (`src/sanitiser.rs:24`). The
  call in `src/main.rs` that passes only one argument is not part of this
  model.

## Model

| member | source | states |
|---|---|---|
| Io.Sink.WriteAll | src/sanitiser.rs:188 | `write_all`: the sink's data grows by a prefix of the bytes, by all of them when no error is returned; an error is returned exactly when the sink rejects the write |
| Ansi.Utf8 | src/sanitiser.rs:137 | a character becomes 1 to 4 bytes; it is 1 byte, equal to the character, exactly for ASCII; a multi-byte encoding starts with a lead byte followed by continuation bytes |
| Sanitiser.Sanitizer.constructor | src/sanitiser.rs:26-31 | a new sanitiser has no latched error, no emulated attribute, and the given sink and database |
| Sanitiser.Sanitizer.Put | src/sanitiser.rs:188 | one `write_all`: the sink takes the write and `err` becomes its outcome, success included |
| Sanitiser.Sanitizer.Expand | src/sanitiser.rs:100-102 | `terminfo::expand!` into the sink: a failed expansion latches an error and writes nothing; a successful one is written like literal bytes |
| Sanitiser.Sanitizer.ExpandCap | src/sanitiser.rs:98-104 | `expand_cap!(self, cap)`: one expansion when the capability exists, otherwise no change at all |
| Sanitiser.Sanitizer.ExpandCapOrTrack | src/sanitiser.rs:105-115 | `expand_cap!(self, cap => flag value)`: the expansion when the capability exists; otherwise only that flag is set, and nothing else changes |
| Sanitiser.Sanitizer.ExpandCapRepeated | src/sanitiser.rs:116-124 | `expand_cap!(self, cap, count)`: `count` expansions one after the other when the capability exists; otherwise no change |
| Sanitiser.Sanitizer.MoveRight | src/sanitiser.rs:81-94 | `count` right-move expansions, or `count` single-space writes when the terminal has no right-move capability |
| Sanitiser.Sanitizer.Input | src/sanitiser.rs:131-141 | prints `c` as `Handle` specifies: `_ BS` first if underline is emulated, then `c`, then `BS c` if bold is emulated; the flags are unchanged |
| Sanitiser.Sanitizer.GotoCol | src/sanitiser.rs:143-148 | the carriage return, then the right move of `column` |
| Sanitiser.Sanitizer.InsertBlank | src/sanitiser.rs:150-155 | `count` writes of one space |
| Sanitiser.Sanitizer.MoveUp | src/sanitiser.rs:157-159 | repeated cursor-up capability |
| Sanitiser.Sanitizer.MoveDown | src/sanitiser.rs:161-163 | repeated cursor-down capability |
| Sanitiser.Sanitizer.MoveForward | src/sanitiser.rs:165-167 | the right move |
| Sanitiser.Sanitizer.MoveBackward | src/sanitiser.rs:169-171 | repeated cursor-left capability, with no fallback |
| Sanitiser.Sanitizer.MoveDownAndCr | src/sanitiser.rs:173-176 | the cursor-down repetitions, then the carriage return |
| Sanitiser.Sanitizer.MoveUpAndCr | src/sanitiser.rs:178-181 | the cursor-up repetitions, then the carriage return |
| Sanitiser.Sanitizer.PutTab | src/sanitiser.rs:183-185 | the tab capability, `count` times |
| Sanitiser.Sanitizer.Backspace | src/sanitiser.rs:187-189 | one write of byte 0x08 |
| Sanitiser.Sanitizer.CarriageReturn | src/sanitiser.rs:191-193 | the carriage-return capability, if any |
| Sanitiser.Sanitizer.Linefeed | src/sanitiser.rs:195-197 | one write of `\n` |
| Sanitiser.Sanitizer.Bell | src/sanitiser.rs:199-201 | the bell capability, if any |
| Sanitiser.Sanitizer.Substitute | src/sanitiser.rs:203-205 | one write of byte 0x1A |
| Sanitiser.Sanitizer.Newline | src/sanitiser.rs:207-210 | the carriage return, then the literal line feed |
| Sanitiser.Sanitizer.ScrollUp | src/sanitiser.rs:212-214 | repeated scroll-reverse capability |
| Sanitiser.Sanitizer.ScrollDown | src/sanitiser.rs:216-218 | repeated scroll-forward capability |
| Sanitiser.Sanitizer.InsertBlankLines | src/sanitiser.rs:220-225 | `rows` writes of `\n` |
| Sanitiser.Sanitizer.ResetState | src/sanitiser.rs:227-228 | changes nothing |
| Sanitiser.Sanitizer.TerminalAttribute | src/sanitiser.rs:230-282 | every `Attr` case: its capability or flag change as `Handle` specifies |
| Sanitiser.Sanitizer.Dispatch | src/sanitiser.rs:127-283 | the decoder's call of the callback for `op` changes the state exactly as `Handle` says |
| Sanitiser.Sanitizer.TakeErr | src/sanitiser.rs:43 | `err.take()`: returns the latched error and clears it; the flags are unchanged |
| Sanitiser.Writer.constructor | src/sanitiser.rs:24-34 | `Writer::new(inner, terminfo)`: a fresh sanitiser over `inner` with no error and no emulated attribute |
| Sanitiser.Writer.Write | src/sanitiser.rs:41-47 | feeds every operation of the chunk to the handler in order, then takes the latched error: `Err(e)` if one is latched, otherwise `Ok(buf.len())`; `err` is cleared either way |
| Handler.RunClean | src/sanitiser.rs:84-86 | on a sink that accepts everything, a sequence of writes appends exactly their bytes, and `err` ends as the outcome of the last write |
| Handler.RunAppend | src/sanitiser.rs:83-87 | running two runs of writes in turn is running their concatenation, so the loops compose |
| Handler.EmittedRepeat | src/sanitiser.rs:116-124 | repeating one write `n` times emits `n` copies of its bytes; a failed expansion emits nothing |
| Properties.HandleClean | src/sanitiser.rs:127-283 | any callback on an accepting sink appends its writes' bytes, sets its flags, and latches the outcome of its last write; a callback that writes nothing keeps the old error |
| Properties.InputOutput | src/sanitiser.rs:131-141 | `input(c)` appends `_ BS` before `c` when underline is emulated, and `BS c` after it when bold is emulated, otherwise exactly `c`; the flags are unchanged and no error is left |
| Properties.InputEmitted | src/sanitiser.rs:134-140 | the three writes of `input` put exactly the overstruck character on the sink |
| Properties.RightMoveEmitted | src/sanitiser.rs:81-94 | the right move emits `n` copies of the right-move expansion and no spaces, or exactly `n` spaces without the capability |
| Properties.MoveForwardOutput | src/sanitiser.rs:165-167 | `move_forward(n)` appends the right move's bytes; with the space fallback and `n > 0` no error is left |
| Properties.RepeatedCapOutput | src/sanitiser.rs:157-171 | move up, down, backward, tab and the two scrolls append `n` copies of their capability's expansion, and nothing without it |
| Properties.RepeatedCapAbsent | src/sanitiser.rs:116-124 | without its capability a repeated operation changes nothing at all, on any sink; in particular moving backward has no fallback |
| Properties.SingleCapOutput | src/sanitiser.rs:191-201 | carriage return, bell, standout and italics append their capability's expansion, and change nothing without it |
| Properties.GotoColOutput | src/sanitiser.rs:143-148 | `goto_col(n)` appends the carriage return's expansion followed by the right move |
| Properties.NewlineOutput | src/sanitiser.rs:207-210 | `newline` appends the carriage return's expansion followed by `\n`, and leaves no error |
| Properties.VerticalMoveThenCr | src/sanitiser.rs:173-181 | `move_down_and_cr(n)` and `move_up_and_cr(n)` append `n` vertical moves followed by the carriage return |
| Properties.RepeatedThenCrEmitted | src/sanitiser.rs:173-181 | the repeated vertical capability followed by the carriage return emits the copies and then the carriage return's bytes |
| Properties.FixedBytesOutput | src/sanitiser.rs:150-155 | insert-blank appends `n` spaces, insert-blank-lines `n` line feeds, backspace 0x08, linefeed 0x0A and substitute 0x1A, whatever the database holds |
| Properties.NoOpCallbacks | src/sanitiser.rs:227-228 | `reset_state` and the callbacks the sanitiser does not override change nothing |
| Properties.ResetAttributes | src/sanitiser.rs:238-242 | `Attr::Reset` appends the exit-attribute expansion if there is one, and clears both flags whether or not there is |
| Properties.EnterBold | src/sanitiser.rs:243-245 | `Attr::Bold` with the bold capability appends it and leaves the flags alone; without it, it only sets `bold` |
| Properties.EnterUnderline | src/sanitiser.rs:251-253 | `Attr::Underline`, in the same way with its own capability and flag |
| Properties.CancelBoldIgnoresDatabase | src/sanitiser.rs:246-250 | `Attr::CancelBold` writes nothing, clears only `bold`, and gives the same result with any database |
| Properties.CancelUnderlineOutput | src/sanitiser.rs:254-257 | `Attr::CancelUnderline` appends the exit-underline expansion if there is one, and always clears `underline` |
| Properties.UnsupportedIgnored | src/sanitiser.rs:264-280 | colours, the other underline styles, blink, hidden, strike, dim and their cancels change nothing |
| Properties.FeedAppend | src/sanitiser.rs:42 | feeding two runs of operations in turn is feeding their concatenation |
| Properties.FeedIsOneRun | src/sanitiser.rs:42 | a chunk is one run of writes, each operation's writes in order, computed with the flags left by the operations before it |
| Properties.WriteChunkResult | src/sanitiser.rs:41-47 | `write` leaves `err` cleared; it returns `Ok(buf.len())` exactly when no error is latched after the chunk, and otherwise that error |
| Properties.CleanChunkReportsLastWrite | src/sanitiser.rs:41-47 | on an accepting sink, a chunk appends all its writes' bytes and fails exactly when its last write is a failed expansion |
| Properties.PlainInput | src/sanitiser.rs:137 | an ASCII character with no emulated attribute is a single write of its own byte |
| Properties.SinkErrorOverwritten | src/sanitiser.rs:135-139 | a rejected write of the first of two characters is overwritten by the second write's success; the chunk reports `Ok` |
| Properties.TextWrites | src/sanitiser.rs:131-141 | printing never changes the flags, so a run of characters emits every character overstruck in the same way |
| Properties.TextOutput | src/sanitiser.rs:131-141 | a chunk of characters appends the overstruck text, keeps the flags, and leaves no error |
| Properties.AsciiText | src/sanitiser.rs:137 | plain ASCII text is emitted byte for byte |
| Properties.PlainText | src/sanitiser.rs:137 | a chunk of plain ASCII text with no emulated attribute appends exactly that text |
| Properties.FeedAround | src/sanitiser.rs:42 | a chunk that starts and ends with given operations is those callbacks around the middle of the chunk |
| Properties.BoldEmulation | src/sanitiser.rs:243-245 | without bold or exit-attribute capabilities, bold then "hi" then reset prints `h BS h i BS i` and leaves no emulated attribute |
| Properties.BoldHi | src/sanitiser.rs:138-140 | "hi" overstruck for bold is `h BS h i BS i` |
| Properties.BoldCapabilityNoOverstrike | src/sanitiser.rs:243-245 | with a bold capability and bold not emulated, `Bold` appends the capability, keeps the flags, and the text after it is printed with those flags, so without overstrike |
| Properties.UnderlineCapabilityNoMark | src/sanitiser.rs:251-253 | with an underline capability and underline not emulated, `Underline` appends the capability, keeps the flags, and the text after it gets no `_ BS` mark |
| Properties.NoEmulationWithCaps | src/sanitiser.rs:105-115 | no chunk of operations starts emulating bold or underline while the terminal has the capability for it |
| Properties.SupportedNeverEmulated | src/sanitiser.rs:131-141 | from a state without such emulation (a new sanitiser), after any chunk the text that follows has no overstrike for a supported bold and no `_ BS` for a supported underline |

## Left out

- `src/main.rs` is not part of this model. That covers the `select()` loop
  over the PTY and the terminal, child-process handling, exit codes and
  command-line parsing. They are operating-system I/O and process
  management.
- `src/raw_guard.rs` is not part of this model. It only saves and restores
  termios settings through OS calls.
- The `vte` decoder (`Processor::advance`) is not modelled. It is an
  external library, so `Writer.Write` takes both the chunk `buf` and the
  operations `ops` decoded from it.
- `vte` callbacks the sanitiser does not override use the trait's empty
  default. They appear as the single operation `Unhandled`.
- Loading the terminfo database and expanding its templates is not
  modelled. A capability's expansion is given either as bytes or as a
  failure, and the same template always behaves the same way.
- `terminfo_err_mapper` is not modelled. It only converts error types, so
  every failed expansion becomes the single error `Expansion`.
- `flush` is not modelled. It passes straight through to the sink.
- Whether the sink accepts a write comes from a script of replies in
  `Io.Sink`, because the real device is outside the program.
  - A rejected write may have put a prefix of its bytes on the device.
  - `write_all`'s internal retries are not modelled.
- `usize` counts are modelled as unbounded naturals. `put_tab` keeps its
  `u16` bound.
- The bitfield's reserved `B6` bits carry no behaviour and are not
  modelled.
- Colour payloads (`Rgb`, named and indexed colours) are carried as data
  only. The sanitiser ignores them.
