/** What the sanitiser promises, stated over `Handler.Handle` and
    `Handler.Feed` (which the class methods are proved to follow). Output
    properties are stated for a sink that accepts every write (`Clean`); on
    such a sink "the output gains X" means the sink's data is extended by
    exactly X. */
module Properties {
  import opened Io
  import opened Terminfo
  import opened Ansi
  import opened Handler

  ghost predicate Appends(st: State, st': State, bytes: seq<byte>)
  {
    Clean(st'.sink) && st'.sink.data == st.sink.data + bytes
  }

  /** Any handler call on an accepting sink appends the bytes of its writes,
      sets the flags its operation calls for, and latches the outcome of its
      last write (or keeps the old error if it writes nothing). */
  lemma HandleClean(db: Database, st: State, op: Op)
    requires Clean(st.sink)
    ensures var st' := Handle(db, st, op);
      var w := Writes(db, st.attrs, op);
      && Appends(st, st', Emitted(w))
      && st'.attrs == Effect(db, st.attrs, op)
      && st'.err == if w == [] then st.err else Outcome(w[|w| - 1])
  {
    RunClean(st, Writes(db, st.attrs, op));
  }

  // ---- Printing a character ----

  /** A character as a hard-copy terminal gets it: `_` and a backspace first if
      underline is emulated, then the character, then a backspace and the
      character again if bold is emulated. */
  function Overstruck(a: Attributes, c: char): seq<byte>
  {
    (if a.underline then [UNDERSCORE, BACKSPACE] else [])
    + Utf8(c)
    + (if a.bold then [BACKSPACE] + Utf8(c) else [])
  }

  lemma InputEmitted(a: Attributes, c: char)
    ensures Emitted(InputWrites(a, c)) == Overstruck(a, c)
  {
    var under := Write([UNDERSCORE, BACKSPACE]);
    var glyph := Write(Utf8(c));
    var over := Write([BACKSPACE] + Utf8(c));
    var u: seq<Step> := if a.underline then [under] else [];
    var b: seq<Step> := if a.bold then [over] else [];
    assert Emitted(u) == if a.underline then [UNDERSCORE, BACKSPACE] else [] by {
      if a.underline { EmittedOne(under); }
    }
    assert Emitted(b) == if a.bold then [BACKSPACE] + Utf8(c) else [] by {
      if a.bold { EmittedOne(over); }
    }
    EmittedOne(glyph);
    EmittedAppend(u, [glyph]);
    EmittedAppend(u + [glyph], b);
  }

  lemma InputOutput(db: Database, st: State, c: char)
    requires Clean(st.sink)
    ensures var st' := Handle(db, st, Input(c));
      Appends(st, st', Overstruck(st.attrs, c)) && st'.attrs == st.attrs && st'.err == None
  {
    InputEmitted(st.attrs, c);
    HandleClean(db, st, Input(c));
  }

  // ---- Moving right: the capability, or spaces ----

  function RightMoveBytes(db: Database, n: nat): seq<byte>
  {
    if CursorRight in db then Copies(CapBytes(db, CursorRight), n) else Copies([SPACE], n)
  }

  lemma RightMoveEmitted(db: Database, n: nat)
    ensures Emitted(RightMoveWrites(db, n)) == RightMoveBytes(db, n)
  {
    if CursorRight in db {
      EmittedRepeat(ExpandStep(db[CursorRight]), n);
    } else {
      EmittedRepeat(Write([SPACE]), n);
    }
  }

  /** `move_forward(n)`: n right-moves, or exactly n spaces without the capability. */
  lemma MoveForwardOutput(db: Database, st: State, n: nat)
    requires Clean(st.sink)
    ensures var st' := Handle(db, st, MoveForward(n));
      && Appends(st, st', RightMoveBytes(db, n))
      && st'.attrs == st.attrs
      && (CursorRight !in db && n > 0 ==> st'.err == None)
  {
    RightMoveEmitted(db, n);
    HandleClean(db, st, MoveForward(n));
  }

  // ---- Operations that repeat one capability or do nothing ----

  predicate IsRepeatedCapOp(op: Op)
  {
    op.MoveUp? || op.MoveDown? || op.MoveBackward? || op.PutTab? || op.ScrollUp? || op.ScrollDown?
  }

  /** The capability each repeated operation uses, and how many times. */
  function RepeatedCapOf(op: Op): (Cap, nat)
    requires IsRepeatedCapOp(op)
  {
    if op.MoveUp? then (CursorUp, op.rows)
    else if op.MoveDown? then (CursorDown, op.rows)
    else if op.MoveBackward? then (CursorLeft, op.cols)
    else if op.PutTab? then (Tab, op.tabs as nat)
    else if op.ScrollUp? then (ScrollReverse, op.rows)
    else (ScrollForward, op.rows)
  }

  lemma RepeatedCapOutput(db: Database, st: State, op: Op)
    requires Clean(st.sink) && IsRepeatedCapOp(op)
    ensures var st' := Handle(db, st, op);
      var (cap, n) := RepeatedCapOf(op);
      Appends(st, st', Copies(CapBytes(db, cap), n)) && st'.attrs == st.attrs
  {
    var (cap, n) := RepeatedCapOf(op);
    if cap in db {
      EmittedRepeat(ExpandStep(db[cap]), n);
    }
    HandleClean(db, st, op);
  }

  /** Without its capability a repeated operation changes nothing at all, on any
      sink: in particular moving backward has no space-like fallback. */
  lemma RepeatedCapAbsent(db: Database, st: State, op: Op)
    requires IsRepeatedCapOp(op) && RepeatedCapOf(op).0 !in db
    ensures Handle(db, st, op) == st
  {
  }

  /** Operations that use one capability once (or nothing without it). */
  predicate IsSingleCapOp(op: Op)
  {
    || op.CarriageReturn? || op.Bell?
    || (op.TerminalAttribute? && op.attr in {Reverse, CancelReverse, Italic, CancelItalic})
  }

  function SingleCapOf(op: Op): Cap
    requires IsSingleCapOp(op)
  {
    if op.CarriageReturn? then Cap.CarriageReturn
    else if op.Bell? then Cap.Bell
    else if op.attr == Reverse then EnterStandoutMode
    else if op.attr == CancelReverse then ExitStandoutMode
    else if op.attr == Italic then EnterItalicsMode
    else ExitItalicsMode
  }

  /** Carriage return, bell, standout and italics pass the capability through
      and are never emulated: without the capability they change nothing. */
  lemma SingleCapOutput(db: Database, st: State, op: Op)
    requires IsSingleCapOp(op)
    ensures SingleCapOf(op) !in db ==> Handle(db, st, op) == st
    ensures Clean(st.sink) ==>
      var st' := Handle(db, st, op);
      Appends(st, st', CapBytes(db, SingleCapOf(op))) && st'.attrs == st.attrs
  {
    if Clean(st.sink) {
      EmittedCap(db, SingleCapOf(op));
      HandleClean(db, st, op);
    }
  }

  // ---- Carriage return combined with another movement ----

  /** `goto_col(n)`: the carriage return first, then the right-move. */
  lemma GotoColOutput(db: Database, st: State, n: nat)
    requires Clean(st.sink)
    ensures var st' := Handle(db, st, GotoCol(n));
      Appends(st, st', CapBytes(db, Cap.CarriageReturn) + RightMoveBytes(db, n)) && st'.attrs == st.attrs
  {
    EmittedAppend(CapWrites(db, Cap.CarriageReturn), RightMoveWrites(db, n));
    RightMoveEmitted(db, n);
    HandleClean(db, st, GotoCol(n));
  }

  /** `newline`: the carriage return if any, then a literal line feed. */
  lemma NewlineOutput(db: Database, st: State)
    requires Clean(st.sink)
    ensures var st' := Handle(db, st, Newline);
      Appends(st, st', CapBytes(db, Cap.CarriageReturn) + [LINEFEED])
      && st'.attrs == st.attrs && st'.err == None
  {
    var cr := CapWrites(db, Cap.CarriageReturn);
    var w := Writes(db, st.attrs, Newline);
    assert w == cr + [Write([LINEFEED])];
    assert Emitted(w) == CapBytes(db, Cap.CarriageReturn) + [LINEFEED] by {
      EmittedAppend(cr, [Write([LINEFEED])]);
      EmittedOne(Write([LINEFEED]));
      EmittedCap(db, Cap.CarriageReturn);
    }
    assert w[|w| - 1] == Write([LINEFEED]);
    HandleClean(db, st, Newline);
  }

  /** A repeated capability followed by the carriage return emits the copies,
      then the carriage return's bytes. */
  lemma RepeatedThenCrEmitted(db: Database, cap: Cap, n: nat)
    ensures Emitted(RepeatedCapWrites(db, cap, n) + CapWrites(db, Cap.CarriageReturn))
      == Copies(CapBytes(db, cap), n) + CapBytes(db, Cap.CarriageReturn)
  {
    EmittedAppend(RepeatedCapWrites(db, cap, n), CapWrites(db, Cap.CarriageReturn));
    EmittedCap(db, Cap.CarriageReturn);
    if cap in db {
      EmittedRepeat(ExpandStep(db[cap]), n);
    }
  }

  /** `move_down_and_cr(n)` and `move_up_and_cr(n)`: the vertical move first,
      the carriage return after it. */
  lemma VerticalMoveThenCr(db: Database, st: State, op: Op)
    requires Clean(st.sink) && (op.MoveDownAndCr? || op.MoveUpAndCr?)
    ensures var st' := Handle(db, st, op);
      var vertical := if op.MoveDownAndCr? then CursorDown else CursorUp;
      && Appends(st, st', Copies(CapBytes(db, vertical), op.rows) + CapBytes(db, Cap.CarriageReturn))
      && st'.attrs == st.attrs
  {
    var vertical := if op.MoveDownAndCr? then CursorDown else CursorUp;
    assert Writes(db, st.attrs, op) == RepeatedCapWrites(db, vertical, op.rows) + CapWrites(db, Cap.CarriageReturn);
    RepeatedThenCrEmitted(db, vertical, op.rows);
    HandleClean(db, st, op);
  }

  // ---- Literal bytes ----

  predicate IsFixedBytesOp(op: Op)
  {
    op.InsertBlank? || op.InsertBlankLines? || op.Backspace? || op.Linefeed? || op.Substitute?
  }

  function FixedBytesOf(op: Op): seq<byte>
    requires IsFixedBytesOp(op)
  {
    if op.InsertBlank? then Copies([SPACE], op.count)
    else if op.InsertBlankLines? then Copies([LINEFEED], op.rows)
    else if op.Backspace? then [BACKSPACE]
    else if op.Linefeed? then [LINEFEED]
    else [SUBSTITUTE]
  }

  /** These write the same literal bytes whatever the terminal can do. */
  lemma FixedBytesOutput(db: Database, st: State, op: Op)
    requires Clean(st.sink) && IsFixedBytesOp(op)
    ensures var st' := Handle(db, st, op);
      && Appends(st, st', FixedBytesOf(op))
      && st'.attrs == st.attrs
      && st'.err == if FixedBytesOf(op) == [] then st.err else None
  {
    if op.InsertBlank? {
      EmittedRepeat(Write([SPACE]), op.count);
    } else if op.InsertBlankLines? {
      EmittedRepeat(Write([LINEFEED]), op.rows);
    } else {
      assert Emitted(Writes(db, st.attrs, op)) == FixedBytesOf(op);
    }
    HandleClean(db, st, op);
  }

  /** `reset_state` and the callbacks left at the trait's default do nothing. */
  lemma NoOpCallbacks(db: Database, st: State)
    ensures Handle(db, st, ResetState) == st
    ensures Handle(db, st, Unhandled) == st
  {
  }

  // ---- Attributes ----

  /** `Attr::Reset`: the exit-attribute capability if any, and both flags
      cleared whether or not it exists. */
  lemma ResetAttributes(db: Database, st: State)
    ensures Handle(db, st, TerminalAttribute(Reset)).attrs == NoAttributes
    ensures ExitAttributeMode !in db ==> Handle(db, st, TerminalAttribute(Reset)) == st.(attrs := NoAttributes)
    ensures Clean(st.sink) ==> Appends(st, Handle(db, st, TerminalAttribute(Reset)), CapBytes(db, ExitAttributeMode))
  {
    if Clean(st.sink) {
      EmittedCap(db, ExitAttributeMode);
      HandleClean(db, st, TerminalAttribute(Reset));
    }
  }

  /** `Attr::Bold`: the capability when the terminal has it, with the flag
      untouched; otherwise only the flag is set, and nothing is written. */
  lemma EnterBold(db: Database, st: State)
    ensures EnterBoldMode !in db ==> Handle(db, st, TerminalAttribute(Bold)) == st.(attrs := st.attrs.(bold := true))
    ensures EnterBoldMode in db && Clean(st.sink) ==>
      var st' := Handle(db, st, TerminalAttribute(Bold));
      Appends(st, st', CapBytes(db, EnterBoldMode)) && st'.attrs == st.attrs
  {
    if EnterBoldMode in db && Clean(st.sink) {
      EmittedCap(db, EnterBoldMode);
      HandleClean(db, st, TerminalAttribute(Bold));
    }
  }

  /** `Attr::Underline`, the same way with its own capability and flag. */
  lemma EnterUnderline(db: Database, st: State)
    ensures EnterUnderlineMode !in db ==>
      Handle(db, st, TerminalAttribute(Underline)) == st.(attrs := st.attrs.(underline := true))
    ensures EnterUnderlineMode in db && Clean(st.sink) ==>
      var st' := Handle(db, st, TerminalAttribute(Underline));
      Appends(st, st', CapBytes(db, EnterUnderlineMode)) && st'.attrs == st.attrs
  {
    if EnterUnderlineMode in db && Clean(st.sink) {
      EmittedCap(db, EnterUnderlineMode);
      HandleClean(db, st, TerminalAttribute(Underline));
    }
  }

  /** `Attr::CancelBold` writes nothing and clears only the bold flag; it does
      not depend on the database at all. */
  lemma CancelBoldIgnoresDatabase(db: Database, other: Database, st: State)
    ensures Handle(db, st, TerminalAttribute(CancelBold)) == st.(attrs := st.attrs.(bold := false))
    ensures Handle(db, st, TerminalAttribute(CancelBold)) == Handle(other, st, TerminalAttribute(CancelBold))
  {
  }

  /** `Attr::CancelUnderline` tries its capability and clears the flag either way. */
  lemma CancelUnderlineOutput(db: Database, st: State)
    ensures Handle(db, st, TerminalAttribute(CancelUnderline)).attrs == st.attrs.(underline := false)
    ensures Clean(st.sink) ==>
      Appends(st, Handle(db, st, TerminalAttribute(CancelUnderline)), CapBytes(db, ExitUnderlineMode))
  {
    var op := TerminalAttribute(CancelUnderline);
    assert Writes(db, st.attrs, op) == CapWrites(db, ExitUnderlineMode);
    assert Effect(db, st.attrs, op) == st.attrs.(underline := false);
    if Clean(st.sink) {
      EmittedCap(db, ExitUnderlineMode);
      HandleClean(db, st, op);
    }
  }

  predicate Unsupported(attr: Attr)
  {
    || attr.Foreground? || attr.Background? || attr.UnderlineColor?
    || attr in {DoubleUnderline, Undercurl, DottedUnderline, DashedUnderline, BlinkSlow, BlinkFast,
                Hidden, Strike, Dim, CancelBoldDim, CancelBlink, CancelHidden, CancelStrike}
  }

  /** Colours, other underline styles, blinking, hidden, strike-through and dim
      (and their cancels): no output, no flag change, no latched error. */
  lemma UnsupportedIgnored(db: Database, st: State, attr: Attr)
    requires Unsupported(attr)
    ensures Handle(db, st, TerminalAttribute(attr)) == st
  {
  }

  // ---- Whole chunks ----

  lemma {:induction false} FeedAppend(db: Database, st: State, a: seq<Op>, b: seq<Op>)
    ensures Feed(db, st, a + b) == Feed(db, Feed(db, st, a), b)
    decreases |b|
  {
    if b == [] {
      assert a + b == a;
    } else {
      assert (a + b)[..|a + b| - 1] == a + b[..|b| - 1];
      FeedAppend(db, st, a, b[..|b| - 1]);
    }
  }

  lemma FeedOne(db: Database, st: State, op: Op)
    ensures Feed(db, st, [op]) == Handle(db, st, op)
  {
    assert [op][..0] == [];
  }

  /** The flags after a chunk, and every write the chunk issues, in order. */
  function ChunkAttrs(db: Database, a: Attributes, ops: seq<Op>): Attributes
    decreases |ops|
  {
    if ops == [] then a
    else Effect(db, ChunkAttrs(db, a, ops[..|ops| - 1]), ops[|ops| - 1])
  }

  function ChunkWrites(db: Database, a: Attributes, ops: seq<Op>): seq<Step>
    decreases |ops|
  {
    if ops == [] then []
    else
      var init := ops[..|ops| - 1];
      ChunkWrites(db, a, init) + Writes(db, ChunkAttrs(db, a, init), ops[|ops| - 1])
  }

  /** A chunk is one run of writes: the flags steer which writes happen, and
      the writes never steer the flags. */
  lemma {:induction false} FeedIsOneRun(db: Database, st: State, ops: seq<Op>)
    ensures Feed(db, st, ops) == Run(st, ChunkWrites(db, st.attrs, ops)).(attrs := ChunkAttrs(db, st.attrs, ops))
    decreases |ops|
  {
    if ops != [] {
      var init := ops[..|ops| - 1];
      FeedIsOneRun(db, st, init);
      var w := ChunkWrites(db, st.attrs, init);
      var a := ChunkAttrs(db, st.attrs, init);
      RunIgnoresAttrs(Run(st, w), a, Writes(db, a, ops[|ops| - 1]));
      RunAppend(st, ChunkWrites(db, st.attrs, init), Writes(db, ChunkAttrs(db, st.attrs, init), ops[|ops| - 1]));
    }
  }

  /** `Writer::write` always leaves `err` cleared, and reports the whole buffer
      as written exactly when no error is latched at the end of the chunk. */
  lemma WriteChunkResult(db: Database, st: State, buf: seq<byte>, ops: seq<Op>)
    ensures var (st', r) := WriteChunk(db, st, buf, ops);
      && st'.err == None
      && st' == Feed(db, st, ops).(err := None)
      && (r == Ok(|buf|) <==> Feed(db, st, ops).err == None)
      && (r.Err? <==> Feed(db, st, ops).err.Some?)
      && (r.Err? ==> r.error == Feed(db, st, ops).err.value)
  {
  }

  /** On an accepting sink, a chunk's error is that of its LAST write only: a
      failed expansion earlier in the chunk is overwritten by the writes after
      it and never reported. */
  lemma {:induction false} CleanChunkReportsLastWrite(db: Database, st: State, buf: seq<byte>, ops: seq<Op>)
    requires Clean(st.sink) && st.err == None
    ensures var (st', r) := WriteChunk(db, st, buf, ops);
      var w := ChunkWrites(db, st.attrs, ops);
      && Appends(st, st', Emitted(w))
      && r == if w != [] && w[|w| - 1] == ExpandFailure then Err(Expansion) else Ok(|buf|)
  {
    FeedIsOneRun(db, st, ops);
    RunClean(st, ChunkWrites(db, st.attrs, ops));
  }

  /** An ASCII character printed without emulated attributes is one write
      of its own byte. */
  lemma PlainInput(db: Database, st: State, c: char)
    requires st.attrs == NoAttributes && c as int < 0x80
    ensures Handle(db, st, Input(c)) == Perform(st, Write([c as int as byte]))
  {
    assert InputWrites(NoAttributes, c) == [Write([c as int as byte])];
    RunSnoc(st, [], Write([c as int as byte]));
  }

  lemma FeedTwo(db: Database, st: State, first: Op, second: Op)
    ensures Feed(db, st, [first, second]) == Handle(db, Handle(db, st, first), second)
  {
    assert [first, second][..1] == [first];
    FeedOne(db, st, first);
  }

  /** A sink failure on the first of two plain characters is lost: the write
      of the second succeeds, overwrites the latched error, and the chunk
      reports success although the first byte never arrived. */
  lemma SinkErrorOverwritten(db: Database, data: seq<byte>, e: IoError, c1: char, c2: char, buf: seq<byte>)
    requires c1 as int < 0x80 && c2 as int < 0x80
    ensures var st := State(NoAttributes, SinkState(data, [Reject(0, e)]), None);
      WriteChunk(db, st, buf, [Input(c1), Input(c2)])
        == (State(NoAttributes, SinkState(data + [c2 as int as byte], []), None), Ok(|buf| as nat))
  {
    var st := State(NoAttributes, SinkState(data, [Reject(0, e)]), None);
    var mid := State(NoAttributes, SinkState(data, []), Some(e));
    FeedTwo(db, st, Input(c1), Input(c2));
    PlainInput(db, st, c1);
    assert data + [c1 as int as byte][..0] == data;
    PlainInput(db, mid, c2);
  }

  // ---- Text ----

  function Inputs(cs: seq<char>): (ops: seq<Op>)
    ensures |ops| == |cs|
    ensures forall i :: 0 <= i < |cs| ==> ops[i] == Input(cs[i])
  {
    seq(|cs|, i requires 0 <= i < |cs| => Input(cs[i]))
  }

  /** A run of characters printed with the flags `a`, character by character. */
  function Text(a: Attributes, cs: seq<char>): seq<byte>
    decreases |cs|
  {
    if cs == [] then [] else Text(a, cs[..|cs| - 1]) + Overstruck(a, cs[|cs| - 1])
  }

  /** A run of characters leaves the flags as they were, emits exactly
      `Text(a, cs)`, and ends with a write (so it leaves no error behind). */
  lemma {:induction false} TextWrites(db: Database, a: Attributes, cs: seq<char>)
    ensures ChunkAttrs(db, a, Inputs(cs)) == a
    ensures Emitted(ChunkWrites(db, a, Inputs(cs))) == Text(a, cs)
    ensures cs != [] ==> var w := ChunkWrites(db, a, Inputs(cs)); w != [] && w[|w| - 1].Write?
    decreases |cs|
  {
    if cs != [] {
      var init, c := cs[..|cs| - 1], cs[|cs| - 1];
      var ops := Inputs(cs);
      assert ops[..|ops| - 1] == Inputs(init);
      TextWrites(db, a, init);
      EmittedAppend(ChunkWrites(db, a, Inputs(init)), InputWrites(a, c));
      InputEmitted(a, c);
    }
  }

  /** Printing never changes the flags, so every character of a run gets the
      same treatment: with bold emulated each is followed by a backspace and
      itself, with underline emulated each is preceded by `_` and a backspace,
      and plain text passes through unchanged. */
  lemma TextOutput(db: Database, st: State, cs: seq<char>)
    requires Clean(st.sink)
    ensures var st' := Feed(db, st, Inputs(cs));
      && Appends(st, st', Text(st.attrs, cs))
      && st'.attrs == st.attrs
      && (cs != [] ==> st'.err == None)
  {
    FeedIsOneRun(db, st, Inputs(cs));
    TextWrites(db, st.attrs, cs);
    RunClean(st, ChunkWrites(db, st.attrs, Inputs(cs)));
  }

  /** Plain ASCII text goes through byte for byte ("hello" prints as "hello"). */
  lemma {:induction false} AsciiText(cs: seq<char>)
    requires forall i :: 0 <= i < |cs| ==> cs[i] as int < 0x80
    ensures |Text(NoAttributes, cs)| == |cs|
    ensures forall i :: 0 <= i < |cs| ==> Text(NoAttributes, cs)[i] as int == cs[i] as int
    decreases |cs|
  {
    if cs != [] {
      AsciiText(cs[..|cs| - 1]);
    }
  }

  lemma PlainText(db: Database, st: State, cs: seq<char>)
    requires Clean(st.sink) && st.attrs == NoAttributes
    requires forall i :: 0 <= i < |cs| ==> cs[i] as int < 0x80
    ensures var data := Feed(db, st, Inputs(cs)).sink.data;
      && |data| == |st.sink.data| + |cs|
      && data[..|st.sink.data|] == st.sink.data
      && forall i :: 0 <= i < |cs| ==> data[|st.sink.data| + i] as int == cs[i] as int
  {
    TextOutput(db, st, cs);
    AsciiText(cs);
  }

  /** A chunk that starts and ends with given operations. */
  lemma FeedAround(db: Database, st: State, first: Op, ops: seq<Op>, last: Op)
    ensures Feed(db, st, [first] + ops + [last]) == Handle(db, Feed(db, Handle(db, st, first), ops), last)
  {
    FeedAppend(db, st, [first] + ops, [last]);
    FeedAppend(db, st, [first], ops);
    FeedOne(db, st, first);
    FeedOne(db, Feed(db, st, [first] + ops), last);
  }

  /** Bold on, "hi", attributes reset, on a terminal with neither the bold nor
      the exit-attribute capability: "h BS h i BS i", nothing after it, and
      no emulated attribute left. */
  lemma BoldEmulation(db: Database, sink: SinkState)
    requires Clean(sink) && EnterBoldMode !in db && ExitAttributeMode !in db
    ensures var st1 := Handle(db, State(NoAttributes, sink, None), TerminalAttribute(Bold));
      var st2 := Feed(db, st1, Inputs("hi"));
      var st3 := Handle(db, st2, TerminalAttribute(Reset));
      st3.sink.data == sink.data + [0x68, BACKSPACE, 0x68, 0x69, BACKSPACE, 0x69]
      && st3.attrs == NoAttributes
  {
    var st := State(NoAttributes, sink, None);
    EnterBold(db, st);
    var st1 := Handle(db, st, TerminalAttribute(Bold));
    TextOutput(db, st1, "hi");
    BoldHi();
    ResetAttributes(db, Feed(db, st1, Inputs("hi")));
  }

  lemma BoldHi()
    ensures Text(Attributes(true, false), "hi") == [0x68, BACKSPACE, 0x68, 0x69, BACKSPACE, 0x69]
  {
    assert "hi"[..1] == "h" && "h"[..0] == [];
    assert Utf8('h') == [0x68] && Utf8('i') == [0x69];
  }

  /** With a bold capability, bold is the terminal's business: `Bold` writes
      the capability, and the text after it is printed with the flags it had
      before, so with no bold emulated it is not overstruck. */
  lemma BoldCapabilityNoOverstrike(db: Database, st: State, cs: seq<char>)
    requires Clean(st.sink) && EnterBoldMode in db && !st.attrs.bold
    ensures var st1 := Handle(db, st, TerminalAttribute(Bold));
      && Appends(st, st1, CapBytes(db, EnterBoldMode))
      && st1.attrs == st.attrs
      && Appends(st1, Feed(db, st1, Inputs(cs)), Text(st.attrs, cs))
  {
    EnterBold(db, st);
    TextOutput(db, Handle(db, st, TerminalAttribute(Bold)), cs);
  }

  /** The same for underline: with the capability, `Underline` writes it and
      no `_ BS` mark is added to the text after it. */
  lemma UnderlineCapabilityNoMark(db: Database, st: State, cs: seq<char>)
    requires Clean(st.sink) && EnterUnderlineMode in db && !st.attrs.underline
    ensures var st1 := Handle(db, st, TerminalAttribute(Underline));
      && Appends(st, st1, CapBytes(db, EnterUnderlineMode))
      && st1.attrs == st.attrs
      && Appends(st1, Feed(db, st1, Inputs(cs)), Text(st.attrs, cs))
  {
    EnterUnderline(db, st);
    TextOutput(db, Handle(db, st, TerminalAttribute(Underline)), cs);
  }

  /** Neither attribute is emulated while the terminal has a capability for it. */
  predicate NoRedundantEmulation(db: Database, a: Attributes)
  {
    (EnterBoldMode in db ==> !a.bold) && (EnterUnderlineMode in db ==> !a.underline)
  }

  /** No operation starts emulating an attribute the terminal supports: only a
      missing capability sets a flag. */
  lemma {:induction false} NoEmulationWithCaps(db: Database, a: Attributes, ops: seq<Op>)
    requires NoRedundantEmulation(db, a)
    ensures NoRedundantEmulation(db, ChunkAttrs(db, a, ops))
    decreases |ops|
  {
    if ops != [] {
      NoEmulationWithCaps(db, a, ops[..|ops| - 1]);
    }
  }

  /** From a fresh sanitiser (or any state without redundant emulation), after
      any chunk the text that follows carries no overstrike for bold and no
      `_ BS` mark for underline when the terminal has the capability. */
  lemma SupportedNeverEmulated(db: Database, st: State, ops: seq<Op>, cs: seq<char>)
    requires Clean(st.sink) && NoRedundantEmulation(db, st.attrs)
    ensures var st1 := Feed(db, st, ops);
      && NoRedundantEmulation(db, st1.attrs)
      && Appends(st1, Feed(db, st1, Inputs(cs)), Text(st1.attrs, cs))
  {
    FeedIsOneRun(db, st, ops);
    RunClean(st, ChunkWrites(db, st.attrs, ops));
    NoEmulationWithCaps(db, st.attrs, ops);
    TextOutput(db, Feed(db, st, ops), cs);
  }
}
