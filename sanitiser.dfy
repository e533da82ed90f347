/** The sanitiser itself: `Sanitizer`, the `vte::ansi::Handler` that rewrites
    each decoded operation for a dumb or hard-copy terminal, and `Writer`, the
    `std::io::Write` wrapper that feeds it one chunk at a time. Every method is
    proved to change the state exactly as `Handler.Handle` says. */
module Sanitiser {
  import opened Io
  import opened Terminfo
  import opened Ansi
  import opened Handler

  class Sanitizer {
    var err: Option<IoError>
    const terminfo: Database
    const writer: Sink
    var attributes: Attributes

    function Snapshot(): State
      reads this, writer
    {
      State(attributes, writer.State(), err)
    }

    constructor (writer: Sink, terminfo: Database)
      ensures this.writer == writer && this.terminfo == terminfo
      ensures Snapshot() == State(NoAttributes, writer.State(), None)
    {
      this.err := None;
      this.terminfo := terminfo;
      this.writer := writer;
      this.attributes := NoAttributes;
    }

    /** `self.err = self.writer.write_all(b).err()` */
    method Put(b: seq<byte>)
      modifies this, writer
      ensures Snapshot() == Perform(old(Snapshot()), Write(b))
    {
      err := writer.WriteAll(b);
    }

    /** `self.err = terminfo::expand!(&mut self.writer, …).map_err(terminfo_err_mapper).err()` */
    method Expand(x: Expansion)
      modifies this, writer
      ensures Snapshot() == Perform(old(Snapshot()), ExpandStep(x))
    {
      match x
      case Expands(b) => Put(b);
      case Unexpandable => err := Some(Expansion);
    }

    /** `expand_cap!(self, cap)` */
    method ExpandCap(cap: Cap)
      modifies this, writer
      ensures Snapshot() == Run(old(Snapshot()), CapWrites(terminfo, cap))
    {
      if cap in terminfo {
        Expand(terminfo[cap]);
        RunSnoc(old(Snapshot()), [], ExpandStep(terminfo[cap]));
      }
    }

    /** `expand_cap!(self, cap => tracker value)`: when the capability is
        missing, remember to emulate the attribute instead. */
    method ExpandCapOrTrack(cap: Cap, tracker: Tracker, value: bool)
      modifies this, writer
      ensures Snapshot() ==
        if cap in terminfo then Run(old(Snapshot()), CapWrites(terminfo, cap))
        else old(Snapshot()).(attrs := Track(old(attributes), tracker, value))
    {
      if cap in terminfo {
        Expand(terminfo[cap]);
        RunSnoc(old(Snapshot()), [], ExpandStep(terminfo[cap]));
      } else {
        attributes := Track(attributes, tracker, value);
      }
    }

    /** `expand_cap!(self, cap, count)` */
    method ExpandCapRepeated(cap: Cap, count: nat)
      modifies this, writer
      ensures Snapshot() == Run(old(Snapshot()), RepeatedCapWrites(terminfo, cap, count))
    {
      if cap in terminfo {
        var x := terminfo[cap];
        for i := 0 to count
          invariant Snapshot() == Run(old(Snapshot()), Repeat(ExpandStep(x), i))
        {
          Expand(x);
          RunSnoc(old(Snapshot()), Repeat(ExpandStep(x), i), ExpandStep(x));
        }
      }
    }

    method MoveRight(count: nat)
      modifies this, writer
      ensures Snapshot() == Run(old(Snapshot()), RightMoveWrites(terminfo, count))
    {
      if CursorRight in terminfo {
        var x := terminfo[CursorRight];
        for i := 0 to count
          invariant Snapshot() == Run(old(Snapshot()), Repeat(ExpandStep(x), i))
        {
          Expand(x);
          RunSnoc(old(Snapshot()), Repeat(ExpandStep(x), i), ExpandStep(x));
        }
      } else {
        // No right-move capability: spaces, which a hard-copy terminal can take.
        for i := 0 to count
          invariant Snapshot() == Run(old(Snapshot()), Repeat(Write([SPACE]), i))
        {
          Put([SPACE]);
          RunSnoc(old(Snapshot()), Repeat(Write([SPACE]), i), Write([SPACE]));
        }
      }
    }

    // ---- Handler callbacks ----

    method Input(c: char)
      modifies this, writer
      ensures Snapshot() == Handle(terminfo, old(Snapshot()), Op.Input(c))
    {
      ghost var st0 := Snapshot();
      var a := attributes;
      ghost var done: seq<Step> := [];
      // The underline mark goes first, so the glyph survives on a terminal that can erase.
      if a.underline {
        Put([UNDERSCORE, BACKSPACE]);
        RunSnoc(st0, done, Write([UNDERSCORE, BACKSPACE]));
        done := done + [Write([UNDERSCORE, BACKSPACE])];
      }
      assert Snapshot() == Run(st0, done);
      Put(Utf8(c));
      RunSnoc(st0, done, Write(Utf8(c)));
      done := done + [Write(Utf8(c))];
      assert Snapshot() == Run(st0, done);
      if a.bold {
        Put([BACKSPACE] + Utf8(c));
        RunSnoc(st0, done, Write([BACKSPACE] + Utf8(c)));
        done := done + [Write([BACKSPACE] + Utf8(c))];
      }
      assert Snapshot() == Run(st0, done);
      assert done == InputWrites(a, c) == Writes(terminfo, a, Op.Input(c));
    }

    method GotoCol(column: nat)
      modifies this, writer
      ensures Snapshot() == Handle(terminfo, old(Snapshot()), Op.GotoCol(column))
    {
      // Where the cursor is is unknown: return to the margin, then move right.
      ExpandCap(Cap.CarriageReturn);
      MoveRight(column);
      RunAppend(old(Snapshot()), CapWrites(terminfo, Cap.CarriageReturn), RightMoveWrites(terminfo, column));
    }

    method InsertBlank(count: nat)
      modifies this, writer
      ensures Snapshot() == Handle(terminfo, old(Snapshot()), Op.InsertBlank(count))
    {
      for i := 0 to count
        invariant Snapshot() == Run(old(Snapshot()), Repeat(Write([SPACE]), i))
      {
        Put([SPACE]);
        RunSnoc(old(Snapshot()), Repeat(Write([SPACE]), i), Write([SPACE]));
      }
    }

    method MoveUp(rows: nat)
      modifies this, writer
      ensures Snapshot() == Handle(terminfo, old(Snapshot()), Op.MoveUp(rows))
    {
      ExpandCapRepeated(CursorUp, rows);
    }

    method MoveDown(rows: nat)
      modifies this, writer
      ensures Snapshot() == Handle(terminfo, old(Snapshot()), Op.MoveDown(rows))
    {
      ExpandCapRepeated(CursorDown, rows);
    }

    method MoveForward(cols: nat)
      modifies this, writer
      ensures Snapshot() == Handle(terminfo, old(Snapshot()), Op.MoveForward(cols))
    {
      MoveRight(cols);
    }

    method MoveBackward(cols: nat)
      modifies this, writer
      ensures Snapshot() == Handle(terminfo, old(Snapshot()), Op.MoveBackward(cols))
    {
      ExpandCapRepeated(CursorLeft, cols);
    }

    method MoveDownAndCr(rows: nat)
      modifies this, writer
      ensures Snapshot() == Handle(terminfo, old(Snapshot()), Op.MoveDownAndCr(rows))
    {
      ExpandCapRepeated(CursorDown, rows);
      ExpandCap(Cap.CarriageReturn);
      RunAppend(old(Snapshot()), RepeatedCapWrites(terminfo, CursorDown, rows), CapWrites(terminfo, Cap.CarriageReturn));
    }

    method MoveUpAndCr(rows: nat)
      modifies this, writer
      ensures Snapshot() == Handle(terminfo, old(Snapshot()), Op.MoveUpAndCr(rows))
    {
      ExpandCapRepeated(CursorUp, rows);
      ExpandCap(Cap.CarriageReturn);
      RunAppend(old(Snapshot()), RepeatedCapWrites(terminfo, CursorUp, rows), CapWrites(terminfo, Cap.CarriageReturn));
    }

    method PutTab(count: u16)
      modifies this, writer
      ensures Snapshot() == Handle(terminfo, old(Snapshot()), Op.PutTab(count))
    {
      ExpandCapRepeated(Tab, count as nat);
    }

    method Backspace()
      modifies this, writer
      ensures Snapshot() == Handle(terminfo, old(Snapshot()), Op.Backspace)
    {
      Put([BACKSPACE]);
      RunSnoc(old(Snapshot()), [], Write([BACKSPACE]));
    }

    method CarriageReturn()
      modifies this, writer
      ensures Snapshot() == Handle(terminfo, old(Snapshot()), Op.CarriageReturn)
    {
      ExpandCap(Cap.CarriageReturn);
    }

    method Linefeed()
      modifies this, writer
      ensures Snapshot() == Handle(terminfo, old(Snapshot()), Op.Linefeed)
    {
      Put([LINEFEED]);
      RunSnoc(old(Snapshot()), [], Write([LINEFEED]));
    }

    method Bell()
      modifies this, writer
      ensures Snapshot() == Handle(terminfo, old(Snapshot()), Op.Bell)
    {
      ExpandCap(Cap.Bell);
    }

    method Substitute()
      modifies this, writer
      ensures Snapshot() == Handle(terminfo, old(Snapshot()), Op.Substitute)
    {
      Put([SUBSTITUTE]);
      RunSnoc(old(Snapshot()), [], Write([SUBSTITUTE]));
    }

    method Newline()
      modifies this, writer
      ensures Snapshot() == Handle(terminfo, old(Snapshot()), Op.Newline)
    {
      ExpandCap(Cap.CarriageReturn);
      Linefeed();
      RunAppend(old(Snapshot()), CapWrites(terminfo, Cap.CarriageReturn), [Write([LINEFEED])]);
    }

    method ScrollUp(rows: nat)
      modifies this, writer
      ensures Snapshot() == Handle(terminfo, old(Snapshot()), Op.ScrollUp(rows))
    {
      ExpandCapRepeated(ScrollReverse, rows);
    }

    method ScrollDown(rows: nat)
      modifies this, writer
      ensures Snapshot() == Handle(terminfo, old(Snapshot()), Op.ScrollDown(rows))
    {
      ExpandCapRepeated(ScrollForward, rows);
    }

    method InsertBlankLines(rows: nat)
      modifies this, writer
      ensures Snapshot() == Handle(terminfo, old(Snapshot()), Op.InsertBlankLines(rows))
    {
      for i := 0 to rows
        invariant Snapshot() == Run(old(Snapshot()), Repeat(Write([LINEFEED]), i))
      {
        Put([LINEFEED]);
        RunSnoc(old(Snapshot()), Repeat(Write([LINEFEED]), i), Write([LINEFEED]));
      }
    }

    /** Hard-copy terminals have no reliable reset sequence: nothing to do. */
    method ResetState()
      ensures Snapshot() == Handle(terminfo, Snapshot(), Op.ResetState)
    {
    }

    method TerminalAttribute(attr: Attr)
      modifies this, writer
      ensures Snapshot() == Handle(terminfo, old(Snapshot()), Op.TerminalAttribute(attr))
    {
      match attr {
        case Reverse => ExpandCap(EnterStandoutMode);
        case CancelReverse => ExpandCap(ExitStandoutMode);
        case Reset =>
          ExpandCap(ExitAttributeMode);
          attributes := Track(attributes, BoldFlag, false);
          attributes := Track(attributes, UnderlineFlag, false);
        case Bold => ExpandCapOrTrack(EnterBoldMode, BoldFlag, true);
        case CancelBold =>
          // No capability is consulted: the code doubles as "double underline".
          attributes := Track(attributes, BoldFlag, false);
        case Underline => ExpandCapOrTrack(EnterUnderlineMode, UnderlineFlag, true);
        case CancelUnderline =>
          ExpandCap(ExitUnderlineMode);
          attributes := Track(attributes, UnderlineFlag, false);
        case Italic => ExpandCap(EnterItalicsMode);
        case CancelItalic => ExpandCap(ExitItalicsMode);
        // Colours, blinking, strike-through, dim and the other underlines are not supported.
        case Foreground(_) =>
        case Background(_) =>
        case UnderlineColor(_) =>
        case DoubleUnderline =>
        case Undercurl =>
        case DottedUnderline =>
        case DashedUnderline =>
        case BlinkSlow =>
        case BlinkFast =>
        case Hidden =>
        case Strike =>
        case Dim =>
        case CancelBoldDim =>
        case CancelBlink =>
        case CancelHidden =>
        case CancelStrike =>
      }
    }

    /** The decoder's call of the callback for `op`. */
    method Dispatch(op: Op)
      modifies this, writer
      ensures Snapshot() == Handle(terminfo, old(Snapshot()), op)
    {
      match op {
        case Input(c) => Input(c);
        case GotoCol(n) => GotoCol(n);
        case InsertBlank(n) => InsertBlank(n);
        case MoveUp(n) => MoveUp(n);
        case MoveDown(n) => MoveDown(n);
        case MoveForward(n) => MoveForward(n);
        case MoveBackward(n) => MoveBackward(n);
        case MoveDownAndCr(n) => MoveDownAndCr(n);
        case MoveUpAndCr(n) => MoveUpAndCr(n);
        case PutTab(n) => PutTab(n);
        case Backspace => Backspace();
        case CarriageReturn => CarriageReturn();
        case Linefeed => Linefeed();
        case Bell => Bell();
        case Substitute => Substitute();
        case Newline => Newline();
        case ScrollUp(n) => ScrollUp(n);
        case ScrollDown(n) => ScrollDown(n);
        case InsertBlankLines(n) => InsertBlankLines(n);
        case ResetState => ResetState();
        case TerminalAttribute(attr) => TerminalAttribute(attr);
        case Unhandled =>
      }
    }

    /** `self.err.take()` */
    method TakeErr() returns (e: Option<IoError>)
      modifies this
      ensures e == old(err) && err == None
      ensures attributes == old(attributes)
    {
      e := err;
      err := None;
    }
  }

  class Writer {
    const handler: Sanitizer

    constructor (inner: Sink, terminfo: Database)
      ensures fresh(handler)
      ensures handler.writer == inner && handler.terminfo == terminfo
      ensures handler.Snapshot() == State(NoAttributes, inner.State(), None)
    {
      handler := new Sanitizer(inner, terminfo);
    }

    /** `Write::write`. `ops` is what the external VT decoder makes of `buf`;
        it calls the handler once per operation, with no way to stop early. */
    method Write(buf: seq<byte>, ops: seq<Op>) returns (r: Result<nat>)
      modifies handler, handler.writer
      ensures (handler.Snapshot(), r) == WriteChunk(handler.terminfo, old(handler.Snapshot()), buf, ops)
    {
      for i := 0 to |ops|
        invariant handler.Snapshot() == Feed(handler.terminfo, old(handler.Snapshot()), ops[..i])
      {
        handler.Dispatch(ops[i]);
        assert ops[..i + 1][..i] == ops[..i];
      }
      assert ops[..|ops|] == ops;
      var e := handler.TakeErr();
      match e {
        case Some(error) => r := Err(error);
        case None => r := Ok(|buf|);
      }
    }
  }
}
