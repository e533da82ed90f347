/** What the sanitiser does for each decoded operation, as functions of its
    state: the writes it issues, in order, and the attribute flags it leaves
    behind. The class `Sanitiser.Sanitizer` is proved to follow these. */
module Handler {
  import opened Io
  import opened Terminfo
  import opened Ansi

  /** The `Attributes` bitfield: the attributes currently being emulated by
      overstrike because the terminal has no capability for them. */
  datatype Attributes = Attributes(bold: bool, underline: bool)

  const NoAttributes := Attributes(false, false)

  /** Which flag the attribute-fallback form of `expand_cap!` sets. */
  datatype Tracker = BoldFlag | UnderlineFlag

  function Track(a: Attributes, t: Tracker, value: bool): Attributes
  {
    match t
    case BoldFlag => a.(bold := value)
    case UnderlineFlag => a.(underline := value)
  }

  /** One write to the sink: literal bytes (also an expansion that succeeded),
      or a capability whose expansion failed before anything was written. */
  datatype Step = Write(bytes: seq<byte>) | ExpandFailure

  /** Everything a handler call can change: the flags, the sink and the
      latched error `err`. */
  datatype State = State(attrs: Attributes, sink: SinkState, err: Option<IoError>)

  /** Every write stores its own outcome in `err`, so a success clears an
      earlier failure. */
  function Perform(st: State, step: Step): State
  {
    match step
    case Write(b) =>
      var (s, e) := SinkWrite(st.sink, b);
      st.(sink := s, err := e)
    case ExpandFailure =>
      st.(err := Some(Expansion))
  }

  function Run(st: State, steps: seq<Step>): (r: State)
    ensures r.attrs == st.attrs
    decreases |steps|
  {
    if steps == [] then st
    else Perform(Run(st, steps[..|steps| - 1]), steps[|steps| - 1])
  }

  /** The bytes `steps` put on a sink that accepts them all. */
  function Emitted(steps: seq<Step>): seq<byte>
    decreases |steps|
  {
    if steps == [] then []
    else
      var last := steps[|steps| - 1];
      Emitted(steps[..|steps| - 1]) + (if last.Write? then last.bytes else [])
  }

  /** The error a step latches on a sink that accepts it. */
  function Outcome(step: Step): Option<IoError>
  {
    if step.Write? then None else Some(Expansion)
  }

  function Repeat(step: Step, n: nat): (r: seq<Step>)
    ensures |r| == n
    ensures forall i :: 0 <= i < n ==> r[i] == step
  {
    if n == 0 then [] else Repeat(step, n - 1) + [step]
  }

  lemma RunSnoc(st: State, steps: seq<Step>, step: Step)
    ensures Run(st, steps + [step]) == Perform(Run(st, steps), step)
  {
    assert (steps + [step])[..|steps|] == steps;
  }

  lemma {:induction false} RunAppend(st: State, a: seq<Step>, b: seq<Step>)
    ensures Run(st, a + b) == Run(Run(st, a), b)
    decreases |b|
  {
    if b == [] {
      assert a + b == a;
    } else {
      var init := b[..|b| - 1];
      assert (a + b)[..|a + b| - 1] == a + init;
      RunAppend(st, a, init);
    }
  }

  /** On a sink that accepts every write, running `steps` appends exactly their
      bytes, and the latched error is the outcome of the last step. */
  lemma {:induction false} RunClean(st: State, steps: seq<Step>)
    requires Clean(st.sink)
    ensures Clean(Run(st, steps).sink)
    ensures Run(st, steps).sink.data == st.sink.data + Emitted(steps)
    ensures Run(st, steps).err == if steps == [] then st.err else Outcome(steps[|steps| - 1])
    decreases |steps|
  {
    if steps != [] {
      var init := steps[..|steps| - 1];
      RunClean(st, init);
      var mid := Run(st, init);
      assert mid.sink.replies != [] ==> mid.sink.replies[0] == Accept;
    }
  }

  lemma {:induction false} EmittedAppend(a: seq<Step>, b: seq<Step>)
    ensures Emitted(a + b) == Emitted(a) + Emitted(b)
    decreases |b|
  {
    if b == [] {
      assert a + b == a;
    } else {
      var init := b[..|b| - 1];
      assert (a + b)[..|a + b| - 1] == a + init;
      EmittedAppend(a, init);
    }
  }

  lemma EmittedOne(step: Step)
    ensures Emitted([step]) == if step.Write? then step.bytes else []
  {
    assert [step][..0] == [];
  }

  /** Repeating a write of `b` emits `n` copies of `b`; repeating a failed
      expansion emits nothing. */
  lemma {:induction false} EmittedRepeat(step: Step, n: nat)
    ensures Emitted(Repeat(step, n)) == Copies(if step.Write? then step.bytes else [], n)
  {
    if n > 0 {
      EmittedRepeat(step, n - 1);
      assert Repeat(step, n)[..n - 1] == Repeat(step, n - 1);
    }
  }

  /** The flags play no part in running writes. */
  lemma {:induction false} RunIgnoresAttrs(st: State, a: Attributes, steps: seq<Step>)
    ensures Run(st.(attrs := a), steps) == Run(st, steps).(attrs := a)
    decreases |steps|
  {
    if steps != [] {
      RunIgnoresAttrs(st, a, steps[..|steps| - 1]);
    }
  }

  // ---- The writes of each handler ----

  /** `terminfo::expand!` of a capability that is present. */
  function ExpandStep(x: Expansion): Step
  {
    match x
    case Expands(b) => Write(b)
    case Unexpandable => ExpandFailure
  }

  /** `expand_cap!(self, cap)`: one expansion if the capability exists. The
      attribute-fallback form writes the same; its flag change is in `AttrEffect`. */
  function CapWrites(db: Database, cap: Cap): seq<Step>
  {
    if cap in db then [ExpandStep(db[cap])] else []
  }

  lemma EmittedCap(db: Database, cap: Cap)
    ensures Emitted(CapWrites(db, cap)) == CapBytes(db, cap)
  {
    if cap in db {
      assert [ExpandStep(db[cap])][..0] == [];
    }
  }

  /** `expand_cap!(self, cap, count)`: `count` expansions if the capability
      exists, nothing otherwise. */
  function RepeatedCapWrites(db: Database, cap: Cap, count: nat): seq<Step>
  {
    if cap in db then Repeat(ExpandStep(db[cap]), count) else []
  }

  /** `Sanitizer::move_right`: the right-move capability `count` times, or
      `count` spaces when the terminal has none. */
  function RightMoveWrites(db: Database, count: nat): seq<Step>
  {
    if CursorRight in db then Repeat(ExpandStep(db[CursorRight]), count)
    else Repeat(Write([SPACE]), count)
  }

  /** `input`: underline mark first, the character, then the bold overstrike. */
  function InputWrites(a: Attributes, c: char): seq<Step>
  {
    (if a.underline then [Write([UNDERSCORE, BACKSPACE])] else [])
    + [Write(Utf8(c))]
    + (if a.bold then [Write([BACKSPACE] + Utf8(c))] else [])
  }

  function AttrWrites(db: Database, attr: Attr): seq<Step>
  {
    match attr
    case Reverse => CapWrites(db, EnterStandoutMode)
    case CancelReverse => CapWrites(db, ExitStandoutMode)
    case Reset => CapWrites(db, ExitAttributeMode)
    case Bold => CapWrites(db, EnterBoldMode)
    case CancelBold => []
    case Underline => CapWrites(db, EnterUnderlineMode)
    case CancelUnderline => CapWrites(db, ExitUnderlineMode)
    case Italic => CapWrites(db, EnterItalicsMode)
    case CancelItalic => CapWrites(db, ExitItalicsMode)
    case _ => []
  }

  function AttrEffect(db: Database, a: Attributes, attr: Attr): Attributes
  {
    match attr
    case Reset => NoAttributes
    case Bold => if EnterBoldMode in db then a else Track(a, BoldFlag, true)
    case CancelBold => Track(a, BoldFlag, false)
    case Underline => if EnterUnderlineMode in db then a else Track(a, UnderlineFlag, true)
    case CancelUnderline => Track(a, UnderlineFlag, false)
    case _ => a
  }

  /** The writes the handler issues for `op`, in order. */
  function Writes(db: Database, a: Attributes, op: Op): seq<Step>
  {
    match op
    case Input(c) => InputWrites(a, c)
    case GotoCol(n) => CapWrites(db, Cap.CarriageReturn) + RightMoveWrites(db, n)
    case InsertBlank(n) => Repeat(Write([SPACE]), n)
    case MoveUp(n) => RepeatedCapWrites(db, CursorUp, n)
    case MoveDown(n) => RepeatedCapWrites(db, CursorDown, n)
    case MoveForward(n) => RightMoveWrites(db, n)
    case MoveBackward(n) => RepeatedCapWrites(db, CursorLeft, n)
    case MoveDownAndCr(n) => RepeatedCapWrites(db, CursorDown, n) + CapWrites(db, Cap.CarriageReturn)
    case MoveUpAndCr(n) => RepeatedCapWrites(db, CursorUp, n) + CapWrites(db, Cap.CarriageReturn)
    case PutTab(n) => RepeatedCapWrites(db, Tab, n as nat)
    case Backspace => [Write([BACKSPACE])]
    case CarriageReturn => CapWrites(db, Cap.CarriageReturn)
    case Linefeed => [Write([LINEFEED])]
    case Bell => CapWrites(db, Cap.Bell)
    case Substitute => [Write([SUBSTITUTE])]
    case Newline => CapWrites(db, Cap.CarriageReturn) + [Write([LINEFEED])]
    case ScrollUp(n) => RepeatedCapWrites(db, ScrollReverse, n)
    case ScrollDown(n) => RepeatedCapWrites(db, ScrollForward, n)
    case InsertBlankLines(n) => Repeat(Write([LINEFEED]), n)
    case ResetState => []
    case TerminalAttribute(attr) => AttrWrites(db, attr)
    case Unhandled => []
  }

  /** The attribute flags after `op`. */
  function Effect(db: Database, a: Attributes, op: Op): Attributes
  {
    if op.TerminalAttribute? then AttrEffect(db, a, op.attr) else a
  }

  /** One handler call. */
  function Handle(db: Database, st: State, op: Op): State
  {
    Run(st, Writes(db, st.attrs, op)).(attrs := Effect(db, st.attrs, op))
  }

  /** The handler calls for one decoded chunk, in order. */
  function Feed(db: Database, st: State, ops: seq<Op>): State
    decreases |ops|
  {
    if ops == [] then st
    else Handle(db, Feed(db, st, ops[..|ops| - 1]), ops[|ops| - 1])
  }

  /** `Writer::write`: feed the chunk, then take the latched error. The whole
      chunk counts as consumed. */
  function WriteChunk(db: Database, st: State, buf: seq<byte>, ops: seq<Op>): (State, Result<nat>)
  {
    var after := Feed(db, st, ops);
    (after.(err := None), if after.err.Some? then Err(after.err.value) else Ok(|buf|))
  }
}
