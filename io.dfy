/** Bytes, errors and the output sink the sanitiser writes to.

    The sink stands for the `W: Write` the sanitiser wraps (standard output in
    the program). Whether a write succeeds is not up to the sanitiser, so the
    sink carries a script of replies, one consumed per write: `Accept`, or
    `Reject(kept, error)` after only the first `kept` bytes reached the device.
    Once the script is used up, every write is accepted. */
module Io {

  newtype byte = x: int | 0 <= x < 0x100

  const BACKSPACE: byte := 0x08
  const LINEFEED: byte := 0x0A
  const SUBSTITUTE: byte := 0x1A
  const SPACE: byte := 0x20
  const UNDERSCORE: byte := 0x5F

  datatype Option<T> = None | Some(value: T)

  /** `std::io::Error`, as far as the sanitiser can tell them apart: an error the
      sink reported, or the one `terminfo_err_mapper` makes of a failed
      template expansion. */
  datatype IoError = Os(code: int) | Expansion

  /** `std::io::Result<usize>` */
  datatype Result<T> = Ok(value: T) | Err(error: IoError)

  datatype Reply = Accept | Reject(kept: nat, error: IoError)

  datatype SinkState = SinkState(data: seq<byte>, replies: seq<Reply>)

  function Min(a: nat, b: nat): nat { if a < b then a else b }

  /** One `write_all` of `b`: the bytes that reach the device and the error, if any. */
  function SinkWrite(s: SinkState, b: seq<byte>): (r: (SinkState, Option<IoError>))
    ensures s.data <= r.0.data && |r.0.data| <= |s.data| + |b|
    ensures r.0.data[|s.data|..] <= b
    ensures r.1 == None ==> r.0.data == s.data + b
    ensures r.1 != None <==> s.replies != [] && s.replies[0].Reject?
    ensures r.0.replies == if s.replies == [] then [] else s.replies[1..]
  {
    if s.replies == [] then (SinkState(s.data + b, []), None)
    else match s.replies[0]
      case Accept => (SinkState(s.data + b, s.replies[1..]), None)
      case Reject(kept, e) =>
        assert (s.data + b[..Min(kept, |b|)])[|s.data|..] == b[..Min(kept, |b|)];
        (SinkState(s.data + b[..Min(kept, |b|)], s.replies[1..]), Some(e))
  }

  /** A sink that accepts every write it is still going to receive. */
  ghost predicate Clean(s: SinkState)
  {
    forall i :: 0 <= i < |s.replies| ==> s.replies[i] == Accept
  }

  /** `n` copies of `b`, one after the other. */
  function Copies(b: seq<byte>, n: nat): (r: seq<byte>)
    ensures |r| == n * |b|
    ensures |b| == 1 ==> forall i :: 0 <= i < |r| ==> r[i] == b[0]
  {
    if n == 0 then []
    else
      var prev := Copies(b, n - 1);
      assert (n - 1) * |b| + |b| == n * |b|;
      prev + b
  }

  class Sink {
    var data: seq<byte>
    var replies: seq<Reply>

    function State(): SinkState
      reads this
    {
      SinkState(data, replies)
    }

    constructor (replies: seq<Reply>)
      ensures State() == SinkState([], replies)
    {
      data := [];
      this.replies := replies;
    }

    /** `write_all(b)`; also what `write!` and `terminfo::expand!` do to the sink. */
    method WriteAll(b: seq<byte>) returns (e: Option<IoError>)
      modifies this
      ensures (State(), e) == SinkWrite(old(State()), b)
    {
      if replies == [] {
        data, e := data + b, None;
      } else {
        var reply := replies[0];
        replies := replies[1..];
        match reply {
          case Accept =>
            data, e := data + b, None;
          case Reject(kept, error) =>
            data, e := data + b[..Min(kept, |b|)], Some(error);
        }
      }
    }
  }
}
