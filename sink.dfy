/**
 * The output side of a render: the caller's byte writer and the `write`
 * function that Lua code calls to stream text into it.
 */
module Sink {
  import opened Values

  /** A Lua value on a Lua state's stack, known to the model only by name. */
  datatype Handle = Handle(id: nat)

  /** The caller's `io.Writer`: every write appends, nothing is ever taken back. */
  class Writer {
    var written: Bytes

    constructor ()
      ensures written == []
    {
      written := [];
    }

    method Write(b: Bytes)
      modifies this
      ensures written == old(written) + b
    {
      written := written + b;
    }
  }

  /** The bytes one call of `write` emits: the string form of each argument, left to right. */
  function Stringified(toString: Handle -> Bytes, args: seq<Handle>): Bytes
    decreases |args|
  {
    if args == [] then [] else Stringified(toString, args[..|args| - 1]) + toString(args[|args| - 1])
  }

  /** The bytes a sequence of `write` calls emits, call after call. */
  function Emitted(toString: Handle -> Bytes, calls: seq<seq<Handle>>): Bytes
    decreases |calls|
  {
    if calls == [] then [] else Emitted(toString, calls[..|calls| - 1]) + Stringified(toString, calls[|calls| - 1])
  }

  /**
   * The `write` closure: for the Lua stack slots 1 to n, writes the string form
   * of argument i, in order, and returns no values to Lua.
   */
  method WriteArgs(w: Writer, toString: Handle -> Bytes, args: seq<Handle>) returns (nret: int)
    modifies w
    ensures w.written == old(w.written) + Stringified(toString, args)
    ensures nret == 0
  {
    var n := |args|;
    var i := 1;
    while i <= n
      invariant 1 <= i <= n + 1
      invariant w.written == old(w.written) + Stringified(toString, args[..i - 1])
    {
      var s := toString(args[i - 1]);
      assert args[..i] == args[..i - 1] + [args[i - 1]];
      assert args[..i][..i - 1] == args[..i - 1];
      w.Write(s);
      i := i + 1;
    }
    assert args[..n] == args;
    return 0;
  }

  /** Splitting the arguments between two calls emits the same bytes as one call. */
  lemma {:induction false} StringifiedAppend(toString: Handle -> Bytes, a: seq<Handle>, b: seq<Handle>)
    ensures Stringified(toString, a + b) == Stringified(toString, a) + Stringified(toString, b)
    decreases |b|
  {
    if b == [] {
      assert a + b == a;
    } else {
      var b' := b[..|b| - 1];
      assert (a + b)[..|a + b| - 1] == a + b';
      assert (a + b)[|a + b| - 1] == b[|b| - 1];
      StringifiedAppend(toString, a, b');
    }
  }

  function Flatten(calls: seq<seq<Handle>>): seq<Handle>
    decreases |calls|
  {
    if calls == [] then [] else Flatten(calls[..|calls| - 1]) + calls[|calls| - 1]
  }

  /**
   * The sink neither buffers nor reorders: any sequence of calls emits exactly
   * the bytes of one call given all their arguments in order.
   */
  lemma {:induction false} EmittedIsOneCall(toString: Handle -> Bytes, calls: seq<seq<Handle>>)
    ensures Emitted(toString, calls) == Stringified(toString, Flatten(calls))
    decreases |calls|
  {
    if calls != [] {
      var init := calls[..|calls| - 1];
      EmittedIsOneCall(toString, init);
      StringifiedAppend(toString, Flatten(init), calls[|calls| - 1]);
    }
  }
}
