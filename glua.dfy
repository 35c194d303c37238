/**
 * The pool of Lua states (`Lua`, `New`, `getLua`, `putLua`) and the render
 * entry point (`Render`). A Lua state is known by an instance number; the Lua
 * runtime itself (its `require`, the template functions, the `render` helper and
 * `ToString`) is a `Runtime` of functions the model leaves uninterpreted.
 */
module Glua {
  import opened Values
  import opened Names
  import opened Sink

  /** Capacity of the buffer of idle Lua states. */
  const Capacity: nat := 4

  /** The newline `Render` writes after a successful render. */
  const Newline: byte := 10

  /** An error value returned by a protected call into Lua. */
  datatype LuaError = LuaError(message: Bytes)

  datatype Option<T> = None | Some(value: T)

  /** The outcome of a protected Lua call expecting one return value. */
  datatype Call = Returned(value: Handle) | Raised(error: LuaError)

  /**
   * What one call of the Lua `render` helper does: the argument lists of the
   * `write` calls it makes, in order, and the error it ends with, if any.
   */
  datatype RenderRun = RenderRun(writes: seq<seq<Handle>>, error: Option<LuaError>)

  /**
   * The behaviour of the Lua side on a given Lua state: `require` of a module
   * path, a call of a template function on the converted data, a call of the
   * global `render` helper on a structure, and `ToString` of a stack value.
   */
  datatype Runtime = Runtime(
    require: (nat, string) -> Call,
    callTemplate: (nat, Handle, LValue) -> Call,
    render: (nat, Handle) -> RenderRun,
    toString: Handle -> Bytes)

  /** How far a render got: the stage it stopped in, `Done` on success. */
  datatype Stage = Loading | Templating | Rendering | Done

  /** What `Render` returns: nil, the error of a Lua call, or a Go panic. */
  datatype Outcome = Rendered | Failed(error: LuaError) | Panic

  datatype Report = Report(outcome: Outcome, emitted: Bytes, stage: Stage)

  /**
   * The steps of `Render` on Lua state `inst`: require the resolved module,
   * call the template with the converted data, call `render` with the structure
   * and the `write` function, and end with a newline.
   *
   * The first failing step decides the outcome and nothing after it runs;
   * nothing is written before the `render` call; bytes written by the `render`
   * call stay written when it fails; a success adds exactly one newline.
   */
  function Run(rt: Runtime, inst: nat, data: HostValue, name: string): (r: Report)
    ensures var loaded := rt.require(inst, Resolve(name));
            (r.stage == Loading <==> loaded.Raised?) &&
            (r.stage == Loading ==> r.outcome == Failed(loaded.error)) &&
            (r.outcome.Panic? <==> loaded.Returned? && Marshal(data).Panicked?) &&
            (r.stage == Templating <==>
               loaded.Returned? &&
               (Marshal(data).Panicked? || rt.callTemplate(inst, loaded.value, Marshal(data).value).Raised?))
    ensures r.stage in {Loading, Templating} ==> r.emitted == [] && !r.outcome.Rendered?
    ensures r.stage in {Rendering, Done} ==>
              var st := rt.callTemplate(inst, rt.require(inst, Resolve(name)).value, Marshal(data).value).value;
              var run := rt.render(inst, st);
              (r.stage == Done <==> run.error.None?) &&
              (r.stage == Rendering ==>
                 r.outcome == Failed(run.error.value) && r.emitted == Emitted(rt.toString, run.writes)) &&
              (r.stage == Done ==> r.emitted == Emitted(rt.toString, run.writes) + [Newline])
    ensures r.outcome.Rendered? <==> r.stage == Done
  {
    match rt.require(inst, Resolve(name))
    case Raised(e) => Report(Failed(e), [], Loading)
    case Returned(template) =>
      match Marshal(data)
      case Panicked => Report(Panic, [], Templating)
      case Converted(arg) =>
        match rt.callTemplate(inst, template, arg)
        case Raised(e) => Report(Failed(e), [], Templating)
        case Returned(structure) =>
          var run := rt.render(inst, structure);
          var out := Emitted(rt.toString, run.writes);
          match run.error
          case Some(e) => Report(Failed(e), out, Rendering)
          case None => Report(Rendered, out + [Newline], Done)
  }

  /**
   * The outcome depends on the target name only through its resolved path. This
   * is a congruence fact: `Run` reads the name only as `Resolve(name)`.
   */
  lemma RunSeesResolvedName(rt: Runtime, inst: nat, data: HostValue, a: string, b: string)
    requires Resolve(a) == Resolve(b)
    ensures Run(rt, inst, data, a) == Run(rt, inst, data, b)
  {
  }

  /**
   * A failing `require` ends the render there: how the template or the `render`
   * helper would behave makes no difference.
   */
  lemma LoadFailureStops(rt: Runtime, rt': Runtime, inst: nat, data: HostValue, name: string)
    requires rt.require(inst, Resolve(name)).Raised?
    requires rt'.require(inst, Resolve(name)) == rt.require(inst, Resolve(name))
    ensures Run(rt, inst, data, name) == Run(rt', inst, data, name)
    ensures Run(rt, inst, data, name) == Report(Failed(rt.require(inst, Resolve(name)).error), [], Loading)
  {
  }

  /**
   * A failing template call (or a panic while converting the data) ends the
   * render there: the `render` helper and `ToString` make no difference, and
   * nothing is written.
   */
  lemma TemplateFailureStops(rt: Runtime, rt': Runtime, inst: nat, data: HostValue, name: string)
    requires rt.require(inst, Resolve(name)).Returned?
    requires Marshal(data).Converted? ==>
               rt.callTemplate(inst, rt.require(inst, Resolve(name)).value, Marshal(data).value).Raised?
    requires rt'.require(inst, Resolve(name)) == rt.require(inst, Resolve(name))
    requires Marshal(data).Converted? ==>
               rt'.callTemplate(inst, rt.require(inst, Resolve(name)).value, Marshal(data).value) ==
               rt.callTemplate(inst, rt.require(inst, Resolve(name)).value, Marshal(data).value)
    ensures Run(rt, inst, data, name) == Run(rt', inst, data, name)
    ensures Run(rt, inst, data, name).emitted == [] && Run(rt, inst, data, name).stage == Templating
  {
  }

  /**
   * A successful render writes the string forms of all arguments of all
   * `write` calls, in order, and then exactly one newline.
   */
  lemma SuccessEndsInOneNewline(rt: Runtime, inst: nat, data: HostValue, name: string)
    requires Run(rt, inst, data, name).outcome.Rendered?
    ensures var e := Run(rt, inst, data, name).emitted;
            var st := rt.callTemplate(inst, rt.require(inst, Resolve(name)).value, Marshal(data).value).value;
            e != [] && e[|e| - 1] == Newline &&
            e[..|e| - 1] == Stringified(rt.toString, Flatten(rt.render(inst, st).writes))
  {
    var st := rt.callTemplate(inst, rt.require(inst, Resolve(name)).value, Marshal(data).value).value;
    var writes := rt.render(inst, st).writes;
    EmittedIsOneCall(rt.toString, writes);
    var e := Run(rt, inst, data, name).emitted;
    assert e == Emitted(rt.toString, writes) + [Newline];
    assert e[..|e| - 1] == Emitted(rt.toString, writes);
  }

  /** The `write` calls the `render` helper makes, performed in order on the writer. */
  method WriteAll(w: Writer, toString: Handle -> Bytes, writes: seq<seq<Handle>>)
    modifies w
    ensures w.written == old(w.written) + Emitted(toString, writes)
  {
    var k := 0;
    while k < |writes|
      invariant 0 <= k <= |writes|
      invariant w.written == old(w.written) + Emitted(toString, writes[..k])
    {
      var nret := WriteArgs(w, toString, writes[k]);
      assert writes[..k + 1][..k] == writes[..k];
      k := k + 1;
    }
    assert writes[..k] == writes;
  }

  /** The steps of `Render` after a state has been acquired, up to the deferred release. */
  method RunSteps(w: Writer, rt: Runtime, inst: nat, data: HostValue, name: string) returns (res: Outcome)
    modifies w
    ensures res == Run(rt, inst, data, name).outcome
    ensures w.written == old(w.written) + Run(rt, inst, data, name).emitted
  {
    ghost var report := Run(rt, inst, data, name);
    var path := Resolve(name);
    var loaded := rt.require(inst, path);
    if loaded.Raised? {
      assert report == Report(Failed(loaded.error), [], Loading);
      return Failed(loaded.error);
    }
    var template := loaded.value;
    var arg := ToLua(data);
    if arg.Panicked? {
      assert report == Report(Panic, [], Templating);
      return Panic;
    }
    var called := rt.callTemplate(inst, template, arg.value);
    if called.Raised? {
      assert report == Report(Failed(called.error), [], Templating);
      return Failed(called.error);
    }
    var structure := called.value;
    var run := rt.render(inst, structure);
    ghost var out := Emitted(rt.toString, run.writes);
    WriteAll(w, rt.toString, run.writes);
    if run.error.Some? {
      assert report == Report(Failed(run.error.value), out, Rendering);
      return Failed(run.error.value);
    }
    assert report == Report(Rendered, out + [Newline], Done);
    w.Write([Newline]);
    return Rendered;
  }

  /**
   * The holder of Lua states. `unused` is the buffered channel of idle states,
   * front first; `closed` the states closed so far; `nextId` the number the next
   * new state gets; `out` the states currently handed out.
   */
  class Lua {
    var unused: seq<nat>
    var reuse: bool
    var closed: set<nat>
    var nextId: nat
    ghost var out: set<nat>

    /**
     * The buffer stays within its capacity and is empty while reuse is off; no
     * state is buffered twice; idle, handed-out and closed states are distinct
     * and were all created.
     */
    ghost predicate Valid()
      reads this
    {
      |unused| <= Capacity &&
      (!reuse ==> unused == []) &&
      (forall i, j :: 0 <= i < j < |unused| ==> unused[i] != unused[j]) &&
      (forall i :: 0 <= i < |unused| ==> unused[i] < nextId && unused[i] !in out && unused[i] !in closed) &&
      (forall x :: x in out ==> x < nextId && x !in closed) &&
      (forall x :: x in closed ==> x < nextId)
    }

    /** The state the next `GetLua` hands out. */
    ghost function Next(): nat
      reads this
    {
      if unused != [] then unused[0] else nextId
    }

    /** The idle buffer after the next `GetLua`. */
    ghost function AfterTake(): seq<nat>
      reads this
    {
      if unused != [] then unused[1..] else []
    }

    /** `New`: reuse off, an empty buffer. */
    constructor New()
      ensures Valid()
      ensures !reuse && unused == [] && closed == {} && out == {} && nextId == 0
    {
      unused, reuse, closed, nextId := [], false, {}, 0;
      out := {};
    }

    /**
     * A holder built with a chosen reuse policy, as code inside the package can
     * write with a struct literal.
     */
    constructor WithReuse(reuse: bool)
      ensures Valid()
      ensures this.reuse == reuse && unused == [] && closed == {} && out == {} && nextId == 0
    {
      unused, this.reuse, closed, nextId := [], reuse, {}, 0;
      out := {};
    }

    /** `newLua`: opens a state no one has seen before. */
    method NewLua() returns (id: nat)
      requires Valid()
      modifies this
      ensures Valid()
      ensures id == old(nextId) && nextId == old(nextId) + 1
      ensures unused == old(unused) && reuse == old(reuse) && closed == old(closed) && out == old(out)
    {
      id := nextId;
      nextId := nextId + 1;
    }

    /**
     * `getLua`: takes the front idle state if there is one and creates a new one
     * otherwise. The state handed out was neither handed out nor closed before.
     */
    method GetLua() returns (id: nat)
      requires Valid()
      modifies this
      ensures Valid()
      ensures id == old(Next()) && unused == old(AfterTake())
      ensures old(unused) != [] ==> nextId == old(nextId)
      ensures old(unused) == [] ==> nextId == old(nextId) + 1
      ensures id !in old(out) && id !in closed && id !in unused
      ensures out == old(out) + {id}
      ensures reuse == old(reuse) && closed == old(closed)
    {
      if unused != [] {
        id := unused[0];
        unused := unused[1..];
      } else {
        id := NewLua();
      }
      out := out + {id};
    }

    /**
     * `putLua`: with reuse off the state is closed; with reuse on it joins the
     * back of the buffer while there is room and is closed once the buffer is full.
     */
    method PutLua(id: nat)
      requires Valid() && id in out
      modifies this
      ensures Valid()
      ensures out == old(out) - {id}
      ensures reuse == old(reuse) && nextId == old(nextId)
      ensures !reuse ==> unused == old(unused) == [] && closed == old(closed) + {id}
      ensures reuse && |old(unused)| < Capacity ==> unused == old(unused) + [id] && closed == old(closed)
      ensures reuse && |old(unused)| == Capacity ==> unused == old(unused) && closed == old(closed) + {id}
    {
      if !reuse {
        closed := closed + {id};
      } else if |unused| < Capacity {
        unused := unused + [id];
      } else {
        closed := closed + {id};
      }
      out := out - {id};
    }

    /**
     * `Render`: acquires a state, runs the steps and releases the state whatever
     * the steps end in (the deferred `putLua`), a panic included. Without reuse
     * the state is closed afterwards; with reuse it goes to the back of the buffer.
     */
    method Render(w: Writer, data: HostValue, name: string, rt: Runtime) returns (res: Outcome)
      requires Valid()
      modifies this, w
      ensures Valid()
      ensures res == Run(rt, old(Next()), data, name).outcome
      ensures w.written == old(w.written) + Run(rt, old(Next()), data, name).emitted
      ensures out == old(out) && reuse == old(reuse)
      ensures nextId == if old(unused) == [] then old(nextId) + 1 else old(nextId)
      ensures !reuse ==> unused == [] && closed == old(closed) + {old(Next())}
      ensures reuse ==> unused == old(AfterTake()) + [old(Next())] && closed == old(closed)
    {
      ghost var report := Run(rt, Next(), data, name);
      ghost var written := w.written;
      var inst := GetLua();
      res := RunSteps(w, rt, inst, data, name);
      assert res == report.outcome && w.written == written + report.emitted;
      PutLua(inst);
    }
  }

  /**
   * Two renders on a holder from `New`: each gets a state created for it, each
   * state is closed afterwards, and the buffer stays empty.
   */
  method TwoRendersWithoutReuse(w: Writer, data: HostValue, name: string, rt: Runtime)
    returns (closedAfter: set<nat>, idle: seq<nat>)
    modifies w
    ensures closedAfter == {0, 1} && idle == []
  {
    var lt := new Lua.New();
    var r1 := lt.Render(w, data, name, rt);
    assert lt.closed == {0} && lt.nextId == 1 && !lt.reuse;
    var r2 := lt.Render(w, data, name, rt);
    closedAfter, idle := lt.closed, lt.unused;
  }

  /**
   * Two renders on a holder with reuse on: the second render gets back the
   * state the first one released, and no state is closed.
   */
  method TwoRendersWithReuse(w: Writer, data: HostValue, name: string, rt: Runtime)
    returns (created: nat, idle: seq<nat>, closedAfter: set<nat>)
    modifies w
    ensures created == 1 && idle == [0] && closedAfter == {}
  {
    var lt := new Lua.WithReuse(true);
    var r1 := lt.Render(w, data, name, rt);
    var r2 := lt.Render(w, data, name, rt);
    created, idle, closedAfter := lt.nextId, lt.unused, lt.closed;
  }
}
