/**
 * The `Logger` (log.go, lines 69-88 and 150-211): an ordered list of outputs, each a
 * (writer, threshold, formatter) triple, and the dispatch that formats a message once for
 * every output whose threshold it reaches and hands the bytes to that output's writer.
 * Writers are opaque identifiers; what they receive is recorded in `writes`.
 */
module Logging {
  import opened Options
  import opened Levels
  import opened Formatting

  /** An `io.Writer`, known only by identity. */
  type WriterId = nat

  /**
   * The `Formatter` interface: the standard formatter, or any other implementation, seen
   * as a function from level and message to the bytes to write.
   */
  datatype Formatter = Std(std: StdFormatter) | Custom(render: (Level, string) -> string)

  /** A registered output: writer, minimum level, formatter. */
  datatype Output = Output(writer: WriterId, level: Level, fmt: Formatter)

  /** One `Write` call on a writer, with the bytes it was given. */
  datatype Write = Write(writer: WriterId, bytes: string)

  /**
   * What the formatters consult outside the model: `clock(i)` is the `time.Now()` reading
   * taken while formatting for output `i`, `caller` what `runtime.Caller(2)` resolved, and
   * `ansi` the `AnsiEscape` function.
   */
  datatype Env = Env(clock: nat -> Instant, caller: Option<Site>, ansi: AnsiEscape)

  /** `output.fmt.Format(level, msg)` for the output at position `i`. */
  function Render(fm: Formatter, i: nat, level: Level, msg: string, env: Env): (bytes: string)
    ensures fm.Std? ==> |bytes| >= |msg| + 1 && bytes[|bytes| - |msg| - 1..] == " " + msg
  {
    match fm
    case Std(f) => Format(f, level, msg, env.clock(i), env.caller, env.ansi)
    case Custom(render) => render(level, msg)
  }

  /** The write that output `o`, registered at position `i`, receives for a message it accepts. */
  function Delivery(o: Output, i: nat, level: Level, msg: string, env: Env): (w: Write)
    ensures w.writer == o.writer
    ensures o.fmt.Std? ==> |w.bytes| >= |msg| + 1 && w.bytes[|w.bytes| - |msg| - 1..] == " " + msg
  {
    Write(o.writer, Render(o.fmt, i, level, msg, env))
  }

  /** The writes one `Log` call makes over `outs`, in the order it makes them. */
  function Dispatch(outs: seq<Output>, level: Level, msg: string, env: Env): (ws: seq<Write>)
    ensures |ws| <= |outs|
    ensures (forall i :: 0 <= i < |outs| ==> level < outs[i].level) ==> ws == []
    ensures (forall i :: 0 <= i < |outs| ==> outs[i].level <= level) ==> |ws| == |outs|
  {
    if outs == [] then []
    else
      var i := |outs| - 1;
      Dispatch(outs[..i], level, msg, env)
      + (if outs[i].level <= level then [Delivery(outs[i], i, level, msg, env)] else [])
  }

  /**
   * The positions of the outputs a message at `level` reaches, in registration order:
   * each at most once, exactly those whose threshold is at most `level`.
   */
  function Matching(outs: seq<Output>, level: Level): (m: seq<nat>)
    ensures forall j :: 0 <= j < |m| ==> m[j] < |outs| && outs[m[j]].level <= level
    ensures forall j, k :: 0 <= j < k < |m| ==> m[j] < m[k]
    ensures forall i :: 0 <= i < |outs| ==> (i in m <==> outs[i].level <= level)
  {
    if outs == [] then []
    else
      var i := |outs| - 1;
      var m' := Matching(outs[..i], level);
      assert forall j :: 0 <= j < |m'| ==> outs[..i][m'[j]] == outs[m'[j]];
      m' + (if outs[i].level <= level then [i] else [])
  }

  /**
   * `Log` writes exactly once to every output whose threshold the level reaches, in
   * registration order, and to no other: its j-th write is the delivery to the j-th
   * matching output.
   */
  lemma {:induction false} DispatchReachesMatching(outs: seq<Output>, level: Level, msg: string, env: Env)
    ensures var d, m := Dispatch(outs, level, msg, env), Matching(outs, level);
      && |d| == |m|
      && forall j :: 0 <= j < |m| ==> d[j] == Delivery(outs[m[j]], m[j], level, msg, env)
    decreases |outs|
  {
    if outs != [] {
      var i := |outs| - 1;
      DispatchReachesMatching(outs[..i], level, msg, env);
      var d', m' := Dispatch(outs[..i], level, msg, env), Matching(outs[..i], level);
      var d, m := Dispatch(outs, level, msg, env), Matching(outs, level);
      assert d[..|d'|] == d' && m[..|m'|] == m';
      forall j | 0 <= j < |m|
        ensures d[j] == Delivery(outs[m[j]], m[j], level, msg, env)
      {
        if j < |m'| {
          assert d[j] == d'[j] && m[j] == m'[j];
          assert outs[..i][m'[j]] == outs[m'[j]];
        }
      }
    }
  }

  /**
   * Registering one more output leaves the earlier outputs' writes as they were and adds
   * the new output's write, if its threshold is reached, at the end.
   */
  lemma DispatchAfterAdd(outs: seq<Output>, o: Output, level: Level, msg: string, env: Env)
    ensures Dispatch(outs + [o], level, msg, env) ==
      Dispatch(outs, level, msg, env)
      + (if o.level <= level then [Delivery(o, |outs|, level, msg, env)] else [])
  {
    assert (outs + [o])[..|outs|] == outs;
  }

  class Logger {
    /** The registered outputs, in registration order. */
    var outputs: seq<Output>
    /** Every write made to any writer, in the order made. */
    var writes: seq<Write>

    /** `New`: a logger with no outputs. */
    constructor New()
      ensures outputs == [] && writes == []
    {
      outputs := [];
      writes := [];
    }

    /** `AddOutput`: appends one output at the end; earlier outputs stay as they were. */
    method AddOutput(writer: WriterId, level: Level, fm: Formatter)
      modifies this`outputs
      ensures outputs == old(outputs) + [Output(writer, level, fm)]
      ensures writes == old(writes)
    {
      outputs := outputs + [Output(writer, level, fm)];
    }

    /**
     * `Log`: walks the outputs in order and writes the formatted message to each output
     * whose threshold is at most `level`. Write errors are ignored, so every such output
     * is written to.
     */
    method Log(level: Level, msg: string, env: Env)
      modifies this`writes
      ensures outputs == old(outputs)
      ensures writes == old(writes) + Dispatch(outputs, level, msg, env)
    {
      var i := 0;
      while i < |outputs|
        invariant 0 <= i <= |outputs|
        invariant writes == old(writes) + Dispatch(outputs[..i], level, msg, env)
      {
        var output := outputs[i];
        assert outputs[..i + 1][..i] == outputs[..i];
        if output.level <= level {
          writes := writes + [Write(output.writer, Render(output.fmt, i, level, msg, env))];
        }
        i := i + 1;
      }
      assert outputs[..|outputs|] == outputs;
    }

    /**
     * `Logf`: the message is `fmt.Sprintf(format + "\n", v...)`; `sprintf` stands for
     * `fmt.Sprintf` with the call's arguments `v` bound.
     */
    method Logf(level: Level, format: string, sprintf: string -> string, env: Env)
      modifies this`writes
      ensures outputs == old(outputs)
      ensures writes == old(writes) + Dispatch(outputs, level, sprintf(format + "\n"), env)
    {
      Log(level, sprintf(format + "\n"), env);
    }

    method Trace(format: string, sprintf: string -> string, env: Env)
      modifies this`writes
      ensures outputs == old(outputs)
      ensures writes == old(writes) + Dispatch(outputs, Levels.Trace, sprintf(format + "\n"), env)
    {
      Log(Levels.Trace, sprintf(format + "\n"), env);
    }

    method Debug(format: string, sprintf: string -> string, env: Env)
      modifies this`writes
      ensures outputs == old(outputs)
      ensures writes == old(writes) + Dispatch(outputs, Levels.Debug, sprintf(format + "\n"), env)
    {
      Log(Levels.Debug, sprintf(format + "\n"), env);
    }

    method Info(format: string, sprintf: string -> string, env: Env)
      modifies this`writes
      ensures outputs == old(outputs)
      ensures writes == old(writes) + Dispatch(outputs, Levels.Info, sprintf(format + "\n"), env)
    {
      Log(Levels.Info, sprintf(format + "\n"), env);
    }

    method Warning(format: string, sprintf: string -> string, env: Env)
      modifies this`writes
      ensures outputs == old(outputs)
      ensures writes == old(writes) + Dispatch(outputs, Levels.Warning, sprintf(format + "\n"), env)
    {
      Log(Levels.Warning, sprintf(format + "\n"), env);
    }

    method Error(format: string, sprintf: string -> string, env: Env)
      modifies this`writes
      ensures outputs == old(outputs)
      ensures writes == old(writes) + Dispatch(outputs, Levels.Error, sprintf(format + "\n"), env)
    {
      Log(Levels.Error, sprintf(format + "\n"), env);
    }

    /** `Fatal` only logs at the Fatal level; it does not stop the program. */
    method Fatal(format: string, sprintf: string -> string, env: Env)
      modifies this`writes
      ensures outputs == old(outputs)
      ensures writes == old(writes) + Dispatch(outputs, Levels.Fatal, sprintf(format + "\n"), env)
    {
      Log(Levels.Fatal, sprintf(format + "\n"), env);
    }
  }

  /**
   * A logger with one output at threshold Warning: a Debug message reaches no writer, and
   * an Error "disk full" reaches the writer exactly once, as a line ending in " disk full\n".
   */
  method WarningThresholdScenario(sink: WriterId, f: StdFormatter, env: Env) returns (delivered: seq<Write>)
    ensures |delivered| == 1 && delivered[0].writer == sink
    ensures var b := delivered[0].bytes; |b| >= 11 && b[|b| - 11..] == " disk full\n"
  {
    var o := Output(sink, Levels.Warning, Std(f));
    var logger := new Logger.New();
    logger.AddOutput(sink, Levels.Warning, Std(f));
    assert logger.outputs == [o];
    logger.Debug("ignored", s => s, env);
    DispatchSingle(o, Levels.Debug, "ignored\n", env);
    assert logger.writes == [];
    assert "disk full" + "\n" == "disk full\n";
    logger.Error("disk full", s => s, env);
    DispatchSingle(o, Levels.Error, "disk full\n", env);
    delivered := logger.writes;
    assert delivered == [Delivery(o, 0, Levels.Error, "disk full\n", env)];
    DiskFullLine(o, env);
  }

  /** A logger with a single output writes to it exactly when its threshold is reached. */
  lemma DispatchSingle(o: Output, level: Level, msg: string, env: Env)
    ensures Dispatch([o], level, msg, env) == if o.level <= level then [Delivery(o, 0, level, msg, env)] else []
  {
    DispatchAfterAdd([], o, level, msg, env);
    assert [] + [o] == [o];
  }

  /** The standard formatter's line for "disk full\n" ends in " disk full\n". */
  lemma DiskFullLine(o: Output, env: Env)
    requires o.fmt.Std?
    ensures var b := Delivery(o, 0, Levels.Error, "disk full\n", env).bytes;
      |b| >= 11 && b[|b| - 11..] == " disk full\n"
  {
    assert " " + "disk full\n" == " disk full\n";
  }

}
