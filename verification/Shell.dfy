/**
The line-at-a-time if/then/else/fi interpreter of MySh/controlflow.c and MySh/process.c.

A line is its argument list. builtin_command and execute are one parameter `run`, which maps a world
and a command line to the next world and an exit status.
*/
module Shell {

  type Line = seq<string>

  datatype IfState = NEUTRAL | WANT_THEN | THEN_BLOCK | WANT_ELSE | ELSE_BLOCK
  datatype IfResult = SUCCESS | FAIL

  /** The static variables, the world the commands act on, and a record of what happened. */
  datatype State<W> = State(
    ifState: IfState,
    ifResult: IfResult,
    lastState: int,
    world: W,
    executed: seq<Line>,   // commands run, in order
    errors: nat)           // calls of syn_err

  function Start<W>(world: W): State<W> {
    State(NEUTRAL, SUCCESS, 0, world, [], 0)
  }

  predicate IsControl(word: string) {
    word == "if" || word == "then" || word == "fi" || word == "else"
  }

  function SynErr<W>(s: State<W>): State<W> {
    s.(ifState := NEUTRAL, errors := s.errors + 1)
  }

  function OkToExecute<W>(s: State<W>): (State<W>, bool) {
    if s.ifState == WANT_THEN then (SynErr(s), false)
    else if s.ifState == THEN_BLOCK && s.ifResult == FAIL then (s, false)
    else if s.ifState == ELSE_BLOCK && s.ifResult == SUCCESS then (s, false)
    else (s, true)
  }

  function DoControlCommand<W>(run: (W, Line) -> (W, int), s: State<W>, args: Line): (State<W>, int)
    requires args != [] && IsControl(args[0])
    decreases |args|, 0
  {
    if args[0] == "if" then
      if s.ifState != NEUTRAL then (SynErr(s), -1)
      else
        var (s1, status) := Process(run, s, args[1..]);
        (s1.(lastState := status, ifResult := if status == 0 then SUCCESS else FAIL, ifState := WANT_THEN), 0)
    else if args[0] == "then" then
      if s.ifState != WANT_THEN then (SynErr(s), -1) else (s.(ifState := THEN_BLOCK), 0)
    else if args[0] == "fi" then
      if s.ifState != THEN_BLOCK && s.ifState != ELSE_BLOCK then (SynErr(s), -1) else (s.(ifState := NEUTRAL), 0)
    else
      if s.ifState != THEN_BLOCK then (SynErr(s), -1) else (s.(ifState := ELSE_BLOCK), 0)
  }

  function Process<W>(run: (W, Line) -> (W, int), s: State<W>, args: Line): (State<W>, int)
    decreases |args|, 1
  {
    if args == [] then (s, 0)
    else if IsControl(args[0]) then DoControlCommand(run, s, args)
    else
      var (s1, ok) := OkToExecute(s);
      if ok then
        var (world, status) := run(s1.world, args);
        (s1.(world := world, executed := s1.executed + [args]), status)
      else (s1, 0)
  }

  /** The lines of a script, one after the other; the shell ignores the status of each. */
  function Feed<W>(run: (W, Line) -> (W, int), s: State<W>, lines: seq<Line>): State<W>
    decreases lines
  {
    if lines == [] then s else Feed(run, Process(run, s, lines[0]).0, lines[1..])
  }

  /** The interpreter with its static variables, updated in place. */
  class Interpreter<W> {
    const run: (W, Line) -> (W, int)
    var ifState: IfState
    var ifResult: IfResult
    var lastState: int
    var world: W
    var executed: seq<Line>
    var errors: nat

    ghost function Contents(): State<W>
      reads this
    {
      State(ifState, ifResult, lastState, world, executed, errors)
    }

    constructor (run: (W, Line) -> (W, int), world: W)
      ensures this.run == run && Contents() == Start(world)
    {
      this.run := run;
      this.ifState, this.ifResult, this.lastState := NEUTRAL, SUCCESS, 0;
      this.world, this.executed, this.errors := world, [], 0;
    }

    method ReportSyntaxError() returns (ret: int)
      modifies this
      ensures Contents() == SynErr(old(Contents())) && ret == -1
    {
      ifState := NEUTRAL;
      errors := errors + 1;
      ret := -1;
    }

    method MayExecute() returns (ok: bool)
      modifies this
      ensures (Contents(), ok) == OkToExecute(old(Contents()))
    {
      ok := true;
      if ifState == WANT_THEN {
        var _ := ReportSyntaxError();
        ok := false;
      } else if ifState == THEN_BLOCK && ifResult == FAIL {
        ok := false;
      } else if ifState == ELSE_BLOCK && ifResult == SUCCESS {
        ok := false;
      }
    }

    method ControlLine(args: Line) returns (ret: int)
      requires args != [] && IsControl(args[0])
      modifies this
      ensures (Contents(), ret) == DoControlCommand(run, old(Contents()), args)
      decreases |args|, 0
    {
      ret := -1;
      if args[0] == "if" {
        if ifState != NEUTRAL {
          ret := ReportSyntaxError();
        } else {
          lastState := ProcessLine(args[1..]);
          ifResult := if lastState == 0 then SUCCESS else FAIL;
          ifState := WANT_THEN;
          ret := 0;
        }
      } else if args[0] == "then" {
        if ifState != WANT_THEN {
          ret := ReportSyntaxError();
        } else {
          ifState := THEN_BLOCK;
          ret := 0;
        }
      } else if args[0] == "fi" {
        if ifState != THEN_BLOCK && ifState != ELSE_BLOCK {
          ret := ReportSyntaxError();
        } else {
          ifState := NEUTRAL;
          ret := 0;
        }
      } else {
        if ifState != THEN_BLOCK {
          ret := ReportSyntaxError();
        } else {
          ifState := ELSE_BLOCK;
          ret := 0;
        }
      }
    }

    method ProcessLine(args: Line) returns (ret: int)
      modifies this
      ensures (Contents(), ret) == Process(run, old(Contents()), args)
      decreases |args|, 1
    {
      ret := 0;
      if args == [] {
        return;
      }
      if IsControl(args[0]) {
        ret := ControlLine(args);
      } else {
        var ok := MayExecute();
        if ok {
          var (after, status) := run(world, args);
          world, ret := after, status;
          executed := executed + [args];
        }
      }
    }

    /** The loop of the shell's main over the lines it reads. */
    method RunScript(lines: seq<Line>)
      modifies this
      ensures Contents() == Feed(run, old(Contents()), lines)
    {
      for i := 0 to |lines|
        invariant Feed(run, Contents(), lines[i..]) == Feed(run, old(Contents()), lines)
      {
        assert lines[i..][0] == lines[i] && lines[i..][1..] == lines[i + 1..];
        var _ := ProcessLine(lines[i]);
      }
      assert lines[|lines|..] == [];
    }
  }
}
