/** Scripts as trees, their meaning, and the proof that the line machine computes it. */
module ShellTrees {
  import opened Shell

  /** What follows the word `if`: nothing, a command, or another `if`. */
  datatype Cond = NoCond | Test(line: Line) | Chained(cond: Cond)

  datatype Simple = Blank | Command(line: Line)

  /** Arguments after `then`, `else` and `fi` are ignored, and so are blank lines before `then`. */
  datatype Item =
    | Plain(simple: Simple)
    | If(cond: Cond, gap: nat, thenArgs: Line, body: seq<Simple>, alternative: Else, fiArgs: Line)

  datatype Else = NoElse | Else(args: Line, body: seq<Simple>)

  predicate IsCommand(line: Line) {
    line != [] && !IsControl(line[0])
  }

  predicate CondOk(c: Cond) {
    match c
    case NoCond => true
    case Test(line) => IsCommand(line)
    case Chained(inner) => CondOk(inner)
  }

  predicate BodyOk(body: seq<Simple>) {
    forall i :: 0 <= i < |body| ==> body[i].Command? ==> IsCommand(body[i].line)
  }

  predicate ItemOk(item: Item) {
    match item
    case Plain(simple) => BodyOk([simple])
    case If(cond, _, _, body, alternative, _) =>
      CondOk(cond) && BodyOk(body) && (alternative.Else? ==> BodyOk(alternative.body))
  }

  predicate ScriptOk(script: seq<Item>) {
    forall i :: 0 <= i < |script| ==> ItemOk(script[i])
  }

  // ----- The text of a tree -----

  function CondText(c: Cond): Line {
    match c
    case NoCond => []
    case Test(line) => line
    case Chained(inner) => ["if"] + CondText(inner)
  }

  function SimpleText(simple: Simple): Line {
    match simple
    case Blank => []
    case Command(line) => line
  }

  function BodyText(body: seq<Simple>): seq<Line> {
    if body == [] then [] else [SimpleText(body[0])] + BodyText(body[1..])
  }

  function Blanks(n: nat): seq<Line> {
    seq(n, _ => [])
  }

  function ElseText(alternative: Else): seq<Line> {
    match alternative
    case NoElse => []
    case Else(args, body) => [["else"] + args] + BodyText(body)
  }

  function ItemText(item: Item): seq<Line> {
    match item
    case Plain(simple) => [SimpleText(simple)]
    case If(cond, gap, thenArgs, body, alternative, fiArgs) =>
      [["if"] + CondText(cond)] + Blanks(gap) + [["then"] + thenArgs] + BodyText(body)
      + ElseText(alternative) + [["fi"] + fiArgs]
  }

  function Text(script: seq<Item>): seq<Line> {
    if script == [] then [] else ItemText(script[0]) + Text(script[1..])
  }

  // ----- The meaning of a tree -----

  datatype Effect<W> = Effect(world: W, executed: seq<Line>)

  function RunCommand<W>(run: (W, Line) -> (W, int), e: Effect<W>, line: Line): (Effect<W>, int) {
    var (world, status) := run(e.world, line);
    (Effect(world, e.executed + [line]), status)
  }

  /** A chained `if` succeeds whatever its own condition says. */
  function EvalCond<W>(run: (W, Line) -> (W, int), e: Effect<W>, c: Cond): (Effect<W>, int) {
    match c
    case NoCond => (e, 0)
    case Test(line) => RunCommand(run, e, line)
    case Chained(inner) => (EvalCond(run, e, inner).0, 0)
  }

  function EvalBody<W>(run: (W, Line) -> (W, int), e: Effect<W>, body: seq<Simple>): Effect<W>
    decreases body
  {
    if body == [] then e
    else
      var e1 := match body[0]
                case Blank => e
                case Command(line) => RunCommand(run, e, line).0;
      EvalBody(run, e1, body[1..])
  }

  function EvalItem<W>(run: (W, Line) -> (W, int), e: Effect<W>, item: Item): Effect<W> {
    match item
    case Plain(simple) => EvalBody(run, e, [simple])
    case If(cond, _, _, body, alternative, _) =>
      var (e1, status) := EvalCond(run, e, cond);
      if status == 0 then EvalBody(run, e1, body)
      else if alternative.Else? then EvalBody(run, e1, alternative.body)
      else e1
  }

  function Eval<W>(run: (W, Line) -> (W, int), e: Effect<W>, script: seq<Item>): Effect<W>
    decreases script
  {
    if script == [] then e else Eval(run, EvalItem(run, e, script[0]), script[1..])
  }

  // ----- The machine computes the meaning -----

  function EffectOf<W>(s: State<W>): Effect<W> {
    Effect(s.world, s.executed)
  }

  lemma {:induction false} FeedAppend<W>(run: (W, Line) -> (W, int), s: State<W>, a: seq<Line>, b: seq<Line>)
    ensures Feed(run, s, a + b) == Feed(run, Feed(run, s, a), b)
    decreases a
  {
    if a == [] {
      assert a + b == b;
    } else {
      assert (a + b)[1..] == a[1..] + b;
      FeedAppend(run, Process(run, s, a[0]).0, a[1..], b);
    }
  }

  lemma FeedOne<W>(run: (W, Line) -> (W, int), s: State<W>, line: Line)
    ensures Feed(run, s, [line]) == Process(run, s, line).0
  {
    assert Feed(run, Process(run, s, line).0, []) == Process(run, s, line).0;
  }

  lemma {:induction false} BlanksDoNothing<W>(run: (W, Line) -> (W, int), s: State<W>, n: nat)
    ensures Feed(run, s, Blanks(n)) == s
    decreases n
  {
    if n == 0 {
    } else {
      assert Blanks(n)[1..] == Blanks(n - 1);
      BlanksDoNothing(run, s, n - 1);
    }
  }

  lemma {:induction false} CondMeaning<W>(run: (W, Line) -> (W, int), s: State<W>, c: Cond)
    requires CondOk(c) && s.ifState == NEUTRAL
    ensures var (t, status) := Process(run, s, CondText(c));
            (EffectOf(t), status) == EvalCond(run, EffectOf(s), c) && t.errors == s.errors
    decreases c
  {
    if c.Chained? {
      CondMeaning(run, s, c.cond);
      assert CondText(c)[1..] == CondText(c.cond);
    }
  }

  /** Does the current block run its commands? */
  predicate Active<W>(s: State<W>) {
    match s.ifState
    case NEUTRAL => true
    case WANT_THEN => false
    case THEN_BLOCK => s.ifResult == SUCCESS
    case WANT_ELSE => true
    case ELSE_BLOCK => s.ifResult == FAIL
  }

  lemma {:induction false} BodyMeaning<W>(run: (W, Line) -> (W, int), s: State<W>, body: seq<Simple>)
    requires BodyOk(body) && s.ifState != WANT_THEN
    ensures var e := if Active(s) then EvalBody(run, EffectOf(s), body) else EffectOf(s);
            Feed(run, s, BodyText(body)) == s.(world := e.world, executed := e.executed)
    decreases body
  {
    if body == [] {
    } else {
      var s1 := Process(run, s, SimpleText(body[0])).0;
      assert BodyText(body)[1..] == BodyText(body[1..]);
      assert forall i :: 0 <= i < |body[1..]| ==> body[1..][i] == body[i + 1];
      BodyMeaning(run, s1, body[1..]);
    }
  }

  lemma ElseMeaning<W>(run: (W, Line) -> (W, int), s: State<W>, alternative: Else)
    requires s.ifState == THEN_BLOCK && (alternative.Else? ==> BodyOk(alternative.body))
    ensures var t := Feed(run, s, ElseText(alternative));
            && t.ifState == (if alternative.Else? then ELSE_BLOCK else THEN_BLOCK) && t.errors == s.errors
            && EffectOf(t) == if alternative.Else? && s.ifResult == FAIL
                              then EvalBody(run, EffectOf(s), alternative.body) else EffectOf(s)
  {
    if alternative.Else? {
      var line := ["else"] + alternative.args;
      FeedOne(run, s, line);
      FeedAppend(run, s, [line], BodyText(alternative.body));
      BodyMeaning(run, Process(run, s, line).0, alternative.body);
    }
  }

  /** From `then` to `fi`: the lines after the condition line. */
  function BlockText(gap: nat, thenArgs: Line, body: seq<Simple>, alternative: Else, fiArgs: Line): seq<Line> {
    Blanks(gap) + [["then"] + thenArgs] + BodyText(body) + ElseText(alternative) + [["fi"] + fiArgs]
  }

  /** After any condition line, the rest of the block runs the one part or the other as if_result says. */
  lemma BlockMeaning<W>(run: (W, Line) -> (W, int), s: State<W>, gap: nat, thenArgs: Line, body: seq<Simple>,
                        alternative: Else, fiArgs: Line)
    requires s.ifState == WANT_THEN && BodyOk(body) && (alternative.Else? ==> BodyOk(alternative.body))
    ensures var t := Feed(run, s, BlockText(gap, thenArgs, body, alternative, fiArgs));
            && t.ifState == NEUTRAL && t.errors == s.errors
            && EffectOf(t) == if s.ifResult == SUCCESS then EvalBody(run, EffectOf(s), body)
                              else if alternative.Else? then EvalBody(run, EffectOf(s), alternative.body)
                              else EffectOf(s)
  {
    var l2 := ["then"] + thenArgs;
    var l3 := ["fi"] + fiArgs;
    BlanksDoNothing(run, s, gap);
    var s2 := Process(run, s, l2).0;
    FeedOne(run, s, l2);
    FeedAppend(run, s, Blanks(gap), [l2]);
    FeedAppend(run, s, Blanks(gap) + [l2], BodyText(body));
    BodyMeaning(run, s2, body);
    var s3 := Feed(run, s2, BodyText(body));
    FeedAppend(run, s, Blanks(gap) + [l2] + BodyText(body), ElseText(alternative));
    ElseMeaning(run, s3, alternative);
    var s4 := Feed(run, s3, ElseText(alternative));
    FeedAppend(run, s, Blanks(gap) + [l2] + BodyText(body) + ElseText(alternative), [l3]);
    FeedOne(run, s4, l3);
  }

  lemma IfIsLineAndBlock(item: Item)
    requires item.If?
    ensures ItemText(item) == [["if"] + CondText(item.cond)]
                              + BlockText(item.gap, item.thenArgs, item.body, item.alternative, item.fiArgs)
  {
  }

  lemma IfMeaning<W>(run: (W, Line) -> (W, int), s: State<W>, item: Item)
    requires item.If? && ItemOk(item) && s.ifState == NEUTRAL
    ensures var t := Feed(run, s, ItemText(item));
            t.ifState == NEUTRAL && t.errors == s.errors && EffectOf(t) == EvalItem(run, EffectOf(s), item)
  {
    var line := ["if"] + CondText(item.cond);
    var block := BlockText(item.gap, item.thenArgs, item.body, item.alternative, item.fiArgs);
    assert line[1..] == CondText(item.cond);
    CondMeaning(run, s, item.cond);
    FeedOne(run, s, line);
    FeedAppend(run, s, [line], block);
    BlockMeaning(run, Process(run, s, line).0, item.gap, item.thenArgs, item.body, item.alternative, item.fiArgs);
    IfIsLineAndBlock(item);
  }

  /** Feeding the lines of a script runs the commands its tree runs, in the same order, without errors. */
  lemma {:induction false} ScriptMeaning<W>(run: (W, Line) -> (W, int), s: State<W>, script: seq<Item>)
    requires ScriptOk(script) && s.ifState == NEUTRAL
    ensures var t := Feed(run, s, Text(script));
            t.ifState == NEUTRAL && t.errors == s.errors && EffectOf(t) == Eval(run, EffectOf(s), script)
    decreases script
  {
    if script == [] {
    } else {
      FeedAppend(run, s, ItemText(script[0]), Text(script[1..]));
      if script[0].Plain? {
        BodyMeaning(run, s, [script[0].simple]);
        assert BodyText([script[0].simple]) == ItemText(script[0]);
      } else {
        IfMeaning(run, s, script[0]);
      }
      assert forall i :: 0 <= i < |script[1..]| ==> script[1..][i] == script[i + 1];
      ScriptMeaning(run, Feed(run, s, ItemText(script[0])), script[1..]);
    }
  }

  // ----- Conditions that are syntax errors -----

  /** The status of a line: -1 for a control word out of place, that of the command if it is run, otherwise 0. */
  lemma StatusIs<W>(run: (W, Line) -> (W, int), s: State<W>, line: Line)
    ensures var (t, status) := Process(run, s, line);
            if line == [] then t == s && status == 0
            else if line[0] == "if" then
              status == (if s.ifState == NEUTRAL then 0 else -1)
            else if line[0] == "then" then
              status == (if s.ifState == WANT_THEN then 0 else -1)
            else if line[0] == "fi" then
              status == (if s.ifState == THEN_BLOCK || s.ifState == ELSE_BLOCK then 0 else -1)
            else if line[0] == "else" then
              status == (if s.ifState == THEN_BLOCK then 0 else -1)
            else if Active(s) then
              (t.world, status) == run(s.world, line) && t.executed == s.executed + [line]
            else t.world == s.world && t.executed == s.executed && status == 0
  {
  }

  /** Does `if args` fail in this world? A misplaced word fails, a chained `if` never does. */
  predicate Fails<W>(run: (W, Line) -> (W, int), world: W, args: Line) {
    args != [] && args[0] != "if" &&
    (args[0] == "then" || args[0] == "fi" || args[0] == "else" || run(world, args).1 != 0)
  }

  /** What any `if` line outside a block leaves behind, be its condition well formed or not. */
  lemma ConditionFailsIff<W>(run: (W, Line) -> (W, int), s: State<W>, args: Line)
    requires s.ifState == NEUTRAL
    ensures var (t, status) := Process(run, s, ["if"] + args);
            && t.ifState == WANT_THEN && status == 0
            && (t.ifResult == FAIL <==> Fails(run, s.world, args)) && (t.lastState == 0 <==> t.ifResult == SUCCESS)
            && EffectOf(t) == EffectOf(Process(run, s, args).0)
            && t.errors == Process(run, s, args).0.errors
  {
    assert (["if"] + args)[1..] == args;
    StatusIs(run, s, args);
  }

  /** Whatever stands behind `if`, the block runs its body if that succeeded, and the else part if it failed. */
  lemma AnyBlockMeaning<W>(run: (W, Line) -> (W, int), s: State<W>, args: Line, gap: nat, thenArgs: Line,
                           body: seq<Simple>, alternative: Else, fiArgs: Line)
    requires s.ifState == NEUTRAL && BodyOk(body) && (alternative.Else? ==> BodyOk(alternative.body))
    ensures var t := Feed(run, s, [["if"] + args] + BlockText(gap, thenArgs, body, alternative, fiArgs));
            var e := EffectOf(Process(run, s, args).0);
            && t.ifState == NEUTRAL && t.errors == Process(run, s, args).0.errors
            && EffectOf(t) == if !Fails(run, s.world, args) then EvalBody(run, e, body)
                              else if alternative.Else? then EvalBody(run, e, alternative.body)
                              else e
  {
    ConditionFailsIff(run, s, args);
    FeedOne(run, s, ["if"] + args);
    FeedAppend(run, s, [["if"] + args], BlockText(gap, thenArgs, body, alternative, fiArgs));
    BlockMeaning(run, Process(run, s, ["if"] + args).0, gap, thenArgs, body, alternative, fiArgs);
  }

  /** After `if then`, `if fi` or `if else` the body is not run, the else part is; after `if if then` the body is. */
  lemma MisplacedConditionRunsElse<W>(run: (W, Line) -> (W, int), s: State<W>, word: string, rest: Line, gap: nat,
                                      body: seq<Simple>, elseBody: seq<Simple>)
    requires s.ifState == NEUTRAL && BodyOk(body) && BodyOk(elseBody)
    requires word == "then" || word == "fi" || word == "else"
    ensures var block := BlockText(gap, [], body, Else([], elseBody), []);
            var t, u := Feed(run, s, [["if"] + ([word] + rest)] + block),
                        Feed(run, s, [["if"] + (["if", word] + rest)] + block);
            && EffectOf(t) == EvalBody(run, EffectOf(s), elseBody) && t.errors == s.errors + 1
            && EffectOf(u) == EvalBody(run, EffectOf(s), body) && u.errors == s.errors + 1
  {
    var args := [word] + rest;
    assert Process(run, s, args).0 == SynErr(s);
    AnyBlockMeaning(run, s, args, gap, [], body, Else([], elseBody), []);
    assert ["if", word] + rest == ["if"] + args;
    ConditionFailsIff(run, s, args);
    AnyBlockMeaning(run, s, ["if"] + args, gap, [], body, Else([], elseBody), []);
  }
}
