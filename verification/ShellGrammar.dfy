/** Which line sequences the shell accepts, and how it recovers from the others. */
module ShellGrammar {
  import opened Shell
  import opened ShellTrees

  ghost predicate IsSentence(lines: seq<Line>) {
    exists script :: ScriptOk(script) && Text(script) == lines
  }

  ghost predicate IsPrefixOfSentence(lines: seq<Line>) {
    exists rest :: IsSentence(lines + rest)
  }

  // ----- Unfinished blocks -----

  /** A block whose `fi` has not been read yet. */
  datatype Open =
    | Closed
    | AfterIf(cond: Cond, gap: nat)
    | InThen(cond: Cond, gap: nat, thenArgs: Line, body: seq<Simple>)
    | InElse(cond: Cond, gap: nat, thenArgs: Line, body: seq<Simple>, elseArgs: Line, elseBody: seq<Simple>)

  predicate OpenOk(o: Open) {
    match o
    case Closed => true
    case AfterIf(cond, _) => CondOk(cond)
    case InThen(cond, _, _, body) => CondOk(cond) && BodyOk(body)
    case InElse(cond, _, _, body, _, elseBody) => CondOk(cond) && BodyOk(body) && BodyOk(elseBody)
  }

  function OpenText(o: Open): seq<Line> {
    match o
    case Closed => []
    case AfterIf(cond, gap) => [["if"] + CondText(cond)] + Blanks(gap)
    case InThen(cond, gap, thenArgs, body) =>
      [["if"] + CondText(cond)] + Blanks(gap) + [["then"] + thenArgs] + BodyText(body)
    case InElse(cond, gap, thenArgs, body, elseArgs, elseBody) =>
      [["if"] + CondText(cond)] + Blanks(gap) + [["then"] + thenArgs] + BodyText(body)
      + ElseText(Else(elseArgs, elseBody))
  }

  function OpenState(o: Open): IfState {
    match o
    case Closed => NEUTRAL
    case AfterIf(_, _) => WANT_THEN
    case InThen(_, _, _, _) => THEN_BLOCK
    case InElse(_, _, _, _, _, _) => ELSE_BLOCK
  }

  /** The shortest way to finish the block, and the items the finished text consists of. */
  function Ending(o: Open): seq<Line> {
    match o
    case Closed => []
    case AfterIf(_, _) => [["then"], ["fi"]]
    case InThen(_, _, _, _) => [["fi"]]
    case InElse(_, _, _, _, _, _) => [["fi"]]
  }

  function Ended(o: Open): seq<Item> {
    match o
    case Closed => []
    case AfterIf(cond, gap) => [If(cond, gap, [], [], NoElse, [])]
    case InThen(cond, gap, thenArgs, body) => [If(cond, gap, thenArgs, body, NoElse, [])]
    case InElse(cond, gap, thenArgs, body, elseArgs, elseBody) =>
      [If(cond, gap, thenArgs, body, Else(elseArgs, elseBody), [])]
  }

  lemma EndingEnds(o: Open)
    requires OpenOk(o)
    ensures ScriptOk(Ended(o)) && Text(Ended(o)) == OpenText(o) + Ending(o)
  {
    if !o.Closed? {
      assert Ended(o)[1..] == [];
      assert Text(Ended(o)) == ItemText(Ended(o)[0]);
      assert ["fi"] + [] == ["fi"] && ["then"] + [] == ["then"];
      if o.AfterIf? {
        assert [["then"]] + [["fi"]] == [["then"], ["fi"]];
      }
    }
  }

  lemma {:induction false} BodyTextSnoc(body: seq<Simple>, x: Simple)
    ensures BodyText(body + [x]) == BodyText(body) + [SimpleText(x)]
  {
    if body == [] {
      assert body + [x] == [x] && [x][1..] == [];
    } else {
      assert (body + [x])[1..] == body[1..] + [x];
      BodyTextSnoc(body[1..], x);
    }
  }

  lemma {:induction false} TextAppend(a: seq<Item>, b: seq<Item>)
    ensures Text(a + b) == Text(a) + Text(b)
  {
    if a == [] {
      assert a + b == b;
    } else {
      assert (a + b)[1..] == a[1..] + b;
      TextAppend(a[1..], b);
    }
  }

  lemma TextSnoc(script: seq<Item>, item: Item)
    ensures Text(script + [item]) == Text(script) + ItemText(item)
  {
    TextAppend(script, [item]);
    assert [item][1..] == [];
    assert Text([item]) == ItemText(item);
  }

  // ----- Errors only add up -----

  /** A line reports at most one error. */
  lemma {:induction false} AtMostOneError<W>(run: (W, Line) -> (W, int), s: State<W>, line: Line)
    ensures var t := Process(run, s, line).0; s.errors <= t.errors <= s.errors + 1
    decreases |line|
  {
    if line != [] && line[0] == "if" && s.ifState == NEUTRAL {
      AtMostOneError(run, s, line[1..]);
    }
  }

  lemma {:induction false} ErrorsGrow<W>(run: (W, Line) -> (W, int), s: State<W>, lines: seq<Line>)
    ensures s.errors <= Feed(run, s, lines).errors
    decreases lines
  {
    if lines == [] {
    } else {
      AtMostOneError(run, s, lines[0]);
      ErrorsGrow(run, Process(run, s, lines[0]).0, lines[1..]);
    }
  }

  // ----- From a run without errors back to a tree -----

  lemma {:induction false} ParseCond<W>(run: (W, Line) -> (W, int), s: State<W>, line: Line) returns (c: Cond)
    requires s.ifState == NEUTRAL && Process(run, s, line).0.errors == s.errors
    ensures CondOk(c) && CondText(c) == line
    decreases |line|
  {
    if line == [] {
      c := NoCond;
    } else if line[0] == "if" {
      var inner := ParseCond(run, s, line[1..]);
      c := Chained(inner);
      assert line == ["if"] + line[1..];
    } else {
      c := Test(line);
    }
  }

  /** A blank line or a command joins the gap before `then` or the current body. */
  lemma GrowOpen(o: Open, simple: Simple) returns (o': Open)
    requires OpenOk(o) && !o.Closed? && BodyOk([simple]) && (o.AfterIf? ==> simple.Blank?)
    ensures OpenOk(o') && OpenState(o') == OpenState(o) && OpenText(o') == OpenText(o) + [SimpleText(simple)]
  {
    assert simple == [simple][0];
    match o
    case AfterIf(cond, gap) =>
      o' := AfterIf(cond, gap + 1);
      assert Blanks(gap + 1) == Blanks(gap) + [SimpleText(simple)];
    case InThen(cond, gap, thenArgs, body) =>
      o' := InThen(cond, gap, thenArgs, body + [simple]);
      BodyTextSnoc(body, simple);
    case InElse(cond, gap, thenArgs, body, elseArgs, elseBody) =>
      o' := InElse(cond, gap, thenArgs, body, elseArgs, elseBody + [simple]);
      BodyTextSnoc(elseBody, simple);
  }

  /** `if`, `then` and `else` in their places open the next part of the block. */
  lemma TurnOpen<W>(run: (W, Line) -> (W, int), s: State<W>, o: Open, line: Line) returns (o': Open)
    requires OpenOk(o) && s.ifState == OpenState(o)
    requires line != [] && IsControl(line[0]) && line[0] != "fi" && Process(run, s, line).0.errors == s.errors
    ensures OpenOk(o') && Process(run, s, line).0.ifState == OpenState(o')
    ensures OpenText(o') == OpenText(o) + [line]
  {
    assert line == [line[0]] + line[1..];
    if line[0] == "if" {
      var c := ParseCond(run, s, line[1..]);
      o' := AfterIf(c, 0);
    } else if line[0] == "then" {
      o' := InThen(o.cond, o.gap, line[1..], []);
    } else {
      o' := InElse(o.cond, o.gap, o.thenArgs, o.body, line[1..], []);
    }
  }

  /** `fi` turns the open block into an item. */
  lemma CloseBlock(o: Open, line: Line) returns (item: Item)
    requires OpenOk(o) && (o.InThen? || o.InElse?) && line != [] && line[0] == "fi"
    ensures ItemOk(item) && ItemText(item) == OpenText(o) + [line]
  {
    assert line == ["fi"] + line[1..];
    var alternative := if o.InElse? then Else(o.elseArgs, o.elseBody) else NoElse;
    item := If(o.cond, o.gap, o.thenArgs, o.body, alternative, line[1..]);
  }

  /** One more line without an error extends the script or the open block. */
  lemma ParseLine<W>(run: (W, Line) -> (W, int), s: State<W>, script: seq<Item>, o: Open, line: Line)
    returns (script': seq<Item>, o': Open)
    requires ScriptOk(script) && OpenOk(o) && s.ifState == OpenState(o)
    requires Process(run, s, line).0.errors == s.errors
    ensures ScriptOk(script') && OpenOk(o') && Process(run, s, line).0.ifState == OpenState(o')
    ensures Text(script') + OpenText(o') == Text(script) + (OpenText(o) + [line])
  {
    script', o' := script, o;
    if line != [] && line[0] == "fi" {
      var item := CloseBlock(o, line);
      script', o' := script + [item], Closed;
      TextSnoc(script, item);
    } else if line != [] && IsControl(line[0]) {
      o' := TurnOpen(run, s, o, line);
    } else {
      var simple := if line == [] then Blank else Command(line);
      if o.Closed? {
        script' := script + [Plain(simple)];
        TextSnoc(script, Plain(simple));
      } else {
        o' := GrowOpen(o, simple);
      }
    }
  }

  lemma {:induction false} Parse<W>(run: (W, Line) -> (W, int), s: State<W>, lines: seq<Line>)
    returns (script: seq<Item>, o: Open)
    requires s.ifState == NEUTRAL && Feed(run, s, lines).errors == s.errors
    ensures ScriptOk(script) && OpenOk(o) && Feed(run, s, lines).ifState == OpenState(o)
    ensures lines == Text(script) + OpenText(o)
    decreases |lines|
  {
    if lines == [] {
      script, o := [], Closed;
    } else {
      var front, last := lines[..|lines| - 1], lines[|lines| - 1];
      assert lines == front + [last];
      FeedAppend(run, s, front, [last]);
      FeedOne(run, Feed(run, s, front), last);
      ErrorsGrow(run, s, front);
      AtMostOneError(run, Feed(run, s, front), last);
      script, o := Parse(run, s, front);
      assert (Text(script) + OpenText(o)) + [last] == Text(script) + (OpenText(o) + [last]);
      script, o := ParseLine(run, Feed(run, s, front), script, o, last);
    }
  }

  // ----- The accepted language -----

  /** An open block can always be finished. */
  lemma Complete(script: seq<Item>, o: Open)
    requires ScriptOk(script) && OpenOk(o)
    ensures IsSentence(Text(script) + OpenText(o) + Ending(o))
  {
    EndingEnds(o);
    var whole := script + Ended(o);
    TextAppend(script, Ended(o));
    assert ScriptOk(whole);
    assert Text(whole) == Text(script) + OpenText(o) + Ending(o);
  }

  lemma NoErrorGivesPrefix<W>(run: (W, Line) -> (W, int), s: State<W>, lines: seq<Line>)
    requires s.ifState == NEUTRAL && Feed(run, s, lines).errors == s.errors
    ensures IsPrefixOfSentence(lines)
  {
    var script, o := Parse(run, s, lines);
    Complete(script, o);
    assert IsSentence(lines + Ending(o));
  }

  lemma PrefixGivesNoError<W>(run: (W, Line) -> (W, int), s: State<W>, lines: seq<Line>)
    requires s.ifState == NEUTRAL && IsPrefixOfSentence(lines)
    ensures Feed(run, s, lines).errors == s.errors
  {
    var rest :| IsSentence(lines + rest);
    var script :| ScriptOk(script) && Text(script) == lines + rest;
    ScriptMeaning(run, s, script);
    FeedAppend(run, s, lines, rest);
    ErrorsGrow(run, s, lines);
    ErrorsGrow(run, Feed(run, s, lines), rest);
  }

  /** No syntax error is reported exactly on the prefixes of sentences, whatever the commands do. */
  lemma NoErrorIffPrefix<W>(run: (W, Line) -> (W, int), s: State<W>, lines: seq<Line>)
    requires s.ifState == NEUTRAL
    ensures Feed(run, s, lines).errors == s.errors <==> IsPrefixOfSentence(lines)
  {
    if Feed(run, s, lines).errors == s.errors {
      NoErrorGivesPrefix(run, s, lines);
    }
    if IsPrefixOfSentence(lines) {
      PrefixGivesNoError(run, s, lines);
    }
  }

  /** A run without errors is back in NEUTRAL exactly after a whole sentence. */
  lemma NeutralIffSentence<W>(run: (W, Line) -> (W, int), s: State<W>, lines: seq<Line>)
    requires s.ifState == NEUTRAL
    ensures var t := Feed(run, s, lines);
            t.errors == s.errors && t.ifState == NEUTRAL <==> IsSentence(lines)
  {
    var t := Feed(run, s, lines);
    if t.errors == s.errors && t.ifState == NEUTRAL {
      var script, o := Parse(run, s, lines);
      assert o == Closed && lines == Text(script);
    }
    if IsSentence(lines) {
      var script :| ScriptOk(script) && Text(script) == lines;
      ScriptMeaning(run, s, script);
    }
  }

  lemma {:induction false} ProcessAvoidsWantElse<W>(run: (W, Line) -> (W, int), s: State<W>, line: Line)
    requires s.ifState != WANT_ELSE
    ensures Process(run, s, line).0.ifState != WANT_ELSE
    decreases |line|
  {
    if line != [] && line[0] == "if" && s.ifState == NEUTRAL {
      ProcessAvoidsWantElse(run, s, line[1..]);
    }
  }

  /** The state WANT_ELSE is declared but never entered. */
  lemma {:induction false} WantElseUnreachable<W>(run: (W, Line) -> (W, int), s: State<W>, lines: seq<Line>)
    requires s.ifState != WANT_ELSE
    ensures Feed(run, s, lines).ifState != WANT_ELSE
    decreases lines
  {
    if lines == [] {
    } else {
      ProcessAvoidsWantElse(run, s, lines[0]);
      WantElseUnreachable(run, Process(run, s, lines[0]).0, lines[1..]);
    }
  }

  // ----- Recovery -----

  /** The outermost command of the line is out of place. */
  predicate Rejects(ifState: IfState, line: Line) {
    line != [] &&
    if line[0] == "if" then ifState != NEUTRAL
    else if line[0] == "then" then ifState != WANT_THEN
    else if line[0] == "fi" then ifState != THEN_BLOCK && ifState != ELSE_BLOCK
    else if line[0] == "else" then ifState != THEN_BLOCK
    else ifState == WANT_THEN
  }

  /** Two states that differ only in what the next `if` overwrites, and in what happened before. */
  ghost predicate Alike<W>(s: State<W>, t: State<W>, before: seq<Line>, errors: nat) {
    && s.ifState == t.ifState && s.world == t.world
    && (s.ifState == THEN_BLOCK || s.ifState == ELSE_BLOCK || s.ifState == WANT_THEN ==> s.ifResult == t.ifResult)
    && s.executed == before + t.executed && s.errors == errors + t.errors
  }

  lemma {:induction false} AlikeProcess<W>(run: (W, Line) -> (W, int), s: State<W>, t: State<W>, line: Line,
                                           before: seq<Line>, errors: nat)
    requires Alike(s, t, before, errors)
    ensures Alike(Process(run, s, line).0, Process(run, t, line).0, before, errors)
    ensures Process(run, s, line).1 == Process(run, t, line).1
    decreases |line|
  {
    if line != [] && line[0] == "if" && s.ifState == NEUTRAL {
      AlikeProcess(run, s, t, line[1..], before, errors);
    } else if line != [] && !IsControl(line[0]) {
      assert before + (t.executed + [line]) == (before + t.executed) + [line];
    }
  }

  lemma {:induction false} AlikeFeed<W>(run: (W, Line) -> (W, int), s: State<W>, t: State<W>, lines: seq<Line>,
                                        before: seq<Line>, errors: nat)
    requires Alike(s, t, before, errors)
    ensures Alike(Feed(run, s, lines), Feed(run, t, lines), before, errors)
    decreases lines
  {
    if lines == [] {
    } else {
      AlikeProcess(run, s, t, lines[0], before, errors);
      AlikeFeed(run, Process(run, s, lines[0]).0, Process(run, t, lines[0]).0, lines[1..], before, errors);
    }
  }

  /** From s on, every continuation does what it does from the initial state in the same world. */
  ghost predicate AsIfRestarted<W>(run: (W, Line) -> (W, int), s: State<W>) {
    forall rest: seq<Line> ::
      var (t, u) := (Feed(run, s, rest), Feed(run, Start(s.world), rest));
      t.ifState == u.ifState && t.world == u.world && t.executed == s.executed + u.executed
      && t.errors == s.errors + u.errors
  }

  lemma NeutralIsAsIfRestarted<W>(run: (W, Line) -> (W, int), s: State<W>)
    requires s.ifState == NEUTRAL
    ensures AsIfRestarted(run, s)
  {
    forall rest: seq<Line>
      ensures Alike(Feed(run, s, rest), Feed(run, Start(s.world), rest), s.executed, s.errors)
    {
      AlikeFeed(run, s, Start(s.world), rest, s.executed, s.errors);
    }
  }

  lemma NotNeutralIsNotRestarted<W>(run: (W, Line) -> (W, int), s: State<W>)
    requires s.ifState == WANT_THEN
    ensures !AsIfRestarted(run, s)
  {
    FeedOne(run, s, ["then"]);
    FeedOne(run, Start(s.world), ["then"]);
    var rest: seq<Line> := [["then"]];
    assert Feed(run, s, rest).errors != s.errors + Feed(run, Start(s.world), rest).errors;
  }

  /** A rejected line runs nothing; an error inside a condition leaves the machine waiting for `then`. */
  lemma WhereErrorsLead<W>(run: (W, Line) -> (W, int), s: State<W>, line: Line)
    ensures var t := Process(run, s, line).0;
            && (Rejects(s.ifState, line) ==> t == SynErr(s))
            && (t.errors > s.errors && !Rejects(s.ifState, line) ==> t.ifState == WANT_THEN)
  {
  }

  /** After an error the shell has recovered exactly when the outermost command reported it. */
  lemma RecoversIffRejected<W>(run: (W, Line) -> (W, int), s: State<W>, line: Line)
    requires Process(run, s, line).0.errors > s.errors
    ensures AsIfRestarted(run, Process(run, s, line).0) <==> Rejects(s.ifState, line)
  {
    WhereErrorsLead(run, s, line);
    if Rejects(s.ifState, line) {
      NeutralIsAsIfRestarted(run, SynErr(s));
    } else {
      NotNeutralIsNotRestarted(run, Process(run, s, line).0);
    }
  }

  /** The condition `then` is such an error: the command after it is refused instead of run. */
  lemma ErrorInConditionDoesNotRecover<W>(run: (W, Line) -> (W, int), world: W)
    ensures var s := Process(run, Start(world), ["if", "then"]).0;
            && s.errors == 1 && s.world == world
            && Feed(run, s, [["ls"]]).executed == []
            && Feed(run, Start(world), [["ls"]]).executed == [["ls"]]
  {
    assert ["if", "then"][1..] == ["then"];
    var s := Process(run, Start(world), ["if", "then"]).0;
    FeedOne(run, s, ["ls"]);
    FeedOne(run, Start(world), ["ls"]);
    assert Process(run, Start(world), ["then"]).0 == SynErr(Start(world));
  }
}
