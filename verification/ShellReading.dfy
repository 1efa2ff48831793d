/** The grammar of scripts is unambiguous: the lines determine the tree. */
module ShellReading {
  import opened Shell
  import opened ShellTrees

  predicate IsControlLine(line: Line) {
    line != [] && IsControl(line[0])
  }

  lemma {:induction false} CondReading(a: Cond, b: Cond)
    requires CondOk(a) && CondOk(b) && CondText(a) == CondText(b)
    ensures a == b
  {
    if a.Chained? && b.Chained? {
      assert CondText(a)[1..] == CondText(a.cond) && CondText(b)[1..] == CondText(b.cond);
      CondReading(a.cond, b.cond);
    }
  }

  lemma SimpleReading(a: Simple, b: Simple)
    requires BodyOk([a]) && BodyOk([b]) && SimpleText(a) == SimpleText(b)
    ensures a == b
  {
    assert [a][0] == a && [b][0] == b;
  }

  /** The first control line ends a body. */
  lemma {:induction false} BodyReading(a: seq<Simple>, c: Line, r: seq<Line>, b: seq<Simple>, d: Line, q: seq<Line>)
    requires BodyOk(a) && BodyOk(b) && IsControlLine(c) && IsControlLine(d)
    requires BodyText(a) + ([c] + r) == BodyText(b) + ([d] + q)
    ensures a == b && c == d && r == q
    decreases |a|
  {
    var s, t := BodyText(a) + ([c] + r), BodyText(b) + ([d] + q);
    assert s[0] == if a == [] then c else SimpleText(a[0]);
    assert t[0] == if b == [] then d else SimpleText(b[0]);
    if a == [] || b == [] {
      assert a == [] && b == [];
      assert s[1..] == r && t[1..] == q;
    } else {
      SimpleReading(a[0], b[0]);
      assert s[1..] == BodyText(a[1..]) + ([c] + r) && t[1..] == BodyText(b[1..]) + ([d] + q);
      assert forall i :: 0 <= i < |a[1..]| ==> a[1..][i] == a[i + 1];
      assert forall i :: 0 <= i < |b[1..]| ==> b[1..][i] == b[i + 1];
      BodyReading(a[1..], c, r, b[1..], d, q);
      assert a == [a[0]] + a[1..] && b == [b[0]] + b[1..];
    }
  }

  function BlankBody(n: nat): seq<Simple> {
    seq(n, _ => Blank)
  }

  lemma {:induction false} BlankBodyText(n: nat)
    ensures BodyText(BlankBody(n)) == Blanks(n) && BodyOk(BlankBody(n))
  {
    if n == 0 {
    } else {
      assert BlankBody(n)[1..] == BlankBody(n - 1);
      BlankBodyText(n - 1);
      assert Blanks(n) == [[]] + Blanks(n - 1);
    }
  }

  /** What follows the `then` of an if-block. */
  function AfterThen(item: Item): seq<Line>
    requires item.If?
  {
    BodyText(item.body) + ElseText(item.alternative) + [["fi"] + item.fiArgs]
  }

  lemma AfterThenIs(item: Item, r: seq<Line>)
    requires item.If?
    ensures item.alternative.NoElse? ==> AfterThen(item) + r == BodyText(item.body) + ([["fi"] + item.fiArgs] + r)
    ensures item.alternative.Else? ==>
              AfterThen(item) + r
              == BodyText(item.body) + ([["else"] + item.alternative.args]
                                        + (BodyText(item.alternative.body) + ([["fi"] + item.fiArgs] + r)))
  {
  }

  lemma SameArgs(word: string, a: Line, b: Line)
    requires [word] + a == [word] + b
    ensures a == b
  {
    assert ([word] + a)[1..] == a && ([word] + b)[1..] == b;
  }

  lemma AfterThenReading(a: Item, r: seq<Line>, b: Item, q: seq<Line>)
    requires a.If? && b.If? && ItemOk(a) && ItemOk(b) && AfterThen(a) + r == AfterThen(b) + q
    ensures a.body == b.body && a.alternative == b.alternative && a.fiArgs == b.fiArgs && r == q
  {
    AfterThenIs(a, r);
    AfterThenIs(b, q);
    var fiA, fiB := ["fi"] + a.fiArgs, ["fi"] + b.fiArgs;
    var c := if a.alternative.Else? then ["else"] + a.alternative.args else fiA;
    var d := if b.alternative.Else? then ["else"] + b.alternative.args else fiB;
    var restA := if a.alternative.Else? then BodyText(a.alternative.body) + ([fiA] + r) else r;
    var restB := if b.alternative.Else? then BodyText(b.alternative.body) + ([fiB] + q) else q;
    BodyReading(a.body, c, restA, b.body, d, restB);
    assert c[0] == d[0];
    if a.alternative.Else? {
      SameArgs("else", a.alternative.args, b.alternative.args);
      BodyReading(a.alternative.body, fiA, r, b.alternative.body, fiB, q);
    }
    SameArgs("fi", a.fiArgs, b.fiArgs);
  }

  lemma IfTextIs(item: Item, r: seq<Line>)
    requires item.If?
    ensures ItemText(item) + r == [["if"] + CondText(item.cond)]
                                  + (Blanks(item.gap) + ([["then"] + item.thenArgs] + (AfterThen(item) + r)))
  {
  }

  lemma IfReading(a: Item, r: seq<Line>, b: Item, q: seq<Line>)
    requires a.If? && b.If? && ItemOk(a) && ItemOk(b) && ItemText(a) + r == ItemText(b) + q
    ensures a == b && r == q
  {
    IfTextIs(a, r);
    IfTextIs(b, q);
    var thenA, thenB := ["then"] + a.thenArgs, ["then"] + b.thenArgs;
    var s := Blanks(a.gap) + ([thenA] + (AfterThen(a) + r));
    var t := Blanks(b.gap) + ([thenB] + (AfterThen(b) + q));
    var ifA, ifB := ["if"] + CondText(a.cond), ["if"] + CondText(b.cond);
    assert ([ifA] + s)[0] == ifA && ([ifB] + t)[0] == ifB;
    assert ([ifA] + s)[1..] == s && ([ifB] + t)[1..] == t;
    SameArgs("if", CondText(a.cond), CondText(b.cond));
    CondReading(a.cond, b.cond);
    BlankBodyText(a.gap);
    BlankBodyText(b.gap);
    BodyReading(BlankBody(a.gap), thenA, AfterThen(a) + r, BlankBody(b.gap), thenB, AfterThen(b) + q);
    assert |BlankBody(a.gap)| == |BlankBody(b.gap)|;
    SameArgs("then", a.thenArgs, b.thenArgs);
    AfterThenReading(a, r, b, q);
  }

  /** The lines of an item end where they end, whatever follows. */
  lemma ItemReading(a: Item, r: seq<Line>, b: Item, q: seq<Line>)
    requires ItemOk(a) && ItemOk(b) && ItemText(a) + r == ItemText(b) + q
    ensures a == b && r == q
  {
    FirstLine(a, r);
    FirstLine(b, q);
    if a.If? && b.If? {
      IfReading(a, r, b, q);
    } else if a.Plain? && b.Plain? {
      SimpleReading(a.simple, b.simple);
      assert (ItemText(a) + r)[1..] == r && (ItemText(b) + q)[1..] == q;
    }
  }

  /** An if-block is told from a plain line by its first line. */
  lemma FirstLine(item: Item, r: seq<Line>)
    requires ItemOk(item)
    ensures ItemText(item) + r != []
    ensures var line := (ItemText(item) + r)[0];
            (IsControlLine(line) <==> item.If?) && (item.Plain? ==> line == SimpleText(item.simple))
  {
    if item.If? {
      IfTextIs(item, r);
    } else {
      assert [item.simple][0] == item.simple;
    }
  }

  /** Two scripts with the same lines are the same script. */
  lemma {:induction false} Unambiguous(a: seq<Item>, b: seq<Item>)
    requires ScriptOk(a) && ScriptOk(b) && Text(a) == Text(b)
    ensures a == b
  {
    if a == [] || b == [] {
      if a != [] {
        FirstLine(a[0], Text(a[1..]));
      }
      if b != [] {
        FirstLine(b[0], Text(b[1..]));
      }
    } else {
      ItemReading(a[0], Text(a[1..]), b[0], Text(b[1..]));
      assert forall i :: 0 <= i < |a[1..]| ==> a[1..][i] == a[i + 1];
      assert forall i :: 0 <= i < |b[1..]| ==> b[1..][i] == b[i + 1];
      Unambiguous(a[1..], b[1..]);
      assert a == [a[0]] + a[1..] && b == [b[0]] + b[1..];
    }
  }

  /** So the lines alone fix the meaning. */
  lemma SameTextSameMeaning<W>(run: (W, Line) -> (W, int), e: Effect<W>, script: seq<Item>, script': seq<Item>)
    requires ScriptOk(script) && ScriptOk(script') && Text(script) == Text(script')
    ensures Eval(run, e, script) == Eval(run, e, script')
  {
    Unambiguous(script, script');
  }
}
