/** Whole control sequences with any list of numbers, and where they leave the cursor. */
module TerminalCursor {
  import opened TerminalMachine
  import opened TerminalSequences
  import opened Wrappers

  // -------------------------------------------------- lists of numbers

  type Number = Option<nat>

  /** Numbers in decimal, which may be left out, separated by semicolons. */
  function Listed(ps: seq<Number>): seq<nat>
    requires ps != []
  {
    (if ps[0].Some? then Decimal(ps[0].value) else []) + if |ps| == 1 then [] else [';' as nat] + Listed(ps[1..])
  }

  /** ESC [ numbers c. */
  function Sequence(ps: seq<Number>, c: nat): seq<nat>
    requires ps != []
  {
    [ESC, '[' as nat] + Listed(ps) + [c]
  }

  /** Up to ten numbers of up to four digits. */
  predicate Sendable(ps: seq<Number>)
  {
    0 < |ps| <= MAX_NB_PARAMS && forall k :: 0 <= k < |ps| && ps[k].Some? ==> ps[k].value <= 9999
  }

  /** What arrives: 0 for a number that is left out. */
  function Values(ps: seq<Number>): (vs: seq<nat>)
    ensures |vs| == |ps|
    ensures forall k :: 0 <= k < |ps| ==> vs[k] == if ps[k].Some? then ps[k].value else 0
  {
    seq(|ps|, k requires 0 <= k < |ps| => if ps[k].Some? then ps[k].value else 0)
  }

  lemma OneArrives(t: Term, p: Number)
    requires WellFormed(t) && t.paramNum >= 0 && t.params[t.paramNum] == 0 && (p.Some? ==> p.value <= 9999)
    ensures var v := if p.Some? then p.value else 0;
      Written(t, if p.Some? then Decimal(p.value) else []) == t.(params := t.params[t.paramNum := v])
  {
    if p.Some? { NumberArrives(t, p.value); } else { assert t.params[t.paramNum := 0] == t.params; }
  }

  /** The first number and the separator behind it. */
  lemma FirstArrives(t: Term, ps: seq<Number>)
    requires WellFormed(t) && t.paramNum >= 0 && t.params[t.paramNum] == 0 && Sendable(ps)
    requires |ps| > 1 && t.paramNum + |ps| <= MAX_NB_PARAMS
    ensures var k := t.paramNum;
      var v := t.(paramNum := k + 1, params := t.params[k := Values(ps)[0]][k + 1 := 0]);
      WellFormed(v) && Written(t, Listed(ps)) == Written(v, Listed(ps[1..]))
  {
    var k, first := t.paramNum, if ps[0].Some? then Decimal(ps[0].value) else [];
    var u := t.(params := t.params[k := Values(ps)[0]]);
    var rest := [';' as nat] + Listed(ps[1..]);
    OneArrives(t, ps[0]);
    WrittenKeeps(t, first);
    SeparatorStep(u);
    hide Written, Decimal, Step;
    WrittenInParts(t, first, rest);
    WrittenInParts(u, [';' as nat], Listed(ps[1..]));
    WrittenOne(u, ';' as nat);
  }

  lemma {:induction false} ListArrives(t: Term, ps: seq<Number>)
    requires WellFormed(t) && t.paramNum >= 0 && t.params[t.paramNum] == 0 && Sendable(ps)
    requires t.paramNum + |ps| <= MAX_NB_PARAMS
    ensures var k := t.paramNum;
      Written(t, Listed(ps)) ==
      t.(paramNum := k + |ps| - 1, params := t.params[..k] + Values(ps) + t.params[k + |ps|..])
    decreases |ps|
  {
    var k := t.paramNum;
    SendableRest(t, ps);
    if |ps| == 1 {
      LastArrives(t, ps);
    } else {
      hide *;
      FirstArrives(t, ps);
      var v := t.(paramNum := k + 1, params := t.params[k := Values(ps)[0]][k + 1 := 0]);
      ListArrives(v, ps[1..]);
      Pieces(t.params, k, ps);
    }
  }

  lemma SendableRest(t: Term, ps: seq<Number>)
    requires Sendable(ps) && WellFormed(t)
    ensures 0 < |ps| <= MAX_NB_PARAMS == |t.params| && (|ps| > 1 ==> Sendable(ps[1..]))
  {}

  lemma LastArrives(t: Term, ps: seq<Number>)
    requires WellFormed(t) && t.paramNum >= 0 && t.params[t.paramNum] == 0 && Sendable(ps) && |ps| == 1
    ensures var k := t.paramNum;
      Written(t, Listed(ps)) == t.(params := t.params[..k] + Values(ps) + t.params[k + 1..])
  {
    var k, first := t.paramNum, if ps[0].Some? then Decimal(ps[0].value) else [];
    OneArrives(t, ps[0]);
    hide Written, Decimal;
    assert first + [] == first;
    assert t.params[k := Values(ps)[0]] == t.params[..k] + Values(ps) + t.params[k + 1..];
  }

  lemma SeparatorStep(u: Term)
    requires WellFormed(u) && 0 <= u.paramNum && u.paramNum + 1 < MAX_NB_PARAMS
    ensures Step(u, ';' as nat) == u.(paramNum := u.paramNum + 1, params := u.params[u.paramNum + 1 := 0])
  {}

  lemma Pieces(was: seq<nat>, k: nat, ps: seq<Number>)
    requires |ps| > 1 && k + |ps| <= |was|
    ensures var v := was[k := Values(ps)[0]][k + 1 := 0];
      v[..k + 1] + Values(ps[1..]) + v[k + |ps|..] == was[..k] + Values(ps) + was[k + |ps|..]
  {
    ValuesSplit(ps);
    hide Values;
    Spliced(was, k, Values(ps)[0], Values(ps[1..]));
  }

  lemma ValuesSplit(ps: seq<Number>)
    requires ps != []
    ensures Values(ps) == [Values(ps)[0]] + Values(ps[1..])
  {}

  lemma Spliced(was: seq<nat>, k: nat, first: nat, rest: seq<nat>)
    requires rest != [] && k + 1 + |rest| <= |was|
    ensures var v, n := was[k := first][k + 1 := 0], k + 1 + |rest|;
      v[..k + 1] + rest + v[n..] == was[..k] + ([first] + rest) + was[n..]
  {
    var v, n := was[k := first][k + 1 := 0], k + 1 + |rest|;
    assert v[..k + 1] == was[..k] + [first];
    assert v[n..] == was[n..];
  }

  /** Before the final character the machine has the numbers as its parameters. */
  lemma SequenceArrives(t: Term, ps: seq<Number>, c: nat)
    requires WellFormed(t) && t.paramNum == -2 && Sendable(ps)
    ensures var u := t.(paramNum := |ps| - 1, params := Values(ps) + t.params[|ps|..]);
      WellFormed(u) && Written(t, Sequence(ps, c)) == Step(u, c)
  {
    var t1 := t.(paramNum := 0, params := t.params[0 := 0]);
    var u := t.(paramNum := |ps| - 1, params := Values(ps) + t.params[|ps|..]);
    hide Written, Listed, Step;
    Introduced(t);
    ListArrives(t1, ps);
    assert t1.params[..0] + Values(ps) + t1.params[|ps|..] == u.params;
    WrittenInParts(t, [ESC, '[' as nat], Listed(ps));
    WrittenInParts(t, [ESC, '[' as nat] + Listed(ps), [c]);
    WrittenKeeps(t, [ESC, '[' as nat] + Listed(ps));
    WrittenOne(u, c);
  }

  // -------------------------------------------------- the cursor

  /** The screen, the attributes and the state between sequences are as before. */
  predicate OnlyCursor(t: Term, t': Term)
  {
    && t'.cells == t.cells && t'.attr == t.attr && t'.paramNum == -2 && t'.rows == t.rows && t'.columns == t.columns
  }

  /** ESC [ n A goes n rows up, B down, C right and D left, by one when n is 0 or left
      out, and no further than the edge. */
  lemma CursorMoves(t: Term, ps: seq<Number>, c: char)
    requires WellFormed(t) && t.paramNum == -2 && Sendable(ps) && (c == 'A' || c == 'B' || c == 'C' || c == 'D')
    ensures var t' := Written(t, Sequence(ps, c as nat));
      var n := if ps[0] == None || ps[0] == Some(0) then 1 else ps[0].value;
      && OnlyCursor(t, t')
      && t'.row == (if c == 'A' then (if n <= t.row then t.row - n else 0)
                    else if c == 'B' then (if t.row + n < t.rows then t.row + n else t.rows - 1)
                    else t.row)
      && t'.column == (if c == 'C' then (if t.column + n < t.columns then t.column + n else t.columns - 1)
                       else if c == 'D' then (if n <= t.column then t.column - n else 0)
                       else t.column)
  {
    SequenceArrives(t, ps, c as nat);
    hide Written, Sequence;
  }

  /** ESC [ r ; c H, or f, puts the cursor on row r and column c, counted from one; each
      is 1 when it is 0 or left out, and the last there is when it is larger. */
  lemma CursorPosition(t: Term, ps: seq<Number>, c: char)
    requires WellFormed(t) && t.paramNum == -2 && Sendable(ps) && (c == 'H' || c == 'f')
    ensures var t' := Written(t, Sequence(ps, c as nat));
      var row := if ps[0] == None || ps[0] == Some(0) then 1 else ps[0].value;
      var column := if |ps| == 1 || ps[1] == None || ps[1] == Some(0) then 1 else ps[1].value;
      && OnlyCursor(t, t')
      && t'.row == (if row <= t.rows then row - 1 else t.rows - 1)
      && t'.column == (if column <= t.columns then column - 1 else t.columns - 1)
  {
    hide Written, Sequence, Step;
    SequenceArrives(t, ps, c as nat);
    PositionStep(t, ps, c);
  }

  lemma PositionStep(t: Term, ps: seq<Number>, c: char)
    requires WellFormed(t) && t.paramNum == -2 && Sendable(ps) && (c == 'H' || c == 'f')
    ensures var u := t.(paramNum := |ps| - 1, params := Values(ps) + t.params[|ps|..]);
      var row := if ps[0] == None || ps[0] == Some(0) then 1 else ps[0].value;
      var column := if |ps| == 1 || ps[1] == None || ps[1] == Some(0) then 1 else ps[1].value;
      && WellFormed(u)
      && Step(u, c as nat) == u.(paramNum := -2, row := if row <= t.rows then row - 1 else t.rows - 1,
                                 column := if column <= t.columns then column - 1 else t.columns - 1)
  {}

  /** ESC [ H goes home. */
  lemma Home(t: Term)
    requires WellFormed(t) && t.paramNum == -2
    ensures var t' := Written(t, [ESC, '[' as nat, 'H' as nat]); OnlyCursor(t, t') && t'.row == 0 && t'.column == 0
  {
    assert Sequence([None], 'H' as nat) == [ESC, '[' as nat, 'H' as nat];
    CursorPosition(t, [None], 'H');
  }

  /** Outside sequences: backspace goes one column left but not over the edge, carriage
      return to the left edge, and a bell does nothing. */
  lemma ControlCharacters(t: Term)
    requires WellFormed(t) && t.paramNum == -2
    ensures Written(t, [BS]) == t.(column := if t.column == 0 then 0 else t.column - 1)
    ensures Written(t, [CR]) == t.(column := 0)
    ensures Written(t, [BEL]) == t
  {
    WrittenOne(t, BS);
    WrittenOne(t, CR);
    WrittenOne(t, BEL);
    hide Written;
  }

  // -------------------------------------------------- other sequences

  /** ESC with anything but [ behind it has no effect. */
  lemma EscapedCharacter(t: Term, c: nat)
    requires WellFormed(t) && t.paramNum == -2 && c != '[' as nat
    ensures Written(t, [ESC, c]) == t
  {
    WrittenOne(t, ESC);
    WrittenInParts(t, [ESC], [c]);
    assert [ESC] + [c] == [ESC, c];
    WrittenOne(Step(t, ESC), c);
  }

  /** A sequence with any other final character has none, nor has an erasure with a
      number above 2. */
  lemma OtherSequences(t: Term, ps: seq<Number>, c: nat)
    requires WellFormed(t) && t.paramNum == -2 && Sendable(ps) && !Digit(c) && c != ';' as nat
    requires (forall k :: 0 <= k < 9 ==> c != "ABCDHfJKm"[k] as nat)
      || ((c == 'J' as nat || c == 'K' as nat) && ps[0].Some? && ps[0].value > 2)
    ensures var t' := Written(t, Sequence(ps, c)); OnlyCursor(t, t') && t'.row == t.row && t'.column == t.column
  {
    SequenceArrives(t, ps, c);
    hide Written, Sequence;
    var s := "ABCDHfJKm";
    assert s[0] == 'A' && s[1] == 'B' && s[2] == 'C' && s[3] == 'D' && s[4] == 'H' && s[5] == 'f' && s[6] == 'J';
    assert s[7] == 'K' && s[8] == 'm';
  }

  /** A number that is left out is 0. */
  lemma LeftOutIsZero(t: Term, c: nat)
    requires WellFormed(t) && t.paramNum == -2
    ensures Written(t, [ESC, '[' as nat, c]) == Written(t, [ESC, '[' as nat] + Decimal(0) + [c])
  {
    assert Sequence([None], c) == [ESC, '[' as nat, c];
    assert Sequence([Some(0)], c) == [ESC, '[' as nat] + Decimal(0) + [c];
    SequenceArrives(t, [None], c);
    SequenceArrives(t, [Some(0)], c);
    assert Values([None]) == Values([Some(0)]);
  }

  /** ESC [ n1 ; n2 ; ... m sets the attributes as ESC [ n1 m and then ESC [ n2 ; ... m
      do. */
  lemma RenditionsInTurn(t: Term, ps: seq<Number>)
    requires WellFormed(t) && t.paramNum == -2 && Sendable(ps) && |ps| > 1
    ensures var m := 'm' as nat;
      var t1 := Written(t, Sequence(ps[..1], m));
      && WellFormed(t1) && t1.paramNum == -2
      && Written(t, Sequence(ps, m)).attr == Written(t1, Sequence(ps[1..], m)).attr
      && Written(t, Sequence(ps, m)).cells == t.cells && t1.cells == t.cells
      && Written(t, Sequence(ps, m)).row == t.row && Written(t, Sequence(ps, m)).column == t.column
  {
    var m := 'm' as nat;
    var t1 := Written(t, Sequence(ps[..1], m));
    SequenceArrives(t, ps, m);
    SequenceArrives(t, ps[..1], m);
    WrittenKeeps(t, Sequence(ps[..1], m));
    Rendered(t, ps);
    Rendered(t, ps[..1]);
    SequenceArrives(t1, ps[1..], m);
    Rendered(t1, ps[1..]);
    assert Values(ps)[1..] == Values(ps[1..]) && Values(ps[..1]) == [Values(ps)[0]];
    OneRendition(t.attr, Values(ps)[0]);
    hide Written, Sequence, Rendition;
  }

  lemma OneRendition(a: Attributes, x: nat)
    ensures Renditions(a, [x]) == Rendition(a, x)
  {
    assert [x][1..] == [];
  }

  lemma Rendered(t: Term, ps: seq<Number>)
    requires WellFormed(t) && t.paramNum == -2 && Sendable(ps)
    ensures var u := t.(paramNum := |ps| - 1, params := Values(ps) + t.params[|ps|..]);
      WellFormed(u) && Step(u, 'm' as nat) == u.(paramNum := -2, attr := Renditions(t.attr, Values(ps)))
  {
    var u := t.(paramNum := |ps| - 1, params := Values(ps) + t.params[|ps|..]);
    assert u.params[..u.paramNum + 1] == Values(ps);
  }
}
