/** The VT100 interpreter of term.cpp as a machine that takes one character at a
    time (control sequences as in section 5.4 of ECMA-48). */
module TerminalMachine {

  const MAX_NB_PARAMS: nat := 10
  const NORMAL_FOREGROUND: nat := 0
  const NORMAL_BACKGROUND: nat := 7

  const BEL: nat := 0x07
  const BS: nat := 0x08
  const LF: nat := 0x0A
  const CR: nat := 0x0D
  const ESC: nat := 0x1B

  /** A place of the grid: cleared to the normal background, or showing a
      character. */
  datatype Cell = Blank | Glyph(ch: nat, bold: bool, fg: nat, bg: nat)

  datatype Attributes = Attributes(bold: bool, underline: bool, reverse: bool, fg: nat, bg: nat)

  /** paramNum is -2 outside control sequences, -1 after ESC, and otherwise the
      index of the parameter being read. */
  datatype Term = Term(
    rows: nat,
    columns: nat,
    cells: seq<seq<Cell>>,
    row: nat,
    column: nat,
    params: seq<nat>,
    paramNum: int,
    attr: Attributes)

  /** The parameters read so far are bounded; those beyond are undefined. */
  ghost predicate WellFormed(t: Term)
  {
    && t.row < t.rows && t.column < t.columns
    && |t.cells| == t.rows && (forall r :: 0 <= r < t.rows ==> |t.cells[r]| == t.columns)
    && -2 <= t.paramNum < MAX_NB_PARAMS && |t.params| == MAX_NB_PARAMS
    && (forall k :: 0 <= k <= t.paramNum ==> t.params[k] <= 9999)
  }

  predicate Special(c: nat) { c == BEL || c == BS || c == LF || c == CR || c == ESC }

  // -------------------------------------------------- the screen

  function BlankRow(columns: nat): seq<Cell> { seq(columns, _ => Blank) }

  /** term_scroll_up */
  function ScrollUp(t: Term): Term
    requires |t.cells| > 0
  {
    t.(cells := t.cells[1..] + [BlankRow(t.columns)])
  }

  function Clamp(n: int, size: nat): nat
    requires size > 0
  {
    if n < 0 then 0 else if n >= size then size - 1 else n
  }

  function MovedTo(t: Term, row: int, column: int): Term
    requires t.rows > 0 && t.columns > 0
  {
    t.(row := Clamp(row, t.rows), column := Clamp(column, t.columns))
  }

  /** What a clearing operation leaves in a place. With arg 0 it clears from the
      cursor on, with 1 up to but excluding the cursor, with 2 everything; in the
      cursor's row only, or in the whole screen. */
  predicate Cleared(t: Term, screen: bool, arg: nat, r: nat, c: nat)
  {
    if r < t.row then screen && arg != 0
    else if r > t.row then screen && arg != 1
    else (arg == 0 ==> c >= t.column) && (arg == 1 ==> c < t.column)
  }

  function Clear(t: Term, screen: bool, arg: nat): Term
    requires WellFormed(t)
  {
    if arg > 2 then t
    else t.(cells := seq(t.rows, r requires 0 <= r < t.rows =>
                       seq(t.columns, c requires 0 <= c < t.columns =>
                         if Cleared(t, screen, arg, r, c) then Blank else t.cells[r][c])))
  }

  /** A printable character at the cursor, which moves on and may scroll. */
  function Draw(t: Term, ch: nat): Term
    requires WellFormed(t)
  {
    var fg, bg := t.attr.fg, t.attr.bg;
    var cell := Glyph(ch, t.attr.bold, if t.attr.reverse then bg else fg, if t.attr.reverse then fg else bg);
    var t1 := t.(cells := t.cells[t.row := t.cells[t.row][t.column := cell]]);
    if t.column + 1 < t.columns then t1.(column := t.column + 1)
    else if t.row + 1 < t.rows then t1.(column := 0, row := t.row + 1)
    else ScrollUp(t1).(column := 0)
  }

  // -------------------------------------------------- attributes

  function Rendition(a: Attributes, x: nat): Attributes
  {
    if x == 0 then Attributes(false, false, false, NORMAL_FOREGROUND, NORMAL_BACKGROUND)
    else if x == 1 then a.(bold := true)
    else if x == 4 then a.(underline := true)
    else if x == 7 then a.(reverse := true)
    else if 30 <= x <= 37 then a.(fg := x - 30)
    else if 40 <= x <= 47 then a.(bg := x - 40)
    else a
  }

  function Renditions(a: Attributes, xs: seq<nat>): Attributes
    decreases |xs|
  {
    if xs == [] then a else Renditions(Rendition(a, xs[0]), xs[1..])
  }

  // -------------------------------------------------- one character

  /** The argument of a relative move: at least one. */
  function Count(n: nat): nat { if n == 0 then 1 else n }

  function Control(t: Term, c: nat): Term
    requires WellFormed(t)
  {
    if c == BS then MovedTo(t, t.row, t.column - 1)
    else if c == LF then
      if t.row == t.rows - 1 then ScrollUp(t.(column := 0)) else MovedTo(t, t.row + 1, 0)
    else if c == CR then MovedTo(t, t.row, 0)
    else if c == ESC then t.(paramNum := -1)
    else t
  }

  /** The final character of a control sequence. */
  function Final(t: Term, c: nat): Term
    requires WellFormed(t) && t.paramNum >= 0
  {
    var p := t.params[0];
    var t1 := t.(paramNum := -2);
    if c == 'A' as nat then MovedTo(t1, t.row - Count(p), t.column)
    else if c == 'B' as nat then MovedTo(t1, t.row + Count(p), t.column)
    else if c == 'C' as nat then MovedTo(t1, t.row, t.column + Count(p))
    else if c == 'D' as nat then MovedTo(t1, t.row, t.column - Count(p))
    else if c == 'H' as nat || c == 'f' as nat then
      MovedTo(t1, Count(p) - 1, (if t.paramNum < 1 then 1 else Count(t.params[1])) - 1)
    else if c == 'J' as nat then Clear(t1, true, p)
    else if c == 'K' as nat then Clear(t1, false, p)
    else if c == 'm' as nat then t1.(attr := Renditions(t.attr, t.params[..t.paramNum + 1]))
    else t1
  }

  predicate Digit(c: nat) { '0' as nat <= c <= '9' as nat }

  function Parameter(t: Term, c: nat): Term
    requires WellFormed(t) && t.paramNum >= 0
  {
    if Digit(c) then
      var p := t.params[t.paramNum];
      if p < 1000 then t.(params := t.params[t.paramNum := p * 10 + (c - '0' as nat)]) else t
    else if c == ';' as nat then
      var k := t.paramNum + 1;
      if k < MAX_NB_PARAMS then t.(paramNum := k, params := t.params[k := 0]) else t
    else Final(t, c)
  }

  function Step(t: Term, c: nat): Term
    requires WellFormed(t)
  {
    if t.paramNum == -2 then (if Special(c) then Control(t, c) else Draw(t, c))
    else if t.paramNum == -1 then
      if c == '[' as nat then t.(paramNum := 0, params := t.params[0 := 0]) else t.(paramNum := -2)
    else Parameter(t, c)
  }

  lemma StepKeeps(t: Term, c: nat)
    requires WellFormed(t)
    ensures WellFormed(Step(t, c)) && Step(t, c).rows == t.rows && Step(t, c).columns == t.columns
  {}

  function Written(t: Term, s: seq<nat>): Term
    requires WellFormed(t)
    decreases |s|
  {
    if s == [] then t else
      StepKeeps(t, s[0]);
      Written(Step(t, s[0]), s[1..])
  }

  /** The cursor stays on the grid, the parameter index in -2..9 and every
      parameter read at most 9999, whatever is written. */
  lemma {:induction false} WrittenKeeps(t: Term, s: seq<nat>)
    requires WellFormed(t)
    ensures WellFormed(Written(t, s)) && Written(t, s).rows == t.rows && Written(t, s).columns == t.columns
    decreases |s|
  {
    hide WellFormed, Step;
    if s != [] {
      StepKeeps(t, s[0]);
      WrittenKeeps(Step(t, s[0]), s[1..]);
    }
  }

  /** Where a text is split makes no difference, even inside a control sequence. */
  lemma {:induction false} WrittenInParts(t: Term, s: seq<nat>, u: seq<nat>)
    requires WellFormed(t)
    ensures WellFormed(Written(t, s)) && Written(t, s + u) == Written(Written(t, s), u)
    decreases |s|
  {
    hide WellFormed, Step;
    WrittenKeeps(t, s);
    if s == [] {
      assert s + u == u;
    } else {
      StepKeeps(t, s[0]);
      assert (s + u)[1..] == s[1..] + u;
      WrittenInParts(Step(t, s[0]), s[1..], u);
    }
  }
}
