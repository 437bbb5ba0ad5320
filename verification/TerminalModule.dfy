/** term_write as term.cpp writes it: runs of text drawn line by line, and a switch
    that decodes control sequences into operations, proved to be the machine that
    takes one character at a time. */
module TerminalModule {
  import opened TerminalMachine

  // -------------------------------------------------- runs of text

  function GlyphOf(a: Attributes, ch: nat): Cell
  {
    Glyph(ch, a.bold, if a.reverse then a.bg else a.fg, if a.reverse then a.fg else a.bg)
  }

  function Glyphs(a: Attributes, s: seq<nat>): seq<Cell> { seq(|s|, k requires 0 <= k < |s| => GlyphOf(a, s[k])) }

  /** A row with some of its places replaced. */
  function Overlaid(row: seq<Cell>, column: nat, over: seq<Cell>): (r: seq<Cell>)
    requires column + |over| <= |row|
    ensures |r| == |row|
  {
    row[..column] + over + row[column + |over|..]
  }

  /** A run of text that fits in the row, drawn at once. */
  function RunDrawn(t: Term, s: seq<nat>): Term
    requires WellFormed(t) && t.column + |s| <= t.columns
  {
    var t1 := t.(cells := t.cells[t.row := Overlaid(t.cells[t.row], t.column, Glyphs(t.attr, s))]);
    if t.column + |s| < t.columns then t1.(column := t.column + |s|)
    else if t.row + 1 < t.rows then t1.(column := 0, row := t.row + 1)
    else ScrollUp(t1).(column := 0)
  }

  predicate Plain(s: seq<nat>) { forall k :: 0 <= k < |s| ==> !Special(s[k]) }

  lemma OverlayStep(row: seq<Cell>, column: nat, a: Attributes, s: seq<nat>)
    requires s != [] && column + |s| <= |row|
    ensures Overlaid(row[column := GlyphOf(a, s[0])], column + 1, Glyphs(a, s[1..])) ==
      Overlaid(row, column, Glyphs(a, s))
  {
    assert Glyphs(a, s) == [GlyphOf(a, s[0])] + Glyphs(a, s[1..]);
  }

  /** Drawing a run at once is drawing its characters one by one. */
  lemma {:induction false} RunIsCharacters(t: Term, s: seq<nat>)
    requires WellFormed(t) && t.paramNum == -2 && s != [] && t.column + |s| <= t.columns && Plain(s)
    ensures Written(t, s) == RunDrawn(t, s)
    decreases |s|
  {
    var t1 := Step(t, s[0]);
    StepKeeps(t, s[0]);
    OverlayStep(t.cells[t.row], t.column, t.attr, s);
    assert t1 == Draw(t, s[0]);
    if |s| == 1 {
      assert s[1..] == [];
      assert Glyphs(t.attr, s[1..]) == [];
      OneGlyph(t, s);
    } else {
      RunIsCharacters(t1, s[1..]);
      RunStep(t, s);
    }
  }

  lemma OneGlyph(t: Term, s: seq<nat>)
    requires WellFormed(t) && |s| == 1
    ensures Overlaid(t.cells[t.row], t.column, Glyphs(t.attr, s)) == t.cells[t.row][t.column := GlyphOf(t.attr, s[0])]
    ensures RunDrawn(t, s) == Draw(t, s[0])
  {
    assert Glyphs(t.attr, s) == [GlyphOf(t.attr, s[0])];
    assert Overlaid(t.cells[t.row], t.column, Glyphs(t.attr, s)) == t.cells[t.row][t.column := GlyphOf(t.attr, s[0])];
  }

  lemma RunStep(t: Term, s: seq<nat>)
    requires WellFormed(t) && |s| > 1 && t.column + |s| <= t.columns
    ensures var t1 := Draw(t, s[0]);
      WellFormed(t1) && t1.column + |s| - 1 <= t1.columns && RunDrawn(t1, s[1..]) == RunDrawn(t, s)
  {
    var t1 := Draw(t, s[0]);
    OverlayStep(t.cells[t.row], t.column, t.attr, s);
    var row := Overlaid(t.cells[t.row], t.column, Glyphs(t.attr, s));
    assert t1.cells[t.row := row] == t.cells[t.row := row];
  }

  // -------------------------------------------------- operations

  const NOOP: int := -999

  /** What the operation codes of the switch stand for. */
  function Executed(t: Term, op: int, arg: int): Term
    requires WellFormed(t) && (op == -2 || op == -3 ==> arg >= 0)
  {
    if op == NOOP then t
    else if op > 0 then MovedTo(t, op - 1, arg - 1)
    else if op == 0 then MovedTo(t, t.row + arg, t.column)
    else if op == -1 then MovedTo(t, t.row, t.column + arg)
    else if op == -2 then Clear(t, true, arg)
    else if op == -3 then Clear(t, false, arg)
    else t
  }

  /** Cells of a rectangle cleared. */
  function Filled(cells: seq<seq<Cell>>, x: nat, y: nat, xEnd: nat, yEnd: nat): (r: seq<seq<Cell>>)
    ensures |r| == |cells| && forall i :: 0 <= i < |r| ==> |r[i]| == |cells[i]|
  {
    seq(|cells|, i requires 0 <= i < |cells| =>
      seq(|cells[i]|, j requires 0 <= j < |cells[i]| => if y <= i < yEnd && x <= j < xEnd then Blank else cells[i][j]))
  }

  /** The three rectangles of a clearing operation. */
  function ThreeFills(t: Term, screen: bool, arg: nat): seq<seq<Cell>>
  {
    var c1 := if screen && arg != 0 then Filled(t.cells, 0, 0, t.columns, t.row) else t.cells;
    var c2 := Filled(c1, if arg == 0 then t.column else 0, t.row, if arg == 1 then t.column else t.columns, t.row + 1);
    if screen && arg != 1 then Filled(c2, 0, t.row + 1, t.columns, t.rows) else c2
  }

  lemma NothingWritten(t: Term)
    requires WellFormed(t)
    ensures Written(t, []) == t
  {}

  lemma NothingCleared(t: Term, screen: bool, arg: nat)
    requires WellFormed(t) && arg > 2
    ensures Clear(t, screen, arg) == t
  {}

  lemma ThreeFillsClear(t: Term, screen: bool, arg: nat)
    requires WellFormed(t) && arg <= 2
    ensures Clear(t, screen, arg) == t.(cells := ThreeFills(t, screen, arg))
  {
    var a, b := Clear(t, screen, arg).cells, ThreeFills(t, screen, arg);
    forall i | 0 <= i < t.rows ensures a[i] == b[i] {
      forall j | 0 <= j < t.columns ensures a[i][j] == b[i][j] {}
    }
  }

  // -------------------------------------------------- the switch

  /** The operation a character in the text stands for; linefeed moves to the left
      edge and may scroll on its own. */
  function ControlOp(t: Term, c: nat): (int, int)
  {
    if c == BS then (-1, -1)
    else if c == LF then (if t.row == t.rows - 1 then (NOOP, 0) else (0, 1))
    else if c == CR then (t.row + 1, 1)
    else (NOOP, 0)
  }

  /** The operation of the final character of a control sequence. */
  function FinalOp(t: Term, c: nat): (int, int)
    requires |t.params| >= 2
  {
    var p := t.params[0];
    if c == 'A' as nat then (0, 0 - Count(p) as int)
    else if c == 'B' as nat then (0, Count(p))
    else if c == 'C' as nat then (-1, Count(p))
    else if c == 'D' as nat then (-1, 0 - Count(p) as int)
    else if c == 'H' as nat || c == 'f' as nat then (Count(p), if t.paramNum < 1 then 1 else Count(t.params[1]))
    else if c == 'J' as nat then (-2, p)
    else if c == 'K' as nat then (-3, p)
    else if c == 'm' as nat then (-4, 0)
    else (NOOP, 0)
  }

  lemma FinalIsExecuted(t: Term, c: nat)
    requires WellFormed(t) && t.paramNum >= 0
    ensures var (op, arg) := FinalOp(t, c);
      var attr := if c == 'm' as nat then Renditions(t.attr, t.params[..t.paramNum + 1]) else t.attr;
      var t1 := t.(paramNum := -2, attr := attr);
      WellFormed(t1) && (op == -2 || op == -3 ==> arg >= 0) && Final(t, c) == Executed(t1, op, arg)
  {}

  lemma ControlIsExecuted(t: Term, c: nat)
    requires WellFormed(t) && Special(c)
    ensures var (op, arg) := ControlOp(t, c);
      var t1 := if c == LF then (if t.row == t.rows - 1 then ScrollUp(t.(column := 0)) else t.(column := 0))
                else if c == ESC then t.(paramNum := -1) else t;
      WellFormed(t1) && op != -2 && op != -3 && Control(t, c) == Executed(t1, op, arg)
  {}

  class Terminal {
    const rows: nat
    const columns: nat
    var cells: seq<seq<Cell>>
    var cursorRow: int
    var cursorColumn: int
    const param: array<nat>
    var paramNum: int
    var bold: bool
    var underline: bool
    var reverse: bool
    var fg: nat
    var bg: nat

    /** term_init and the clearing of its area by term_show; the parameters are left
        undefined. */
    constructor (rows: nat, columns: nat, junk: nat)
      requires rows > 0 && columns > 0
      ensures fresh(param) && Valid() && this.rows == rows && this.columns == columns
      ensures Snapshot() == Term(rows, columns, seq(rows, _ => BlankRow(columns)), 0, 0, seq(MAX_NB_PARAMS, _ => junk),
                                 -2, Attributes(false, false, false, NORMAL_FOREGROUND, NORMAL_BACKGROUND))
    {
      this.rows, this.columns := rows, columns;
      cells := seq(rows, _ => BlankRow(columns));
      cursorRow, cursorColumn, paramNum := 0, 0, -2;
      param := new nat[MAX_NB_PARAMS](_ => junk);
      bold, underline, reverse, fg, bg := false, false, false, NORMAL_FOREGROUND, NORMAL_BACKGROUND;
    }

    ghost function Snapshot(): Term
      requires cursorRow >= 0 && cursorColumn >= 0
      reads this, param
    {
      Term(rows, columns, cells, cursorRow, cursorColumn, param[..], paramNum,
        Attributes(bold, underline, reverse, fg, bg))
    }

    ghost predicate Valid()
      reads this, param
    {
      cursorRow >= 0 && cursorColumn >= 0 && WellFormed(Snapshot())
    }

    /** The cursor movement of an operation. */
    method Move(op: int, arg: int)
      requires Valid() && op >= -1
      modifies `cursorRow, `cursorColumn
      ensures Valid() && Snapshot() == Executed(old(Snapshot()), op, arg)
    {
      if op <= 0 {
        if op == 0 { cursorRow := cursorRow + arg; } else { cursorColumn := cursorColumn + arg; }
      } else {
        cursorRow := op - 1;
        cursorColumn := arg - 1;
      }
      if cursorRow < 0 { cursorRow := 0; } else if cursorRow >= rows { cursorRow := rows - 1; }
      if cursorColumn < 0 { cursorColumn := 0; } else if cursorColumn >= columns { cursorColumn := columns - 1; }
    }

    /** raw_bitmap_fill_rect with the background, in places of the grid. */
    method FillCells(x: nat, y: nat, xEnd: nat, yEnd: nat)
      modifies `cells
      ensures cells == Filled(old(cells), x, y, xEnd, yEnd)
    {
      cells := Filled(cells, x, y, xEnd, yEnd);
    }

    method ClearCells(screen: bool, arg: nat)
      requires Valid()
      modifies `cells
      ensures Valid() && Snapshot() == Clear(old(Snapshot()), screen, arg)
    {
      hide Filled, Clear;
      if arg <= 2 {
        ThreeFillsClear(Snapshot(), screen, arg);
        ghost var t := Snapshot();
        if screen && arg != 0 { FillCells(0, 0, columns, cursorRow); }
        var left, right := if arg == 0 then cursorColumn else 0, if arg == 1 then cursorColumn else columns;
        FillCells(left, cursorRow, right, cursorRow + 1);
        if screen && arg != 1 { FillCells(0, cursorRow + 1, columns, rows); }
        assert cells == ThreeFills(t, screen, arg);
      } else {
        NothingCleared(Snapshot(), screen, arg);
      }
    }

    method Execute(op: int, arg: int)
      requires Valid() && (op == -2 || op == -3 ==> arg >= 0)
      modifies `cursorRow, `cursorColumn, `cells
      ensures Valid() && Snapshot() == Executed(old(Snapshot()), op, arg)
    {
      if op != NOOP {
        if op >= -1 { Move(op, arg); }
        else if op >= -3 { ClearCells(op == -2, arg); }
      }
    }

    /** The loop over the parameters of a graphic rendition. */
    method SetAttributes(pn: nat)
      requires pn < param.Length
      modifies `bold, `underline, `reverse, `fg, `bg
      ensures Attributes(bold, underline, reverse, fg, bg) ==
        Renditions(old(Attributes(bold, underline, reverse, fg, bg)), param[..pn + 1])
    {
      var j := 0;
      ghost var ps := param[..pn + 1];
      while j <= pn
        invariant j <= pn + 1
        invariant Renditions(Attributes(bold, underline, reverse, fg, bg), ps[j..]) ==
          Renditions(old(Attributes(bold, underline, reverse, fg, bg)), ps)
      {
        var x := param[j];
        assert ps[j..][0] == x && ps[j..][1..] == ps[j + 1..];
        if x <= 0 {
          bold, underline, reverse := false, false, false;
          fg, bg := NORMAL_FOREGROUND, NORMAL_BACKGROUND;
        } else if x == 1 { bold := true; }
        else if x == 4 { underline := true; }
        else if x == 7 { reverse := true; }
        else if x >= 30 && x <= 37 { fg := x - 30; }
        else if x >= 40 && x <= 47 { bg := x - 40; }
        j := j + 1;
      }
      assert ps[j..] == [];
    }

    /** A special character outside control sequences. */
    method InterpretControl(c: nat)
      requires Valid() && paramNum == -2 && Special(c)
      modifies `cursorRow, `cursorColumn, `cells, `paramNum
      ensures Valid() && Snapshot() == Control(old(Snapshot()), c)
    {
      ControlIsExecuted(Snapshot(), c);
      hide Control, Executed, WellFormed;
      var op, arg := NOOP, 0;
      if c == BS {
        op, arg := -1, -1;
      } else if c == LF {
        cursorColumn := 0;
        if cursorRow == rows - 1 { Scroll(); } else { op, arg := 0, 1; }
      } else if c == CR {
        op, arg := cursorRow + 1, 1;
      } else if c == ESC {
        paramNum := -1;
      }
      Execute(op, arg);
    }

    method Scroll()
      requires cursorRow >= 0 && cursorColumn >= 0 && WellFormed(Snapshot())
      modifies `cells
      ensures |old(cells)| > 0 && Snapshot() == ScrollUp(old(Snapshot()))
    {
      cells := cells[1..] + [BlankRow(columns)];
    }

    /** The final character of a control sequence. */
    method InterpretFinal(c: nat)
      requires Valid() && paramNum >= 0
      modifies this
      ensures Valid() && Snapshot() == Final(old(Snapshot()), c)
    {
      FinalIsExecuted(Snapshot(), c);
      ValidBounds();
      hide Final, Executed, WellFormed, Renditions;
      var op: int, arg: int := NOOP, 0;
      var pn := paramNum;
      paramNum := -2;
      if c == 'A' as nat {
        op, arg := 0, 0 - param[0] as int;
        if arg >= 0 { arg := -1; }
      } else if c == 'B' as nat {
        op, arg := 0, param[0];
        if arg <= 0 { arg := 1; }
      } else if c == 'C' as nat {
        op, arg := -1, param[0];
        if arg <= 0 { arg := 1; }
      } else if c == 'D' as nat {
        op, arg := -1, 0 - param[0] as int;
        if arg >= 0 { arg := -1; }
      } else if c == 'H' as nat || c == 'f' as nat {
        op, arg := param[0], param[1];
        if op <= 0 { op := 1; }
        if pn < 1 || arg <= 0 { arg := 1; }
      } else if c == 'J' as nat {
        op, arg := -2, param[0];
        if arg <= 0 { arg := 0; }
      } else if c == 'K' as nat {
        op, arg := -3, param[0];
        if arg <= 0 { arg := 0; }
      } else if c == 'm' as nat {
        op := -4;
        SetAttributes(pn);
      }
      Execute(op, arg);
    }

    lemma ValidBounds()
      requires Valid()
      ensures param.Length == MAX_NB_PARAMS && -2 <= paramNum < MAX_NB_PARAMS
    {}

    /** A character inside a control sequence. */
    method InterpretParameter(c: nat)
      requires Valid() && paramNum >= 0
      modifies this, param
      ensures Valid() && Snapshot() == Parameter(old(Snapshot()), c)
    {
      var pn := paramNum;
      if Digit(c) {
        var x, p := c - '0' as nat, param[pn];
        if p < 1000 { param[pn] := p * 10 + x; }
      } else if c == ';' as nat {
        pn := pn + 1;
        if pn < MAX_NB_PARAMS {
          paramNum := pn;
          param[pn] := 0;
        }
      } else {
        InterpretFinal(c);
      }
    }

    /** One turn of the switch; text is left to be drawn. */
    method Interpret(c: nat) returns (text: bool)
      requires Valid()
      modifies this, param
      ensures Valid() && text == old(paramNum == -2 && !Special(c))
      ensures Snapshot() == if text then old(Snapshot()) else Step(old(Snapshot()), c)
    {
      hide Control, Parameter;
      text := false;
      if paramNum == -2 {
        if Special(c) { InterpretControl(c); } else { text := true; }
      } else if paramNum == -1 {
        if c == '[' as nat { paramNum, param[0] := 0, 0; } else { paramNum := -2; }
      } else {
        InterpretParameter(c);
      }
    }

    /** font_draw_text and the cursor movement behind it. */
    method DrawRun(s: seq<nat>)
      requires Valid() && paramNum == -2 && s != [] && cursorColumn + |s| <= columns && Plain(s)
      modifies `cursorRow, `cursorColumn, `cells
      ensures Valid() && Snapshot() == Written(old(Snapshot()), s)
    {
      ghost var t := Snapshot();
      RunIsCharacters(t, s);
      WrittenKeeps(t, s);
      hide Written;
      var over := Glyphs(Attributes(bold, underline, reverse, fg, bg), s);
      cells := cells[cursorRow := Overlaid(cells[cursorRow], cursorColumn, over)];
      cursorColumn := cursorColumn + |s|;
      if cursorColumn >= columns {
        cursorColumn := 0;
        cursorRow := cursorRow + 1;
        if cursorRow >= rows {
          cells := cells[1..] + [BlankRow(columns)];
          cursorRow := rows - 1;
        }
      }
    }

    /** The loop that draws text, one line at a time. */
    method DrawText(s: seq<nat>)
      requires Valid() && paramNum == -2 && Plain(s)
      modifies `cursorRow, `cursorColumn, `cells
      ensures Valid() && Snapshot() == Written(old(Snapshot()), s)
    {
      hide Written;
      var start: nat := 0;
      assert s[0..] == s;
      while start < |s|
        invariant start <= |s| && Valid()
        invariant Written(Snapshot(), s[start..]) == Written(old(Snapshot()), s)
      {
        ghost var t := Snapshot();
        var n: nat := |s| - start;
        if n > columns - cursorColumn { n := columns - cursorColumn; }
        WrittenInParts(t, s[start..start + n], s[start + n..]);
        assert s[start..start + n] + s[start + n..] == s[start..];
        hide WellFormed;
        DrawRun(s[start..start + n]);
        start := start + n;
      }
      assert s[start..] == [];
      NothingWritten(Snapshot());
    }

    /** The scan for the first special character. */
    method Scan(buf: seq<nat>, start: nat) returns (i: nat)
      requires start <= |buf|
      ensures start <= i <= |buf| && Plain(buf[start..i])
      ensures i < |buf| ==> Special(buf[i])
    {
      i := start;
      while i < |buf|
        invariant start <= i <= |buf| && Plain(buf[start..i])
      {
        if Special(buf[i]) { break; }
        assert buf[start..i + 1] == buf[start..i] + [buf[i]];
        i := i + 1;
      }
    }

    /** The loop that interprets characters, up to the next text. */
    method InterpretRun(buf: seq<nat>, start: nat) returns (end: nat)
      requires Valid() && start < |buf| && (paramNum != -2 || Special(buf[start]))
      modifies this, param
      ensures Valid() && start < end <= |buf|
      ensures Written(Snapshot(), buf[end..]) == Written(old(Snapshot()), buf[start..])
    {
      hide WellFormed, Step;
      var i := start;
      end := |buf|;
      while i < end
        invariant Valid() && start <= i <= |buf| + 1 && start <= end <= |buf|
        invariant i <= end ==> end == |buf|
        invariant i > end ==> end > start
        invariant i == start ==> paramNum == old(paramNum)
        invariant Written(Snapshot(), buf[if i <= end then i else end..]) == Written(old(Snapshot()), buf[start..])
        decreases |buf| - i
      {
        ghost var t := Snapshot();
        var c := buf[i];
        i := i + 1;
        StepKeeps(t, c);
        assert buf[i - 1..][0] == c && buf[i - 1..][1..] == buf[i..];
        var text := Interpret(c);
        if text { end := i - 1; }
      }
    }

    /** term_write: all of the text is taken, and the result is that of taking it
        one character at a time. */
    method Write(buf: seq<nat>) returns (end: nat)
      requires Valid()
      modifies this, param
      ensures Valid() && end == |buf| && Snapshot() == Written(old(Snapshot()), buf)
    {
      hide WellFormed, Step;
      end := 0;
      assert buf[0..] == buf;
      while end < |buf|
        invariant end <= |buf| && Valid()
        invariant Written(Snapshot(), buf[end..]) == Written(old(Snapshot()), buf)
      {
        var start := end;
        var i := start;
        if paramNum == -2 { i := Scan(buf, start); }
        if i > start {
          WrittenInParts(Snapshot(), buf[start..i], buf[i..]);
          assert buf[start..i] + buf[i..] == buf[start..];
          DrawText(buf[start..i]);
          end := i;
        } else {
          end := InterpretRun(buf, start);
        }
      }
      assert buf[end..] == [];
    }
  }
}
