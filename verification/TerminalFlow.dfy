/** Text of any length: it runs on from line to line over a screen that moves up. */
module TerminalFlow {
  import opened Products
  import opened TerminalMachine
  import opened TerminalModule
  import opened TerminalSequences

  /** The number of a place, counted along the lines from the top left place of the
      screen before the text. */
  function PlaceNumber(columns: nat, row: nat, column: nat): nat { row * columns + column }

  /** The place that stands on row i and column j when the screen has moved up by up
      rows: new text, what was there, or blank below the old screen. */
  function Expected(t: Term, s: seq<nat>, up: nat, i: nat, j: nat): Cell
    requires WellFormed(t) && j < t.columns
  {
    var start, place := PlaceNumber(t.columns, t.row, t.column), PlaceNumber(t.columns, i + up, j);
    if start <= place < start + |s| then
      var ch := s[place - start];
      if t.attr.reverse then Glyph(ch, t.attr.bold, t.attr.bg, t.attr.fg)
      else Glyph(ch, t.attr.bold, t.attr.fg, t.attr.bg)
    else if i + up < t.rows then t.cells[i + up][j]
    else Blank
  }

  /** After the text the cursor is at the place behind it; the screen has moved up only
      if the cursor is on the last row, and every place shows what it should. */
  ghost predicate Flows(t: Term, t': Term, s: seq<nat>, up: nat)
    requires WellFormed(t)
  {
    && WellFormed(t') && t'.rows == t.rows && t'.columns == t.columns
    && t'.attr == t.attr && t'.paramNum == -2 && t'.params == t.params
    && PlaceNumber(t.columns, t'.row + up, t'.column) == PlaceNumber(t.columns, t.row, t.column) + |s|
    && (up > 0 ==> t'.row == t.rows - 1)
    && forall i: nat, j: nat :: i < t.rows && j < t.columns ==> t'.cells[i][j] == Expected(t, s, up, i, j)
  }

  /** These say where the cursor is and by how much the screen has moved. */
  lemma FlowsOneWay(t: Term, t': Term, t'': Term, s: seq<nat>, up: nat, up': nat)
    requires WellFormed(t) && Flows(t, t', s, up) && Flows(t, t'', s, up')
    ensures up == up' && t' == t''
  {
    OneQuotient(t.columns, t'.row + up, t'.column, t''.row + up', t''.column);
    forall i: nat | i < t.rows ensures t'.cells[i] == t''.cells[i] {
      forall j: nat | j < t.columns ensures t'.cells[i][j] == t''.cells[i][j] {}
    }
  }

  lemma SamePlace(columns: nat, row: nat, column: nat, row': nat, column': nat)
    requires column < columns && column' < columns
    ensures PlaceNumber(columns, row, column) == PlaceNumber(columns, row', column') <==>
      row == row' && column == column'
  {
    if PlaceNumber(columns, row, column) == PlaceNumber(columns, row', column') {
      OneQuotient(columns, row, column, row', column');
    }
  }

  /** One more character. */
  lemma DrawnNext(t: Term, t1: Term, s: seq<nat>, ch: nat, up: nat)
    requires WellFormed(t) && Flows(t, t1, s, up)
    ensures Flows(t, Draw(t1, ch), s + [ch], if t1.column + 1 == t.columns && t1.row + 1 == t.rows then up + 1 else up)
  {
    var t', s' := Draw(t1, ch), s + [ch];
    var scrolls := t1.column + 1 == t.columns && t1.row + 1 == t.rows;
    var up' := if scrolls then up + 1 else up;
    NextPlace(t.columns, t1.row + up, t1.column);
    hide Expected, PlaceNumber;
    forall i: nat, j: nat | i < t.rows && j < t.columns ensures t'.cells[i][j] == Expected(t, s', up', i, j) {
      if scrolls && i == t.rows - 1 {
        BelowIsBlank(t, s', up', i, j, t'.row);
      } else {
        var k := if scrolls then i + 1 else i;
        ShownNext(t, t1, s, ch, up, k, j);
        SameExpected(t, s', up, k, up', i, j);
      }
    }
  }

  lemma SameExpected(t: Term, s: seq<nat>, up: nat, k: nat, up': nat, i: nat, j: nat)
    requires WellFormed(t) && j < t.columns && i + up' == k + up
    ensures Expected(t, s, up, k, j) == Expected(t, s, up', i, j)
  {}

  lemma NextPlace(columns: nat, row: nat, column: nat)
    requires column < columns
    ensures PlaceNumber(columns, row, column) + 1 ==
      if column + 1 < columns then PlaceNumber(columns, row, column + 1) else PlaceNumber(columns, row + 1, 0)
  {}

  lemma BelowIsBlank(t: Term, s: seq<nat>, up: nat, i: nat, j: nat, row: nat)
    requires WellFormed(t) && i == row == t.rows - 1 && j < t.columns && up > 0
    requires PlaceNumber(t.columns, row + up, 0) == PlaceNumber(t.columns, t.row, t.column) + |s|
    ensures Expected(t, s, up, i, j) == Blank
  {}

  /** A place of the screen before it moves up. */
  lemma ShownNext(t: Term, t1: Term, s: seq<nat>, ch: nat, up: nat, k: nat, j: nat)
    requires WellFormed(t) && Flows(t, t1, s, up) && k < t.rows && j < t.columns
    ensures var cell := Glyph(ch, t1.attr.bold, if t1.attr.reverse then t1.attr.bg else t1.attr.fg,
                              if t1.attr.reverse then t1.attr.fg else t1.attr.bg);
      (if k == t1.row && j == t1.column then cell else t1.cells[k][j]) == Expected(t, s + [ch], up, k, j)
  {
    SamePlace(t.columns, k + up, j, t1.row + up, t1.column);
    assert t1.cells[k][j] == Expected(t, s, up, k, j);
    hide PlaceNumber, WellFormed;
  }

  /** A text of any length without control characters fills the places from the cursor
      on, line by line, in the current attributes, and the screen moves up as far as is
      needed; nothing else changes. */
  lemma {:induction false} TextFlows(t: Term, s: seq<nat>) returns (up: nat)
    requires WellFormed(t) && t.paramNum == -2 && Plain(s)
    ensures Flows(t, Written(t, s), s, up)
    decreases |s|
  {
    if s == [] {
      up := 0;
    } else {
      var s0, ch := s[..|s| - 1], s[|s| - 1];
      assert s == s0 + [ch];
      up := TextFlows(t, s0);
      var t1 := Written(t, s0);
      WrittenInParts(t, s0, [ch]);
      WrittenOne(t1, ch);
      DrawnNext(t, t1, s0, ch, up);
      up := if t1.column + 1 == t.columns && t1.row + 1 == t.rows then up + 1 else up;
    }
  }
}
