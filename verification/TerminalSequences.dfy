/** What a text and whole control sequences do to the screen: what is sent in
    decimal is what is done. */
module TerminalSequences {
  import opened TerminalMachine
  import opened TerminalModule

  // -------------------------------------------------- text

  /** A text that ends before the right edge stands where the cursor was, in the
      current attributes, and the cursor behind it; nothing else changes. */
  lemma TextAppears(t: Term, s: seq<nat>)
    requires WellFormed(t) && t.paramNum == -2 && s != [] && Plain(s) && t.column + |s| < t.columns
    ensures var t' := Written(t, s);
      && t'.row == t.row && t'.column == t.column + |s| && t'.attr == t.attr && |t'.cells| == t.rows
      && (forall i :: 0 <= i < t.rows && i != t.row ==> t'.cells[i] == t.cells[i])
      && |t'.cells[t.row]| == t.columns
      && (forall j :: 0 <= j < t.columns ==>
            t'.cells[t.row][j] ==
            (if t.column <= j < t.column + |s| then GlyphOf(t.attr, s[j - t.column]) else t.cells[t.row][j]))
  {
    RunIsCharacters(t, s);
    hide Written, GlyphOf, Plain, Overlaid, Glyphs;
    forall j | 0 <= j < t.columns
      ensures Overlaid(t.cells[t.row], t.column, Glyphs(t.attr, s))[j] ==
        (if t.column <= j < t.column + |s| then GlyphOf(t.attr, s[j - t.column]) else t.cells[t.row][j])
    {
      OverlaidAt(t.cells[t.row], t.column, t.attr, s, j);
    }
  }

  lemma OverlaidAt(row: seq<Cell>, column: nat, a: Attributes, s: seq<nat>, j: nat)
    requires column + |s| <= |row| && j < |row|
    ensures |Glyphs(a, s)| == |s|
    ensures Overlaid(row, column, Glyphs(a, s))[j] ==
      if column <= j < column + |s| then GlyphOf(a, s[j - column]) else row[j]
  {}

  /** A linefeed goes to the left edge of the next row, and on the last row moves
      all rows up by one. */
  lemma NewLine(t: Term)
    requires WellFormed(t) && t.paramNum == -2
    ensures var t' := Written(t, [LF]);
      && t'.column == 0 && t'.attr == t.attr && |t'.cells| == t.rows
      && (t.row + 1 < t.rows ==> t'.row == t.row + 1 && t'.cells == t.cells)
      && (t.row + 1 == t.rows ==> t'.row == t.row)
      && (t.row + 1 == t.rows ==> forall i :: 0 <= i < t.rows ==>
            t'.cells[i] == (if i + 1 < t.rows then t.cells[i + 1] else BlankRow(t.columns)))
  {
    WrittenOne(t, LF);
  }

  // -------------------------------------------------- control sequences

  function Decimal(n: nat): (s: seq<nat>)
    ensures s != []
  {
    if n < 10 then ['0' as nat + n] else Decimal(n / 10) + ['0' as nat + n % 10]
  }

  lemma WrittenOne(t: Term, c: nat)
    requires WellFormed(t)
    ensures WellFormed(Step(t, c)) && Written(t, [c]) == Step(t, c)
  {
    StepKeeps(t, c);
    hide WellFormed, Step;
    assert [c][1..] == [];
  }

  /** A decimal number of up to four digits arrives as itself; of a longer one the first
      four digits do. */
  lemma {:induction false} NumberArrives(t: Term, n: nat)
    requires WellFormed(t) && t.paramNum >= 0 && t.params[t.paramNum] == 0
    ensures Written(t, Decimal(n)) == t.(params := t.params[t.paramNum := FirstFour(n)])
  {
    if n < 10 {
      WrittenOne(t, '0' as nat + n);
    } else {
      NumberArrives(t, n / 10);
      WrittenInParts(t, Decimal(n / 10), ['0' as nat + n % 10]);
      var u := t.(params := t.params[t.paramNum := FirstFour(n / 10)]);
      WrittenKeeps(t, Decimal(n / 10));
      WrittenOne(u, '0' as nat + n % 10);
      FirstFourDigits(n);
      assert u.params[t.paramNum := FirstFour(n)] == t.params[t.paramNum := FirstFour(n)];
    }
  }

  function FirstFour(n: nat): (r: nat)
    ensures r <= 9999 && (n <= 9999 ==> r == n)
  {
    if n <= 9999 then n else FirstFour(n / 10)
  }

  /** Once there are four digits, more make no difference. */
  lemma {:induction false} FirstFourDigits(n: nat)
    ensures n >= 10 ==>
      FirstFour(n) == if FirstFour(n / 10) < 1000 then FirstFour(n / 10) * 10 + n % 10 else FirstFour(n / 10)
    ensures n >= 1000 ==> FirstFour(n) >= 1000
  {
    if n > 9999 { FirstFourDigits(n / 10); }
  }

  /** ESC [ starts the first parameter. */
  lemma Introduced(t: Term)
    requires WellFormed(t) && t.paramNum == -2
    ensures Written(t, [ESC, '[' as nat]) == t.(paramNum := 0, params := t.params[0 := 0])
  {
    WrittenOne(t, ESC);
    WrittenInParts(t, [ESC], ['[' as nat]);
    assert [ESC] + ['[' as nat] == [ESC, '[' as nat];
    WrittenOne(Step(t, ESC), '[' as nat);
  }

  /** ESC [ n c, with one number and a final character. */
  lemma OneNumber(t: Term, n: nat, c: nat)
    requires WellFormed(t) && t.paramNum == -2 && n <= 9999
    ensures var u := t.(paramNum := 0, params := t.params[0 := n]);
      WellFormed(u) && Written(t, [ESC, '[' as nat] + Decimal(n) + [c]) == Step(u, c)
  {
    var t1, u := t.(paramNum := 0, params := t.params[0 := 0]), t.(paramNum := 0, params := t.params[0 := n]);
    Introduced(t);
    NumberArrives(t1, n);
    WrittenInParts(t, [ESC, '[' as nat], Decimal(n));
    WrittenInParts(t, [ESC, '[' as nat] + Decimal(n), [c]);
    assert t1.params[0 := n] == u.params;
    WrittenOne(u, c);
  }

  /** ESC [ n m: 0 is the normal rendition, 1, 4 and 7 switch an attribute on, 30 to
      37 and 40 to 47 choose the colours, and any other number does nothing. */
  lemma SelectRendition(t: Term, n: nat)
    requires WellFormed(t) && t.paramNum == -2 && n <= 9999
    ensures var t', a := Written(t, [ESC, '[' as nat] + Decimal(n) + ['m' as nat]), t.attr;
      && t'.cells == t.cells && t'.row == t.row && t'.column == t.column && t'.paramNum == -2
      && t'.attr.bold == (n == 1 || (n != 0 && a.bold))
      && t'.attr.underline == (n == 4 || (n != 0 && a.underline))
      && t'.attr.reverse == (n == 7 || (n != 0 && a.reverse))
      && t'.attr.fg == (if 30 <= n <= 37 then n - 30 else if n == 0 then NORMAL_FOREGROUND else a.fg)
      && t'.attr.bg == (if 40 <= n <= 47 then n - 40 else if n == 0 then NORMAL_BACKGROUND else a.bg)
  {
    OneNumber(t, n, 'm' as nat);
    var u := t.(paramNum := 0, params := t.params[0 := n]);
    assert u.params[..1] == [n] && [n][1..] == [];
    hide Written, Decimal;
    assert Renditions(t.attr, [n]) == Rendition(t.attr, n);
  }

  /** ESC [ 2 J clears every place and leaves the cursor where it was. */
  lemma EraseAll(t: Term)
    requires WellFormed(t) && t.paramNum == -2
    ensures var t' := Written(t, [ESC, '[' as nat] + Decimal(2) + ['J' as nat]);
      && t'.row == t.row && t'.column == t.column && |t'.cells| == t.rows
      && (forall i, j :: 0 <= i < t.rows && 0 <= j < t.columns ==>
        |t'.cells[i]| == t.columns && t'.cells[i][j] == Blank)
  {
    OneNumber(t, 2, 'J' as nat);
    var u := t.(paramNum := 0, params := t.params[0 := 2]);
    StepKeeps(u, 'J' as nat);
    hide Written, Decimal;
  }

  /** From t to t' the line of the cursor is cleared: from the cursor on (n = 0), up
      to column end (n = 1), or all of it (n = 2). */
  ghost predicate ErasedInLine(t: Term, t': Term, n: nat, end: nat)
    requires WellFormed(t)
  {
    && |t'.cells| == t.rows
    && (forall i :: 0 <= i < t.rows ==> |t'.cells[i]| == t.columns)
    && (forall i, j :: 0 <= i < t.rows && 0 <= j < t.columns ==>
          t'.cells[i][j] ==
          (if i == t.row && (n == 0 ==> j >= t.column) && (n == 1 ==> j < end) then Blank else t.cells[i][j]))
  }

  /** ESC [ n K does not count the cursor in when it clears up to it. */
  lemma EraseInLine(t: Term, n: nat)
    requires WellFormed(t) && t.paramNum == -2 && n <= 2
    ensures var t' := Written(t, [ESC, '[' as nat] + Decimal(n) + ['K' as nat]);
      ErasedInLine(t, t', n, t.column) && t'.row == t.row && t'.column == t.column
  {
    OneNumber(t, n, 'K' as nat);
    var u := t.(paramNum := 0, params := t.params[0 := n]);
    StepKeeps(u, 'K' as nat);
    hide Written, Decimal;
  }

  /** EL of ECMA-48, section 8.3.41, counts it in; the two agree exactly when there
      is nothing to clear under the cursor. */
  lemma EraseInLineIsStandardExactlyWhen(t: Term, n: nat)
    requires WellFormed(t) && t.paramNum == -2 && n <= 2
    ensures ErasedInLine(t, Written(t, [ESC, '[' as nat] + Decimal(n) + ['K' as nat]), n, t.column + 1) <==>
      n != 1 || t.cells[t.row][t.column] == Blank
  {
    EraseInLine(t, n);
    hide Written, Decimal;
    var t' := Written(t, [ESC, '[' as nat] + Decimal(n) + ['K' as nat]);
    assert n == 1 ==> t'.cells[t.row][t.column] == t.cells[t.row][t.column];
  }

  /** From t to t' the screen is cleared: from the cursor on (n = 0), up to place end of
      its line (n = 1), or all of it (n = 2). */
  ghost predicate ErasedInDisplay(t: Term, t': Term, n: nat, end: nat)
    requires WellFormed(t)
  {
    && |t'.cells| == t.rows
    && (forall i :: 0 <= i < t.rows ==> |t'.cells[i]| == t.columns)
    && (forall i, j :: 0 <= i < t.rows && 0 <= j < t.columns ==>
          t'.cells[i][j] ==
          (if && (n == 0 ==> i > t.row || (i == t.row && j >= t.column))
              && (n == 1 ==> i < t.row || (i == t.row && j < end))
           then Blank else t.cells[i][j]))
  }

  /** ESC [ n J does not count the cursor in either when it clears up to it. */
  lemma EraseInDisplay(t: Term, n: nat)
    requires WellFormed(t) && t.paramNum == -2 && n <= 2
    ensures var t' := Written(t, [ESC, '[' as nat] + Decimal(n) + ['J' as nat]);
      ErasedInDisplay(t, t', n, t.column) && t'.row == t.row && t'.column == t.column
  {
    OneNumber(t, n, 'J' as nat);
    var u := t.(paramNum := 0, params := t.params[0 := n]);
    StepKeeps(u, 'J' as nat);
    hide Written, Decimal;
  }

  /** ED of ECMA-48, section 8.3.39, counts it in; the two agree exactly when there is
      nothing to clear under the cursor. */
  lemma EraseInDisplayIsStandardExactlyWhen(t: Term, n: nat)
    requires WellFormed(t) && t.paramNum == -2 && n <= 2
    ensures ErasedInDisplay(t, Written(t, [ESC, '[' as nat] + Decimal(n) + ['J' as nat]), n, t.column + 1) <==>
      n != 1 || t.cells[t.row][t.column] == Blank
  {
    EraseInDisplay(t, n);
    hide Written, Decimal;
    var t' := Written(t, [ESC, '[' as nat] + Decimal(n) + ['J' as nat]);
    assert n == 1 ==> t'.cells[t.row][t.column] == t.cells[t.row][t.column];
  }

  predicate Shows(t: Term, row: nat, column: nat, cell: Cell)
  {
    row < |t.cells| && column < |t.cells[row]| && t.cells[row][column] == cell
  }

  /** A character at the left edge, a carriage return back to it, and an erasure up to
      the cursor: the character stays, where the standard would clear it. */
  lemma CharacterSurvives(t: Term, ch: nat)
    requires WellFormed(t) && t.paramNum == -2 && t.column == 0 && t.columns > 1 && !Special(ch)
    ensures var u := Written(t, [ch, CR]);
      && WellFormed(u) && u.paramNum == -2
      && var line, screen := Written(u, [ESC, '[' as nat] + Decimal(1) + ['K' as nat]),
                             Written(u, [ESC, '[' as nat] + Decimal(1) + ['J' as nat]);
         && Shows(line, u.row, 0, GlyphOf(t.attr, ch)) && Shows(screen, u.row, 0, GlyphOf(t.attr, ch))
         && !ErasedInLine(u, line, 1, 1) && !ErasedInDisplay(u, screen, 1, 1)
  {
    var u := Written(t, [ch, CR]);
    WrittenOne(t, ch);
    WrittenInParts(t, [ch], [CR]);
    assert [ch] + [CR] == [ch, CR];
    WrittenOne(Step(t, ch), CR);
    hide Written, Decimal;
    EraseInLine(u, 1);
    EraseInDisplay(u, 1);
    EraseInLineIsStandardExactlyWhen(u, 1);
    EraseInDisplayIsStandardExactlyWhen(u, 1);
  }
}
