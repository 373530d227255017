/**
 * The on-screen keyboard of keyboard.py: the fixed layout tables and the
 * geometry of DrawKeyboard, which places one rectangle per key, row by row,
 * and marks the keys whose cooldown is still running as pressed.
 * Pixel drawing is abstracted: each call to `_drawKey` is recorded as a `Rect`.
 *
 * The width functions take the size table as a parameter `sizes`; the model
 * always passes SIZES, and the general lemmas hold for any table whose widths
 * are at least one key side.
 */
module Keyboard {

  /** The frame width is divided into this many unit-width key columns. */
  const COLUMNS: int := 15

  /** The keyboard layout, top row first, each row left to right. */
  const ROWS: seq<seq<string>> := [
    ["`", "1", "2", "3", "4", "5", "6", "7", "8", "9", "0", "-", "=", "Backspace"],
    ["Tab", "Q", "W", "E", "R", "T", "Y", "U", "I", "O", "P", "[", "]", "\\"],
    ["Caps", "A", "S", "D", "F", "G", "H", "J", "K", "L", ";", "'", "Return"],
    ["LShift", "Z", "X", "C", "V", "B", "N", "M", ",", ".", "/", "RShift"],
    ["Ctrl", "WIN", "Alt", "Space", "Alt", "WIN", "Ctrl"]
  ]

  /** Widths, in key sides, of the keys that are not one side wide. */
  const SIZES: map<string, real> := map[
    "Backspace" := 2.0,
    "Tab" := 1.5,
    "\\" := 1.5,
    "Caps" := 1.5,
    "Return" := 2.5,
    "LShift" := 2.5,
    "RShift" := 2.5,
    "Ctrl" := 1.5,
    "WIN" := 1.5,
    "Alt" := 1.5,
    "Space" := 6.0
  ]

  /** Key names sent instead of the lower-cased label. */
  const ALIASES: map<string, string> := map[
    "LShift" := "shiftleft",
    "RShift" := "shiftright",
    "Caps" := "capslock"
  ]

  /** A key of the layout. */
  predicate IsLabel(key: string)
  {
    exists r :: 0 <= r < |ROWS| && key in ROWS[r]
  }

  /** No key of the size table is narrower than one key side. */
  predicate AtLeastOneSide(sizes: map<string, real>)
  {
    forall k :: k in sizes ==> sizes[k] >= 1.0
  }

  /** Python's `int()` on a float: truncation toward zero. */
  function Trunc(v: real): (n: int)
    ensures 0.0 <= v ==> 0 <= n && n as real <= v < n as real + 1.0
    ensures v < 0.0 ==> n <= 0 && n as real - 1.0 < v <= n as real
  {
    if v >= 0.0 then v.Floor else -((-v).Floor)
  }

  /** The key side in pixels: `width // 15`. */
  function Side(width: int): (side: int)
    ensures COLUMNS * side <= width < COLUMNS * side + COLUMNS
  {
    width / COLUMNS
  }

  /** The top edge of the keyboard, which centres the rows vertically. */
  function Top(height: int, side: int): (y: int)
    ensures 2 * y <= height - side * |ROWS| < 2 * y + 2
  {
    (height - side * |ROWS|) / 2
  }

  /** The width of a key in key sides (1 for keys without a size). */
  function Units(sizes: map<string, real>, key: string): real
  {
    if key in sizes then sizes[key] else 1.0
  }

  /** The summed width of a row in key sides. */
  function RowUnits(sizes: map<string, real>, keys: seq<string>): real
  {
    if keys == [] then 0.0 else Units(sizes, keys[0]) + RowUnits(sizes, keys[1..])
  }

  /** The exact width of a key in pixels, `SIZES[key] * side` or `side`; the hit test uses it. */
  function KeyWidth(sizes: map<string, real>, key: string, side: int): (w: real)
    ensures AtLeastOneSide(sizes) && side >= 0 ==> side as real <= w
  {
    if key in sizes then sizes[key] * side as real else side as real
  }

  /** The exact width of a row in pixels. */
  function RowWidth(sizes: map<string, real>, keys: seq<string>, side: int): real
  {
    if keys == [] then 0.0 else KeyWidth(sizes, keys[0], side) + RowWidth(sizes, keys[1..], side)
  }

  /** The drawn width of a key in pixels: `int(side * SIZES[key])` or `side`. */
  function DrawnWidth(sizes: map<string, real>, key: string, side: int): int
  {
    if key in sizes then Trunc(side as real * sizes[key]) else side
  }

  /** The drawn left edge of the `i`-th key of a row, relative to the row's start. */
  function DrawnOffset(sizes: map<string, real>, keys: seq<string>, i: nat, side: int): int
    requires i <= |keys|
  {
    if i == 0 then 0 else DrawnWidth(sizes, keys[0], side) + DrawnOffset(sizes, keys[1..], i - 1, side)
  }

  /** A key is highlighted while it has a non-zero cooldown. */
  predicate IsPressed(key: string, pressedKeys: map<string, int>)
  {
    key in pressedKeys && pressedKeys[key] != 0
  }

  /** One `_drawKey` call: the text, its corners `(left, top)` and `(right, bottom)`, and the highlight. */
  datatype Rect = Rect(text: string, left: int, top: int, right: int, bottom: int, pressed: bool)

  /** The rectangles of one row whose first key starts at `x`. */
  function RowRects(sizes: map<string, real>, keys: seq<string>, x: int, y: int, side: int,
                    pressedKeys: map<string, int>): (rects: seq<Rect>)
    ensures |rects| == |keys|
  {
    if keys == [] then []
    else
      var w := DrawnWidth(sizes, keys[0], side);
      [Rect(keys[0], x, y, x + w, y + side, IsPressed(keys[0], pressedKeys))]
        + RowRects(sizes, keys[1..], x + w, y, side, pressedKeys)
  }

  /** The rectangles of the rows, the first one at height `y`, each row one side lower. */
  function LayoutRects(rows: seq<seq<string>>, sizes: map<string, real>, y: int, side: int,
                       pressedKeys: map<string, int>): (layout: seq<seq<Rect>>)
    ensures |layout| == |rows|
  {
    if rows == [] then []
    else [RowRects(sizes, rows[0], 0, y, side, pressedKeys)] + LayoutRects(rows[1..], sizes, y + side, side, pressedKeys)
  }

  /**
   * DrawKeyboard: the key side is `width // 15` and the rows are centred
   * vertically; the rows are then drawn from that height down.
   */
  method DrawKeyboard(width: int, height: int, pressedKeys: map<string, int>) returns (image: seq<seq<Rect>>)
    ensures image == LayoutRects(ROWS, SIZES, Top(height, Side(width)), Side(width), pressedKeys)
  {
    var side := Side(width);
    image := DrawRows(ROWS, SIZES, Top(height, side), side, pressedKeys);
  }

  /**
   * The outer loop of DrawKeyboard: walks the rows with a cursor Y, one
   * row per step; Y moves down one side after every row.
   */
  method DrawRows(rows: seq<seq<string>>, sizes: map<string, real>, top: int, side: int,
                  pressedKeys: map<string, int>) returns (image: seq<seq<Rect>>)
    ensures image == LayoutRects(rows, sizes, top, side, pressedKeys)
  {
    var y := top;
    image := [];
    var r := 0;
    assert rows[r..] == rows;
    while r < |rows|
      invariant 0 <= r <= |rows|
      invariant image + LayoutRects(rows[r..], sizes, y, side, pressedKeys)
             == LayoutRects(rows, sizes, top, side, pressedKeys)
    {
      var row := DrawRow(sizes, rows[r], y, side, pressedKeys);
      ghost var rest := LayoutRects(rows[r + 1..], sizes, y + side, side, pressedKeys);
      assert rows[r..][1..] == rows[r + 1..];
      assert LayoutRects(rows[r..], sizes, y, side, pressedKeys) == [row] + rest;
      assert image + [row] + rest == image + ([row] + rest);
      image := image + [row];
      y := y + side;
      r := r + 1;
    }
    assert rows[r..] == [];
  }

  /** The inner loop of DrawKeyboard: one row at height `y`, the cursor X starting at 0. */
  method DrawRow(sizes: map<string, real>, keys: seq<string>, y: int, side: int, pressedKeys: map<string, int>) returns (row: seq<Rect>)
    ensures row == RowRects(sizes, keys, 0, y, side, pressedKeys)
  {
    var x := 0;
    row := [];
    var i := 0;
    assert keys[i..] == keys;
    while i < |keys|
      invariant 0 <= i <= |keys|
      invariant row + RowRects(sizes, keys[i..], x, y, side, pressedKeys) == RowRects(sizes, keys, 0, y, side, pressedKeys)
    {
      var key := keys[i];
      var pressed := key in pressedKeys && pressedKeys[key] != 0;
      ghost var drawn := Rect(key, x, y, x + DrawnWidth(sizes, key, side), y + side, pressed);
      ghost var rest := RowRects(sizes, keys[i + 1..], x + DrawnWidth(sizes, key, side), y, side, pressedKeys);
      assert keys[i..][1..] == keys[i + 1..];
      assert RowRects(sizes, keys[i..], x, y, side, pressedKeys) == [drawn] + rest;
      assert row + [drawn] + rest == row + ([drawn] + rest);
      ghost var x0, row0 := x, row;
      if key !in sizes {
        row := row + [Rect(key, x, y, x + side, y + side, pressed)];
        x := x + side;
      } else {
        row := row + [Rect(key, x, y, x + Trunc(side as real * sizes[key]), y + side, pressed)];
        x := x + Trunc(side as real * sizes[key]);
      }
      assert x == x0 + DrawnWidth(sizes, key, side) && row == row0 + [drawn];
      i := i + 1;
    }
    assert keys[i..] == [];
  }

  // ---------------------------------------------------------------------------
  // Properties of the layout tables

  /** Every listed size is at least one key side. */
  lemma SizesAtLeastOne()
    ensures AtLeastOneSide(SIZES)
  {
  }

  lemma {:induction false} RowUnitsAppend(sizes: map<string, real>, a: seq<string>, b: seq<string>)
    ensures RowUnits(sizes, a + b) == RowUnits(sizes, a) + RowUnits(sizes, b)
  {
    if a == [] {
      assert a + b == b;
    } else {
      assert (a + b)[0] == a[0];
      assert (a + b)[1..] == a[1..] + b;
      RowUnitsAppend(sizes, a[1..], b);
    }
  }

  // The totals of the five rows are summed three or four keys at a time and
  // the pieces joined with RowUnitsAppend: unfolding RowUnits over a whole
  // row of the literal tables in one proof is too costly for the solver.

  lemma Row0PartA()
    ensures RowUnits(SIZES, ["`", "1", "2", "3"]) == 4.0
  {
  }

  lemma Row0PartB()
    ensures RowUnits(SIZES, ["4", "5", "6", "7"]) == 4.0
  {
  }

  lemma Row0PartC()
    ensures RowUnits(SIZES, ["8", "9", "0"]) == 3.0
  {
  }

  lemma Row0PartD()
    ensures RowUnits(SIZES, ["-", "=", "Backspace"]) == 4.0
  {
  }

  lemma Row0Units()
    ensures RowUnits(SIZES, ROWS[0]) == 15.0
  {
    Row0PartA();
    Row0PartB();
    Row0PartC();
    Row0PartD();
    RowUnitsAppend(SIZES, ["`", "1", "2", "3"], ["4", "5", "6", "7"]);
    RowUnitsAppend(SIZES, ["8", "9", "0"], ["-", "=", "Backspace"]);
    RowUnitsAppend(SIZES, ["`", "1", "2", "3"] + ["4", "5", "6", "7"], ["8", "9", "0"] + ["-", "=", "Backspace"]);
    assert ROWS[0] == (["`", "1", "2", "3"] + ["4", "5", "6", "7"]) + (["8", "9", "0"] + ["-", "=", "Backspace"]);
  }

  lemma Row1PartA()
    ensures RowUnits(SIZES, ["Tab", "Q", "W", "E"]) == 4.5
  {
  }

  lemma Row1PartB()
    ensures RowUnits(SIZES, ["R", "T", "Y", "U"]) == 4.0
  {
  }

  lemma Row1PartC()
    ensures RowUnits(SIZES, ["I", "O", "P"]) == 3.0
  {
  }

  lemma Row1PartD()
    ensures RowUnits(SIZES, ["[", "]", "\\"]) == 3.5
  {
  }

  lemma Row1Units()
    ensures RowUnits(SIZES, ROWS[1]) == 15.0
  {
    Row1PartA();
    Row1PartB();
    Row1PartC();
    Row1PartD();
    RowUnitsAppend(SIZES, ["Tab", "Q", "W", "E"], ["R", "T", "Y", "U"]);
    RowUnitsAppend(SIZES, ["I", "O", "P"], ["[", "]", "\\"]);
    RowUnitsAppend(SIZES, ["Tab", "Q", "W", "E"] + ["R", "T", "Y", "U"], ["I", "O", "P"] + ["[", "]", "\\"]);
    assert ROWS[1] == (["Tab", "Q", "W", "E"] + ["R", "T", "Y", "U"]) + (["I", "O", "P"] + ["[", "]", "\\"]);
  }

  lemma Row2PartA()
    ensures RowUnits(SIZES, ["Caps", "A", "S", "D"]) == 4.5
  {
  }

  lemma Row2PartB()
    ensures RowUnits(SIZES, ["F", "G", "H"]) == 3.0
  {
  }

  lemma Row2PartC()
    ensures RowUnits(SIZES, ["J", "K", "L"]) == 3.0
  {
  }

  lemma Row2PartD()
    ensures RowUnits(SIZES, [";", "'", "Return"]) == 4.5
  {
  }

  lemma Row2Units()
    ensures RowUnits(SIZES, ROWS[2]) == 15.0
  {
    Row2PartA();
    Row2PartB();
    Row2PartC();
    Row2PartD();
    RowUnitsAppend(SIZES, ["Caps", "A", "S", "D"], ["F", "G", "H"]);
    RowUnitsAppend(SIZES, ["J", "K", "L"], [";", "'", "Return"]);
    RowUnitsAppend(SIZES, ["Caps", "A", "S", "D"] + ["F", "G", "H"], ["J", "K", "L"] + [";", "'", "Return"]);
    assert ROWS[2] == (["Caps", "A", "S", "D"] + ["F", "G", "H"]) + (["J", "K", "L"] + [";", "'", "Return"]);
  }

  lemma Row3PartA()
    ensures RowUnits(SIZES, ["LShift", "Z", "X"]) == 4.5
  {
  }

  lemma Row3PartB()
    ensures RowUnits(SIZES, ["C", "V", "B"]) == 3.0
  {
  }

  lemma Row3PartC()
    ensures RowUnits(SIZES, ["N", "M", ","]) == 3.0
  {
  }

  lemma Row3PartD()
    ensures RowUnits(SIZES, [".", "/", "RShift"]) == 4.5
  {
  }

  lemma Row3Units()
    ensures RowUnits(SIZES, ROWS[3]) == 15.0
  {
    Row3PartA();
    Row3PartB();
    Row3PartC();
    Row3PartD();
    RowUnitsAppend(SIZES, ["LShift", "Z", "X"], ["C", "V", "B"]);
    RowUnitsAppend(SIZES, ["N", "M", ","], [".", "/", "RShift"]);
    RowUnitsAppend(SIZES, ["LShift", "Z", "X"] + ["C", "V", "B"], ["N", "M", ","] + [".", "/", "RShift"]);
    assert ROWS[3] == (["LShift", "Z", "X"] + ["C", "V", "B"]) + (["N", "M", ","] + [".", "/", "RShift"]);
  }

  lemma Row4PartA()
    ensures RowUnits(SIZES, ["Ctrl", "WIN", "Alt"]) == 4.5
  {
  }

  lemma Row4PartB()
    ensures RowUnits(SIZES, ["Space", "Alt"]) == 7.5
  {
  }

  lemma Row4PartC()
    ensures RowUnits(SIZES, ["WIN", "Ctrl"]) == 3.0
  {
  }

  lemma Row4Units()
    ensures RowUnits(SIZES, ROWS[4]) == 15.0
  {
    Row4PartA();
    Row4PartB();
    Row4PartC();
    RowUnitsAppend(SIZES, ["Space", "Alt"], ["WIN", "Ctrl"]);
    RowUnitsAppend(SIZES, ["Ctrl", "WIN", "Alt"], ["Space", "Alt"] + ["WIN", "Ctrl"]);
    assert ROWS[4] == ["Ctrl", "WIN", "Alt"] + (["Space", "Alt"] + ["WIN", "Ctrl"]);
  }

  /** Every row adds up to exactly 15 key sides, the divisor of the frame width. */
  lemma EveryRowIsFifteenUnits()
    ensures forall r :: 0 <= r < |ROWS| ==> RowUnits(SIZES, ROWS[r]) == COLUMNS as real
  {
    forall r | 0 <= r < |ROWS|
      ensures RowUnits(SIZES, ROWS[r]) == COLUMNS as real
    {
      if r == 0 {
        Row0Units();
      } else if r == 1 {
        Row1Units();
      } else if r == 2 {
        Row2Units();
      } else if r == 3 {
        Row3Units();
      } else {
        Row4Units();
      }
    }
  }

  // ---------------------------------------------------------------------------
  // Properties of the drawn geometry

  /** A drawn width is the exact width truncated to whole pixels. */
  lemma DrawnWidthTruncates(sizes: map<string, real>, key: string, side: int)
    requires AtLeastOneSide(sizes)
    ensures DrawnWidth(sizes, key, side) == Trunc(KeyWidth(sizes, key, side))
    ensures side >= 0 ==>
      && 0 <= DrawnWidth(sizes, key, side)
      && DrawnWidth(sizes, key, side) as real <= KeyWidth(sizes, key, side) < DrawnWidth(sizes, key, side) as real + 1.0
  {
  }

  /** Each key starts where the one before it ends. */
  lemma {:induction false} DrawnOffsetStep(sizes: map<string, real>, keys: seq<string>, i: nat, side: int)
    requires i < |keys|
    ensures DrawnOffset(sizes, keys, i + 1, side) == DrawnOffset(sizes, keys, i, side) + DrawnWidth(sizes, keys[i], side)
  {
    if i > 0 {
      DrawnOffsetStep(sizes, keys[1..], i - 1, side);
    }
  }

  lemma {:induction false} DrawnOffsetMonotone(sizes: map<string, real>, keys: seq<string>, i: nat, j: nat, side: int)
    requires AtLeastOneSide(sizes) && side >= 0
    requires i <= j <= |keys|
    ensures DrawnOffset(sizes, keys, i, side) <= DrawnOffset(sizes, keys, j, side)
  {
    if i < j {
      DrawnOffsetMonotone(sizes, keys, i, j - 1, side);
      DrawnOffsetStep(sizes, keys, j - 1, side);
      DrawnWidthTruncates(sizes, keys[j - 1], side);
    }
  }

  /** A drawn row is never wider than its exact width. */
  lemma {:induction false} DrawnRowWithinWidth(sizes: map<string, real>, keys: seq<string>, side: int)
    requires AtLeastOneSide(sizes) && side >= 0
    ensures 0 <= DrawnOffset(sizes, keys, |keys|, side)
    ensures DrawnOffset(sizes, keys, |keys|, side) as real <= RowWidth(sizes, keys, side)
  {
    if keys != [] {
      DrawnRowWithinWidth(sizes, keys[1..], side);
      DrawnWidthTruncates(sizes, keys[0], side);
    }
  }

  /** The exact width of a row is `side` times its width in units. */
  lemma {:induction false} RowWidthIsUnits(sizes: map<string, real>, keys: seq<string>, side: int)
    ensures RowWidth(sizes, keys, side) == side as real * RowUnits(sizes, keys)
  {
    if keys != [] {
      RowWidthIsUnits(sizes, keys[1..], side);
      var s, u, v := side as real, Units(sizes, keys[0]), RowUnits(sizes, keys[1..]);
      assert s * (u + v) == s * u + s * v;
    }
  }

  /** Rectangle `i` of a row: its text, its corners and its highlight. */
  lemma {:induction false} RowRectsPlacement(sizes: map<string, real>, keys: seq<string>, x: int, y: int, side: int,
                                             pressedKeys: map<string, int>)
    ensures forall i :: 0 <= i < |keys| ==>
      RowRects(sizes, keys, x, y, side, pressedKeys)[i]
        == Rect(keys[i], x + DrawnOffset(sizes, keys, i, side), y,
                x + DrawnOffset(sizes, keys, i, side) + DrawnWidth(sizes, keys[i], side), y + side,
                IsPressed(keys[i], pressedKeys))
  {
    if keys != [] {
      var w, rest := DrawnWidth(sizes, keys[0], side), keys[1..];
      RowRectsPlacement(sizes, rest, x + w, y, side, pressedKeys);
      forall i | 0 < i < |keys|
        ensures RowRects(sizes, keys, x, y, side, pressedKeys)[i]
             == RowRects(sizes, rest, x + w, y, side, pressedKeys)[i - 1]
        ensures rest[i - 1] == keys[i]
        ensures DrawnOffset(sizes, keys, i, side) == w + DrawnOffset(sizes, rest, i - 1, side)
      {
      }
    }
  }

  /** Row `r` of the layout is drawn `r` sides below the top. */
  lemma {:induction false} LayoutRectsPlacement(rows: seq<seq<string>>, sizes: map<string, real>, y: int, side: int,
                                                pressedKeys: map<string, int>)
    ensures forall r :: 0 <= r < |rows| ==>
      LayoutRects(rows, sizes, y, side, pressedKeys)[r] == RowRects(sizes, rows[r], 0, y + r * side, side, pressedKeys)
  {
    if rows != [] {
      LayoutRectsPlacement(rows[1..], sizes, y + side, side, pressedKeys);
      forall r | 0 < r < |rows|
        ensures LayoutRects(rows, sizes, y, side, pressedKeys)[r]
             == RowRects(sizes, rows[r], 0, y + r * side, side, pressedKeys)
      {
        assert (y + side) + (r - 1) * side == y + r * side;
      }
    }
  }

  /**
   * The rectangles of a layout: one per key, in row-major order, each one side
   * high and its drawn width wide, the first of a row at X = 0 and every other
   * one abutting its left neighbour, row `r` at `y + r * side`, highlighted
   * exactly when its label has a non-zero cooldown.
   */
  lemma LayoutGeometry(rows: seq<seq<string>>, sizes: map<string, real>, y: int, side: int,
                       pressedKeys: map<string, int>)
    ensures var image := LayoutRects(rows, sizes, y, side, pressedKeys);
      && |image| == |rows|
      && (forall r :: 0 <= r < |rows| ==> |image[r]| == |rows[r]|)
      && (forall r, i :: 0 <= r < |rows| && 0 <= i < |rows[r]| ==>
            && image[r][i].text == rows[r][i]
            && image[r][i].top == y + r * side
            && image[r][i].bottom == image[r][i].top + side
            && image[r][i].right - image[r][i].left == DrawnWidth(sizes, rows[r][i], side)
            && image[r][i].left == (if i == 0 then 0 else image[r][i - 1].right)
            && image[r][i].pressed == IsPressed(rows[r][i], pressedKeys))
  {
    LayoutRectsPlacement(rows, sizes, y, side, pressedKeys);
    var image: seq<seq<Rect>> := LayoutRects(rows, sizes, y, side, pressedKeys);
    forall r | 0 <= r < |rows|
      ensures forall i :: 0 <= i < |rows[r]| ==>
        image[r][i] == Rect(rows[r][i], DrawnOffset(sizes, rows[r], i, side), y + r * side,
                            DrawnOffset(sizes, rows[r], i, side) + DrawnWidth(sizes, rows[r][i], side), y + r * side + side,
                            IsPressed(rows[r][i], pressedKeys))
    {
      RowRectsPlacement(sizes, rows[r], 0, y + r * side, side, pressedKeys);
    }
    forall r, i | 0 <= r < |rows| && 0 < i < |rows[r]|
      ensures image[r][i].left == image[r][i - 1].right
    {
      DrawnOffsetStep(sizes, rows[r], i - 1, side);
    }
  }

  /**
   * Keys with the same label are highlighted together, as the bottom row's
   * two Ctrl, WIN and Alt keys are: both copies look up the same cooldown.
   */
  lemma SameLabelSameHighlight(rows: seq<seq<string>>, sizes: map<string, real>, y: int, side: int,
                               pressedKeys: map<string, int>, r: nat, i: nat, r2: nat, i2: nat)
    requires r < |rows| && i < |rows[r]| && r2 < |rows| && i2 < |rows[r2]|
    requires rows[r][i] == rows[r2][i2]
    ensures var image := LayoutRects(rows, sizes, y, side, pressedKeys);
      && |image[r]| == |rows[r]| && |image[r2]| == |rows[r2]|
      && image[r][i].pressed == image[r2][i2].pressed
  {
    LayoutGeometry(rows, sizes, y, side, pressedKeys);
  }

  /** Rectangles of one row do not overlap: an earlier key ends before a later one starts. */
  lemma RowRectsDisjoint(sizes: map<string, real>, keys: seq<string>, x: int, y: int, side: int,
                         pressedKeys: map<string, int>, i: nat, j: nat)
    requires AtLeastOneSide(sizes) && side >= 0
    requires i < j < |keys|
    ensures RowRects(sizes, keys, x, y, side, pressedKeys)[i].right <= RowRects(sizes, keys, x, y, side, pressedKeys)[j].left
  {
    RowRectsPlacement(sizes, keys, x, y, side, pressedKeys);
    DrawnOffsetStep(sizes, keys, i, side);
    DrawnOffsetMonotone(sizes, keys, i + 1, j, side);
  }

  /** Every drawn row ends at or before `15 * side`, which is within the frame width. */
  lemma RowsFitFrame(width: int)
    requires width >= 0
    ensures forall r :: 0 <= r < |ROWS| ==>
      0 <= DrawnOffset(SIZES, ROWS[r], |ROWS[r]|, Side(width)) <= COLUMNS * Side(width) <= width
  {
    SizesAtLeastOne();
    EveryRowIsFifteenUnits();
    forall r | 0 <= r < |ROWS|
      ensures 0 <= DrawnOffset(SIZES, ROWS[r], |ROWS[r]|, Side(width)) <= COLUMNS * Side(width)
    {
      DrawnRowWithinWidth(SIZES, ROWS[r], Side(width));
      RowWidthIsUnits(SIZES, ROWS[r], Side(width));
    }
  }
}
