/**
 * The key-press engine of detection.py: the hit test `_getKey`, which maps a
 * fingertip's pixel position to the key under it, and the part of
 * `ProcessImage` that turns fingertip samples into pressed keys and keeps the
 * per-label cooldown table TIMEOUT.
 *
 * The hand detector is abstracted: a hand arrives as its 21 landmarks, each
 * already in pixels (x, y) with the detector's depth estimate z.
 */
module Detection {
  import opened Wrappers
  import opened Keyboard

  /** The number of landmarks of a detected hand. */
  const HAND_LANDMARKS: int := 21

  /** Landmark indices of the fingertips. */
  const THUMB_TIP: int := 4
  const INDEX_FINGER_TIP: int := 8
  const MIDDLE_FINGER_TIP: int := 12
  const RING_FINGER_TIP: int := 16
  const PINKY_TIP: int := 20

  /** The fingertips that can press keys, in the order they are examined. */
  const POINTS: seq<int> := [INDEX_FINGER_TIP, MIDDLE_FINGER_TIP, RING_FINGER_TIP]

  /** A fingertip presses when its depth is at most its threshold. */
  const THRESHOLDS: map<int, real> := map[
    THUMB_TIP := -0.13,
    INDEX_FINGER_TIP := -0.15,
    MIDDLE_FINGER_TIP := -0.17,
    RING_FINGER_TIP := -0.16,
    PINKY_TIP := -0.14
  ]

  /** Keys that never produce a press. */
  const EXCLUDED: seq<string> := ["Backspace"]

  /** The cooldown a key receives when it fires, in frames. */
  const TIMEOUT_FRAMES: int := 15

  /** One landmark of a hand: pixel position and depth. */
  datatype Landmark = Landmark(x: real, y: real, z: real)

  /** Every hand carries its full set of landmarks. */
  predicate ValidHands(hands: seq<seq<Landmark>>)
  {
    forall h :: 0 <= h < |hands| ==> |hands[h]| == HAND_LANDMARKS
  }

  // ---------------------------------------------------------------------------
  // The hit test

  /** The source's test that `x` is not right of the span of `key` starting at `cursor`. */
  predicate Reaches(sizes: map<string, real>, key: string, x: real, cursor: real, side: int)
  {
    (key in sizes && x <= cursor + sizes[key] * side as real) || x <= cursor + side as real
  }

  /**
   * The scan of one row: the cursor starts at the row's left edge and moves
   * right by each key's exact width while `x` is at or right of it; the first
   * key whose span reaches `x` is the answer.
   */
  function ScanRow(sizes: map<string, real>, keys: seq<string>, x: real, cursor: real, side: int): (found: Option<string>)
    ensures found.Some? ==> found.value in keys
  {
    if keys == [] then None
    else if x >= cursor && Reaches(sizes, keys[0], x, cursor, side) then Some(keys[0])
    else if x >= cursor then ScanRow(sizes, keys[1..], x, cursor + KeyWidth(sizes, keys[0], side), side)
    else ScanRow(sizes, keys[1..], x, cursor, side)
  }

  /** The row under height `y`: `floor((y - start) / side)`, the band of height `side` that holds `y`. */
  function RowIndex(y: real, side: int, start: int): (row: int)
    requires side != 0
    ensures side > 0 ==>
      start as real + row as real * side as real <= y < start as real + (row + 1) as real * side as real
  {
    var d := side as real;
    var q := (y - start as real) / d;
    if side > 0 then
      assert q * d == y - start as real;
      FloorBand(q, d);
      assert y - start as real < (q.Floor + 1) as real * d;
      q.Floor
    else
      q.Floor
  }

  /** `floor(q)` scaled by a positive `d` brackets `q * d`. */
  lemma FloorBand(q: real, d: real)
    requires d > 0.0
    ensures q.Floor as real * d <= q * d < (q.Floor + 1) as real * d
  {
  }

  /** The key under the point `(x, y)` of a keyboard with key side `side` whose top is `start`. */
  function KeyAt(x: real, y: real, side: int, start: int): (key: Option<string>)
    requires y < start as real || side != 0
    ensures key.Some? ==> start as real <= y && 0 <= RowIndex(y, side, start) < |ROWS|
                          && key.value in ROWS[RowIndex(y, side, start)]
  {
    if y < start as real then None
    else
      var row := RowIndex(y, side, start);
      if 0 <= row < |ROWS| then ScanRow(SIZES, ROWS[row], x, 0.0, side) else None
  }

  /** `_getKey`: rejects points above the keyboard, then walks the row under `y` with the cursor KEY_END. */
  method GetKey(x: real, y: real, side: int, start: int) returns (key: Option<string>)
    requires y < start as real || side != 0
    ensures key == KeyAt(x, y, side, start)
  {
    if y < start as real {
      return None;
    }
    var row := ((y - start as real) / side as real).Floor;
    if row >= 0 && row < |ROWS| {
      key := ScanKeys(SIZES, ROWS[row], x, side);
      return;
    }
    return None;
  }

  /** The loop of `_getKey` over the keys of one row. */
  method ScanKeys(sizes: map<string, real>, keys: seq<string>, x: real, side: int) returns (key: Option<string>)
    ensures key == ScanRow(sizes, keys, x, 0.0, side)
  {
    var keyEnd: real := 0.0;
    var i := 0;
    assert keys[i..] == keys;
    while i < |keys|
      invariant 0 <= i <= |keys|
      invariant ScanRow(sizes, keys[i..], x, keyEnd, side) == ScanRow(sizes, keys, x, 0.0, side)
    {
      var k := keys[i];
      assert keys[i..][0] == k && keys[i..][1..] == keys[i + 1..];
      if x >= keyEnd {
        if Reaches(sizes, k, x, keyEnd, side) {
          return Some(k);
        }
        keyEnd := keyEnd + KeyWidth(sizes, k, side);
      } else {
        assert ScanRow(sizes, keys[i..], x, keyEnd, side) == ScanRow(sizes, keys[i + 1..], x, keyEnd, side);
      }
      i := i + 1;
    }
    assert keys[i..] == [];
    return None;
  }

  /** The exact left edge of the `i`-th key of a row, relative to the row's start. */
  function Offset(sizes: map<string, real>, keys: seq<string>, i: nat, side: int): real
    requires i <= |keys|
  {
    if i == 0 then 0.0 else KeyWidth(sizes, keys[0], side) + Offset(sizes, keys[1..], i - 1, side)
  }

  /** `x` lies in the closed span of the `i`-th key of a row that starts at `cursor`. */
  predicate InSpan(sizes: map<string, real>, keys: seq<string>, i: nat, x: real, cursor: real, side: int)
    requires i < |keys|
  {
    cursor + Offset(sizes, keys, i, side) <= x <= cursor + Offset(sizes, keys, i, side) + KeyWidth(sizes, keys[i], side)
  }

  /** For non-negative sides the source's two-part test is exactly "within the key's width". */
  lemma ReachesIsWithinWidth(sizes: map<string, real>, key: string, x: real, cursor: real, side: int)
    requires AtLeastOneSide(sizes) && side >= 0
    ensures Reaches(sizes, key, x, cursor, side) <==> x <= cursor + KeyWidth(sizes, key, side)
  {
  }

  lemma {:induction false} ScanRowBehindCursor(sizes: map<string, real>, keys: seq<string>, x: real, cursor: real, side: int)
    requires x < cursor
    ensures ScanRow(sizes, keys, x, cursor, side) == None
  {
    if keys != [] {
      ScanRowBehindCursor(sizes, keys[1..], x, cursor, side);
    }
  }

  lemma {:induction false} OffsetNonNegative(sizes: map<string, real>, keys: seq<string>, i: nat, side: int)
    requires AtLeastOneSide(sizes) && side >= 0
    requires i <= |keys|
    ensures 0.0 <= Offset(sizes, keys, i, side)
  {
    if i > 0 {
      OffsetNonNegative(sizes, keys[1..], i - 1, side);
    }
  }

  /**
   * The scan returns the key of the leftmost span that contains `x`, and
   * nothing exactly when no span contains `x`.
   */
  lemma {:induction false} ScanRowFindsFirstSpan(sizes: map<string, real>, keys: seq<string>, x: real, cursor: real, side: int)
    requires AtLeastOneSide(sizes) && side >= 0
    ensures ScanRow(sizes, keys, x, cursor, side).None?
            <==> forall i :: 0 <= i < |keys| ==> !InSpan(sizes, keys, i, x, cursor, side)
    ensures ScanRow(sizes, keys, x, cursor, side).Some? ==>
      exists i :: 0 <= i < |keys| && InSpan(sizes, keys, i, x, cursor, side)
        && ScanRow(sizes, keys, x, cursor, side).value == keys[i]
        && forall j :: 0 <= j < i ==> !InSpan(sizes, keys, j, x, cursor, side)
  {
    if keys == [] {
      return;
    }
    var w := KeyWidth(sizes, keys[0], side);
    ReachesIsWithinWidth(sizes, keys[0], x, cursor, side);
    assert InSpan(sizes, keys, 0, x, cursor, side) <==> cursor <= x <= cursor + w;
    if x < cursor {
      ScanRowBehindCursor(sizes, keys, x, cursor, side);
      forall i | 0 <= i < |keys|
        ensures !InSpan(sizes, keys, i, x, cursor, side)
      {
        OffsetNonNegative(sizes, keys, i, side);
      }
    } else if x <= cursor + w {
      assert InSpan(sizes, keys, 0, x, cursor, side);
    } else {
      var rest, next := keys[1..], cursor + w;
      ScanRowFindsFirstSpan(sizes, rest, x, next, side);
      forall i | 1 <= i < |keys|
        ensures InSpan(sizes, keys, i, x, cursor, side) <==> InSpan(sizes, rest, i - 1, x, next, side)
      {
        assert rest[i - 1] == keys[i];
      }
      if ScanRow(sizes, keys, x, cursor, side).Some? {
        var i' :| 0 <= i' < |rest| && InSpan(sizes, rest, i', x, next, side)
          && ScanRow(sizes, keys, x, cursor, side).value == rest[i']
          && forall j :: 0 <= j < i' ==> !InSpan(sizes, rest, j, x, next, side);
        assert InSpan(sizes, keys, i' + 1, x, cursor, side);
        forall j | 0 <= j < i' + 1
          ensures !InSpan(sizes, keys, j, x, cursor, side)
        {
          if j > 0 {
            assert !InSpan(sizes, rest, j - 1, x, next, side);
          }
        }
      }
    }
  }

  lemma {:induction false} OffsetStep(sizes: map<string, real>, keys: seq<string>, i: nat, side: int)
    requires i < |keys|
    ensures Offset(sizes, keys, i + 1, side) == Offset(sizes, keys, i, side) + KeyWidth(sizes, keys[i], side)
  {
    if i > 0 {
      OffsetStep(sizes, keys[1..], i - 1, side);
    }
  }

  lemma {:induction false} OffsetIncreasing(sizes: map<string, real>, keys: seq<string>, i: nat, j: nat, side: int)
    requires AtLeastOneSide(sizes) && side > 0
    requires i < j <= |keys|
    ensures Offset(sizes, keys, i, side) + side as real <= Offset(sizes, keys, j, side)
  {
    OffsetStep(sizes, keys, j - 1, side);
    if i < j - 1 {
      OffsetIncreasing(sizes, keys, i, j - 1, side);
    }
  }

  /**
   * A point on the edge shared by keys `i` and `i + 1` goes to the left key:
   * both spans are closed, and the scan stops at the first that contains it.
   */
  lemma SharedEdgeGoesLeft(sizes: map<string, real>, keys: seq<string>, i: nat, cursor: real, side: int)
    requires AtLeastOneSide(sizes) && side > 0
    requires i + 1 < |keys|
    ensures ScanRow(sizes, keys, cursor + Offset(sizes, keys, i + 1, side), cursor, side) == Some(keys[i])
  {
    var x := cursor + Offset(sizes, keys, i + 1, side);
    OffsetStep(sizes, keys, i, side);
    assert InSpan(sizes, keys, i, x, cursor, side);
    ScanRowFindsFirstSpan(sizes, keys, x, cursor, side);
    var m :| 0 <= m < |keys| && InSpan(sizes, keys, m, x, cursor, side)
      && ScanRow(sizes, keys, x, cursor, side).value == keys[m]
      && forall j :: 0 <= j < m ==> !InSpan(sizes, keys, j, x, cursor, side);
    if m < i {
      OffsetIncreasing(sizes, keys, m + 1, i + 1, side);
      OffsetStep(sizes, keys, m, side);
      assert false;
    }
  }

  lemma {:induction false} RowWidthNonNegative(sizes: map<string, real>, keys: seq<string>, side: int)
    requires AtLeastOneSide(sizes) && side >= 0
    ensures 0.0 <= RowWidth(sizes, keys, side)
  {
    if keys != [] {
      RowWidthNonNegative(sizes, keys[1..], side);
    }
  }

  /** A point left of the row, or right of its total width, hits no key. */
  lemma {:induction false} OutsideRowMisses(sizes: map<string, real>, keys: seq<string>, x: real, cursor: real, side: int)
    requires AtLeastOneSide(sizes) && side >= 0
    requires x < cursor || x > cursor + RowWidth(sizes, keys, side)
    ensures ScanRow(sizes, keys, x, cursor, side) == None
  {
    if x < cursor {
      ScanRowBehindCursor(sizes, keys, x, cursor, side);
    } else if keys != [] {
      var w := KeyWidth(sizes, keys[0], side);
      RowWidthNonNegative(sizes, keys[1..], side);
      ReachesIsWithinWidth(sizes, keys[0], x, cursor, side);
      OutsideRowMisses(sizes, keys[1..], x, cursor + w, side);
    }
  }

  /**
   * `_getKey` as a whole: nothing above the keyboard or below its last row;
   * otherwise the key of the leftmost span of the row under `y` that contains
   * `x`, and nothing when no span does.
   */
  lemma KeyAtSpec(x: real, y: real, side: int, start: int)
    requires side > 0
    ensures y < start as real ==> KeyAt(x, y, side, start) == None
    ensures RowIndex(y, side, start) >= |ROWS| ==> KeyAt(x, y, side, start) == None
    ensures start as real <= y && RowIndex(y, side, start) < |ROWS| ==>
      var keys := ROWS[RowIndex(y, side, start)];
      && 0 <= RowIndex(y, side, start)
      && (KeyAt(x, y, side, start).None? <==> forall i :: 0 <= i < |keys| ==> !InSpan(SIZES, keys, i, x, 0.0, side))
      && (KeyAt(x, y, side, start).Some? ==>
            exists i :: 0 <= i < |keys| && InSpan(SIZES, keys, i, x, 0.0, side)
              && KeyAt(x, y, side, start).value == keys[i]
              && forall j :: 0 <= j < i ==> !InSpan(SIZES, keys, j, x, 0.0, side))
  {
    if start as real <= y {
      var row := RowIndex(y, side, start);
      if row < 0 {
        assert false;
      }
      if row < |ROWS| {
        SizesAtLeastOne();
        ScanRowFindsFirstSpan(SIZES, ROWS[row], x, 0.0, side);
      }
    }
  }

  // ---------------------------------------------------------------------------
  // The hit test against the drawing

  /** Every size is a whole number of half key sides. */
  predicate HalfUnits(sizes: map<string, real>)
  {
    forall k :: k in sizes ==> (2.0 * sizes[k]).Floor as real == 2.0 * sizes[k]
  }

  lemma SizesInHalfUnits()
    ensures HalfUnits(SIZES)
  {
  }

  lemma EvenSideWidth(sizes: map<string, real>, key: string, side: int)
    requires HalfUnits(sizes) && AtLeastOneSide(sizes)
    requires side >= 0 && side % 2 == 0
    ensures DrawnWidth(sizes, key, side) as real == KeyWidth(sizes, key, side)
  {
    if key in sizes {
      var n, m := (2.0 * sizes[key]).Floor, side / 2;
      var v := side as real * sizes[key];
      assert v == sizes[key] * side as real;
      assert side as real == 2.0 * m as real;
      assert v == n as real * m as real;
      assert n as real * m as real == (n * m) as real;
      assert 0 <= n * m;
      assert Trunc(v) == n * m;
    }
  }

  /**
   * With an even key side every exact width is a whole number of pixels, so
   * the hit spans and the drawn rectangles start at the same X.
   */
  lemma {:induction false} EvenSideAgrees(sizes: map<string, real>, keys: seq<string>, i: nat, side: int)
    requires HalfUnits(sizes) && AtLeastOneSide(sizes)
    requires side >= 0 && side % 2 == 0
    requires i <= |keys|
    ensures DrawnOffset(sizes, keys, i, side) as real == Offset(sizes, keys, i, side)
  {
    if i > 0 {
      EvenSideAgrees(sizes, keys[1..], i - 1, side);
      EvenSideWidth(sizes, keys[0], side);
    }
  }

  /** For the layout itself: with an even key side every key of every row is hit where it is drawn. */
  lemma EvenSideLayoutAgrees(side: int, r: int, i: nat)
    requires side >= 0 && side % 2 == 0
    requires 0 <= r < |ROWS| && i < |ROWS[r]|
    ensures DrawnOffset(SIZES, ROWS[r], i, side) as real == Offset(SIZES, ROWS[r], i, side)
    ensures DrawnWidth(SIZES, ROWS[r][i], side) as real == KeyWidth(SIZES, ROWS[r][i], side)
  {
    SizesInHalfUnits();
    SizesAtLeastOne();
    EvenSideAgrees(SIZES, ROWS[r], i, side);
    EvenSideWidth(SIZES, ROWS[r][i], side);
  }

  /**
   * With an odd key side they drift apart. For side 53 the hit span of Tab
   * is [0, 79.5] while its rectangle is only 79 wide, so a fingertip at
   * x = 79.25 in the second row presses Tab while the rectangle under it is Q.
   */
  lemma OddSideDrift(y: real, start: int, pressedKeys: map<string, int>)
    requires start as real + 53.0 <= y < start as real + 106.0
    ensures KeyAt(79.25, y, 53, start) == Some("Tab")
    ensures var row := LayoutRects(ROWS, SIZES, start, 53, pressedKeys)[1];
      |row| > 1 && row[1].text == "Q" && row[1].left as real <= 79.25 < row[1].right as real
  {
    assert RowIndex(y, 53, start) == 1;
    assert ROWS[1][0] == "Tab" && ROWS[1][1] == "Q";
    assert KeyWidth(SIZES, "Tab", 53) == 79.5;
    LayoutRectsPlacement(ROWS, SIZES, start, 53, pressedKeys);
    RowRectsPlacement(SIZES, ROWS[1], 0, start + 53, 53, pressedKeys);
    assert DrawnOffset(SIZES, ROWS[1], 1, 53) == 79;
    assert DrawnWidth(SIZES, "Q", 53) == 53;
  }

  // ---------------------------------------------------------------------------
  // The press decision and the cooldown table

  function Max(a: int, b: int): int
  {
    if a >= b then a else b
  }

  function LowerChar(c: char): char
  {
    if 'A' <= c <= 'Z' then (c as int + 32) as char else c
  }

  /** `str.lower` on ASCII: upper-case letters become lower-case, nothing else changes. */
  function Lower(s: string): (t: string)
    ensures |t| == |s|
    ensures forall i :: 0 <= i < |t| ==> !('A' <= t[i] <= 'Z')
    ensures forall i :: 0 <= i < |s| && 'A' <= s[i] <= 'Z' ==> t[i] == (s[i] as int + 32) as char
    ensures forall i :: 0 <= i < |s| && !('A' <= s[i] <= 'Z') ==> t[i] == s[i]
  {
    seq(|s|, i requires 0 <= i < |s| => LowerChar(s[i]))
  }

  /** The key name sent for a label: its alias, or the label in lower case; it has no upper-case letter. */
  function Symbol(key: string): (name: string)
    ensures forall i :: 0 <= i < |name| ==> !('A' <= name[i] <= 'Z')
  {
    if key in ALIASES then ALIASES[key] else Lower(key)
  }

  /** Sample key names: a letter, a named key and the three aliased keys. */
  lemma SymbolSamples()
    ensures Symbol("Q") == "q" && Symbol("Return") == "return" && Symbol("\\") == "\\"
    ensures Symbol("LShift") == "shiftleft" && Symbol("RShift") == "shiftright" && Symbol("Caps") == "capslock"
  {
    assert Lower("Q") == "q";
    assert Lower("Return") == "return";
    assert Lower("\\") == "\\";
  }

  function Symbols(keys: set<string>): set<string>
  {
    set k | k in keys :: Symbol(k)
  }

  /** The state the press loop of ProcessImage builds: the `pressed` set and TIMEOUT. */
  datatype Frame = Frame(pressed: set<string>, timeout: map<string, int>)

  /** The label under a fingertip sample pushed down to its depth threshold; empty otherwise. */
  function PointKeys(landmark: Landmark, point: int, side: int, start: int): set<string>
    requires point in THRESHOLDS && side != 0
  {
    var key := KeyAt(landmark.x, landmark.y, side, start);
    if landmark.z <= THRESHOLDS[point] && key.Some? then {key.value} else {}
  }

  /** The labels under the pushed-down fingertips `points` of one hand. */
  function HandKeys(hand: seq<Landmark>, points: seq<int>, side: int, start: int): set<string>
    requires forall i :: 0 <= i < |points| ==> points[i] in THRESHOLDS && 0 <= points[i] < |hand|
    requires side != 0
  {
    set i, k | 0 <= i < |points| && k in PointKeys(hand[points[i]], points[i], side, start) :: k
  }

  /** The labels under the pushed-down fingertips POINTS of all hands. */
  function HandsKeys(hands: seq<seq<Landmark>>, side: int, start: int): set<string>
    requires ValidHands(hands) && side != 0
  {
    set h, k | 0 <= h < |hands| && k in HandKeys(hands[h], POINTS, side, start) :: k
  }

  /** The labels among `keys` that may fire against the table `timeout`: real, not excluded, never fired. */
  function Eligible(keys: set<string>, timeout: map<string, int>): set<string>
  {
    set k | k in keys && k != "" && k !in EXCLUDED && k !in timeout
  }

  /**
   * One fingertip sample: below its depth threshold it is hit-tested, and a
   * key that is not excluded and has never fired is added to `pressed`
   * (as its symbol) and armed with TIMEOUT_FRAMES.
   */
  function PressPoint(f: Frame, landmark: Landmark, point: int, side: int, start: int): (g: Frame)
    requires point in THRESHOLDS && side != 0
    ensures f.timeout.Keys <= g.timeout.Keys && f.pressed <= g.pressed
    ensures g.timeout.Keys - f.timeout.Keys == Eligible(PointKeys(landmark, point, side, start), f.timeout)
  {
    if landmark.z <= THRESHOLDS[point] then
      var key := KeyAt(landmark.x, landmark.y, side, start);
      if key.Some? && key.value != "" && key.value !in EXCLUDED && key.value !in f.timeout then
        Frame(f.pressed + {Symbol(key.value)}, f.timeout[key.value := TIMEOUT_FRAMES])
      else f
    else f
  }

  /** The fingertips `points` of one hand, in order. */
  function PressHand(f: Frame, hand: seq<Landmark>, points: seq<int>, side: int, start: int): (g: Frame)
    requires forall i :: 0 <= i < |points| ==> points[i] in THRESHOLDS && 0 <= points[i] < |hand|
    requires side != 0
    ensures f.timeout.Keys <= g.timeout.Keys && f.pressed <= g.pressed
    ensures forall k :: k in f.timeout ==> g.timeout[k] == f.timeout[k]
    decreases points
  {
    if points == [] then f
    else PressHand(PressPoint(f, hand[points[0]], points[0], side, start), hand, points[1..], side, start)
  }

  /** The fingertips POINTS of every hand, hand by hand. */
  function PressHands(f: Frame, hands: seq<seq<Landmark>>, side: int, start: int): (g: Frame)
    requires ValidHands(hands) && side != 0
    ensures f.timeout.Keys <= g.timeout.Keys && f.pressed <= g.pressed
    ensures forall k :: k in f.timeout ==> g.timeout[k] == f.timeout[k]
    decreases hands
  {
    if hands == [] then f
    else PressHands(PressHand(f, hands[0], POINTS, side, start), hands[1..], side, start)
  }

  /** Every cooldown counts down by one frame, stopping at zero. */
  function Decay(timeout: map<string, int>): (d: map<string, int>)
    ensures d.Keys == timeout.Keys
    ensures forall k :: k in d ==> 0 <= d[k] <= Max(timeout[k], 0)
    ensures forall k :: k in d && timeout[k] > 0 ==> d[k] == timeout[k] - 1
  {
    map k | k in timeout :: Max(timeout[k] - 1, 0)
  }

  /**
   * One call of ProcessImage on the cooldown table `timeout`: the samples are
   * examined only when `calculate` holds, and the countdown runs regardless.
   */
  function Step(timeout: map<string, int>, hands: seq<seq<Landmark>>, calculate: bool, side: int, start: int): (r: Frame)
    requires ValidHands(hands) && side != 0
    ensures timeout.Keys <= r.timeout.Keys
    ensures forall k :: k in r.timeout ==> 0 <= r.timeout[k]
    ensures !calculate ==> r.pressed == {} && r.timeout.Keys == timeout.Keys
  {
    var f := if calculate then PressHands(Frame({}, timeout), hands, side, start) else Frame({}, timeout);
    Frame(f.pressed, Decay(f.timeout))
  }

  /**
   * `after` is `before` with some further labels armed: old cooldowns are
   * untouched, each new label is a key of the layout that is not excluded and
   * holds TIMEOUT_FRAMES, and `pressed` grew by exactly the new labels' symbols.
   */
  predicate Arms(before: Frame, after: Frame)
  {
    && before.timeout.Keys <= after.timeout.Keys
    && (forall k :: k in before.timeout ==> after.timeout[k] == before.timeout[k])
    && (forall k :: k in after.timeout && k !in before.timeout ==>
          after.timeout[k] == TIMEOUT_FRAMES && IsLabel(k) && k !in EXCLUDED)
    && after.pressed == before.pressed + Symbols(after.timeout.Keys - before.timeout.Keys)
  }

  lemma SymbolsUnion(a: set<string>, b: set<string>)
    ensures Symbols(a + b) == Symbols(a) + Symbols(b)
  {
    forall s | s in Symbols(a + b)
      ensures s in Symbols(a) + Symbols(b)
    {
      var k :| k in a + b && Symbol(k) == s;
    }
  }

  lemma ArmsReflexive(f: Frame)
    ensures Arms(f, f)
  {
    assert f.timeout.Keys - f.timeout.Keys == {};
  }

  lemma ArmsTransitive(a: Frame, b: Frame, c: Frame)
    requires Arms(a, b) && Arms(b, c)
    ensures Arms(a, c)
  {
    var ab, bc := b.timeout.Keys - a.timeout.Keys, c.timeout.Keys - b.timeout.Keys;
    assert c.timeout.Keys - a.timeout.Keys == ab + bc;
    SymbolsUnion(ab, bc);
  }

  lemma PressPointArms(f: Frame, landmark: Landmark, point: int, side: int, start: int)
    requires point in THRESHOLDS && side != 0
    ensures Arms(f, PressPoint(f, landmark, point, side, start))
  {
    var g := PressPoint(f, landmark, point, side, start);
    if g == f {
      ArmsReflexive(f);
    } else {
      var key := KeyAt(landmark.x, landmark.y, side, start).value;
      assert IsLabel(key);
      assert g.timeout.Keys - f.timeout.Keys == {key};
      assert Symbols({key}) == {Symbol(key)};
    }
  }

  lemma {:induction false} PressHandArms(f: Frame, hand: seq<Landmark>, points: seq<int>, side: int, start: int)
    requires forall i :: 0 <= i < |points| ==> points[i] in THRESHOLDS && 0 <= points[i] < |hand|
    requires side != 0
    decreases points
    ensures Arms(f, PressHand(f, hand, points, side, start))
  {
    if points == [] {
      ArmsReflexive(f);
    } else {
      var g := PressPoint(f, hand[points[0]], points[0], side, start);
      PressPointArms(f, hand[points[0]], points[0], side, start);
      PressHandArms(g, hand, points[1..], side, start);
      ArmsTransitive(f, g, PressHand(g, hand, points[1..], side, start));
    }
  }

  lemma {:induction false} PressHandsArms(f: Frame, hands: seq<seq<Landmark>>, side: int, start: int)
    requires ValidHands(hands) && side != 0
    decreases hands
    ensures Arms(f, PressHands(f, hands, side, start))
  {
    if hands == [] {
      ArmsReflexive(f);
    } else {
      var g := PressHand(f, hands[0], POINTS, side, start);
      PressHandArms(f, hands[0], POINTS, side, start);
      PressHandsArms(g, hands[1..], side, start);
      ArmsTransitive(f, g, PressHands(g, hands[1..], side, start));
    }
  }

  lemma HandKeysSplit(hand: seq<Landmark>, points: seq<int>, side: int, start: int)
    requires forall i :: 0 <= i < |points| ==> points[i] in THRESHOLDS && 0 <= points[i] < |hand|
    requires side != 0 && points != []
    ensures HandKeys(hand, points, side, start)
         == PointKeys(hand[points[0]], points[0], side, start) + HandKeys(hand, points[1..], side, start)
  {
    var rest := points[1..];
    forall k | k in HandKeys(hand, points, side, start)
      ensures k in PointKeys(hand[points[0]], points[0], side, start) + HandKeys(hand, rest, side, start)
    {
      var i :| 0 <= i < |points| && k in PointKeys(hand[points[i]], points[i], side, start);
      if i > 0 {
        assert rest[i - 1] == points[i];
      }
    }
    forall k | k in HandKeys(hand, rest, side, start)
      ensures k in HandKeys(hand, points, side, start)
    {
      var i :| 0 <= i < |rest| && k in PointKeys(hand[rest[i]], rest[i], side, start);
      assert rest[i] == points[i + 1];
    }
  }

  lemma HandsKeysSplit(hands: seq<seq<Landmark>>, side: int, start: int)
    requires ValidHands(hands) && side != 0 && hands != []
    ensures HandsKeys(hands, side, start) == HandKeys(hands[0], POINTS, side, start) + HandsKeys(hands[1..], side, start)
  {
    var rest := hands[1..];
    forall k | k in HandsKeys(hands, side, start)
      ensures k in HandKeys(hands[0], POINTS, side, start) + HandsKeys(rest, side, start)
    {
      var h :| 0 <= h < |hands| && k in HandKeys(hands[h], POINTS, side, start);
      if h > 0 {
        assert rest[h - 1] == hands[h];
      }
    }
    forall k | k in HandsKeys(rest, side, start)
      ensures k in HandsKeys(hands, side, start)
    {
      var h :| 0 <= h < |rest| && k in HandKeys(rest[h], POINTS, side, start);
      assert rest[h] == hands[h + 1];
    }
  }

  /** Arming one sample and then more: the eligible keys of both, against the first table. */
  lemma EligibleThen(f: Frame, g: Frame, e: Frame, first: set<string>, rest: set<string>)
    requires f.timeout.Keys <= g.timeout.Keys <= e.timeout.Keys
    requires g.timeout.Keys - f.timeout.Keys == Eligible(first, f.timeout)
    requires e.timeout.Keys - g.timeout.Keys == Eligible(rest, g.timeout)
    ensures e.timeout.Keys - f.timeout.Keys == Eligible(first + rest, f.timeout)
  {
    forall k | k in Eligible(first + rest, f.timeout)
      ensures k in e.timeout.Keys - f.timeout.Keys
    {
      if k in first {
        assert k in Eligible(first, f.timeout);
      } else if k in g.timeout {
        assert k in g.timeout.Keys - f.timeout.Keys;
      } else {
        assert k in Eligible(rest, g.timeout);
      }
    }
    forall k | k in e.timeout.Keys - f.timeout.Keys
      ensures k in Eligible(first + rest, f.timeout)
    {
      if k in g.timeout {
        assert k in Eligible(first, f.timeout);
      } else {
        assert k in Eligible(rest, g.timeout);
      }
    }
  }

  /**
   * The sampled fingertips of a hand arm exactly the labels under the
   * pushed-down ones that are real, not excluded and not in TIMEOUT.
   */
  lemma {:induction false} PressHandChoosesKeys(f: Frame, hand: seq<Landmark>, points: seq<int>, side: int, start: int)
    requires forall i :: 0 <= i < |points| ==> points[i] in THRESHOLDS && 0 <= points[i] < |hand|
    requires side != 0
    decreases points
    ensures PressHand(f, hand, points, side, start).timeout.Keys - f.timeout.Keys
         == Eligible(HandKeys(hand, points, side, start), f.timeout)
  {
    if points == [] {
      assert HandKeys(hand, points, side, start) == {};
    } else {
      var g := PressPoint(f, hand[points[0]], points[0], side, start);
      HandKeysSplit(hand, points, side, start);
      PressHandChoosesKeys(g, hand, points[1..], side, start);
      EligibleThen(f, g, PressHand(g, hand, points[1..], side, start),
                   PointKeys(hand[points[0]], points[0], side, start), HandKeys(hand, points[1..], side, start));
    }
  }

  /** The same for every hand: exactly the eligible labels under all pushed-down sampled fingertips. */
  lemma {:induction false} PressHandsChooseKeys(f: Frame, hands: seq<seq<Landmark>>, side: int, start: int)
    requires ValidHands(hands) && side != 0
    decreases hands
    ensures PressHands(f, hands, side, start).timeout.Keys - f.timeout.Keys
         == Eligible(HandsKeys(hands, side, start), f.timeout)
  {
    if hands == [] {
      assert HandsKeys(hands, side, start) == {};
    } else {
      var g := PressHand(f, hands[0], POINTS, side, start);
      HandsKeysSplit(hands, side, start);
      PressHandChoosesKeys(f, hands[0], POINTS, side, start);
      PressHandsChooseKeys(g, hands[1..], side, start);
      EligibleThen(f, g, PressHands(g, hands[1..], side, start),
                   HandKeys(hands[0], POINTS, side, start), HandsKeys(hands[1..], side, start));
    }
  }

  /**
   * The labels one call of ProcessImage arms: with `calculate`, exactly the
   * labels under the pushed-down index, middle and ring fingertips of all
   * hands that are real, not excluded and not yet in TIMEOUT; without it, none.
   */
  lemma StepChoosesKeys(timeout: map<string, int>, hands: seq<seq<Landmark>>, calculate: bool, side: int, start: int)
    requires ValidHands(hands) && side != 0
    ensures var armed := Step(timeout, hands, calculate, side, start).timeout.Keys - timeout.Keys;
      armed == if calculate then Eligible(HandsKeys(hands, side, start), timeout) else {}
  {
    if calculate {
      PressHandsChooseKeys(Frame({}, timeout), hands, side, start);
    }
  }

  /**
   * One call of ProcessImage: every label already in TIMEOUT stays and counts
   * down by exactly one, floored at zero; the labels armed by this call are
   * keys of the layout, never excluded ones, and hold TIMEOUT_FRAMES - 1 on
   * return; the output is exactly their symbols, so never "backspace"; and without `calculate` or
   * without hands nothing is armed or output.
   */
  lemma StepSpec(timeout: map<string, int>, hands: seq<seq<Landmark>>, calculate: bool, side: int, start: int)
    requires ValidHands(hands) && side != 0
    ensures var f := Step(timeout, hands, calculate, side, start);
      var armed := f.timeout.Keys - timeout.Keys;
      && timeout.Keys <= f.timeout.Keys
      && (forall k :: k in timeout ==> f.timeout[k] == Max(timeout[k] - 1, 0))
      && (forall k :: k in armed ==> f.timeout[k] == TIMEOUT_FRAMES - 1 && IsLabel(k) && k !in EXCLUDED)
      && f.pressed == Symbols(armed)
      && "backspace" !in f.pressed
      && (!calculate || hands == [] ==> armed == {} && f.pressed == {})
  {
    var g := if calculate then PressHands(Frame({}, timeout), hands, side, start) else Frame({}, timeout);
    if calculate {
      PressHandsArms(Frame({}, timeout), hands, side, start);
    } else {
      ArmsReflexive(g);
    }
    var f := Step(timeout, hands, calculate, side, start);
    assert f.timeout.Keys == g.timeout.Keys;
    forall k | k in f.timeout.Keys - timeout.Keys
      ensures Symbol(k) != "backspace"
    {
      OnlyBackspaceSendsBackspace(k);
    }
  }

  /** Only the sampled fingertips matter: the other landmarks of a hand never change the outcome. */
  lemma {:induction false} OnlySampledTipsMatter(f: Frame, hand: seq<Landmark>, hand2: seq<Landmark>, points: seq<int>,
                                                 side: int, start: int)
    requires forall i :: 0 <= i < |points| ==> points[i] in THRESHOLDS && 0 <= points[i] < |hand| && points[i] < |hand2|
    requires forall i :: 0 <= i < |points| ==> hand[points[i]] == hand2[points[i]]
    requires side != 0
    decreases points
    ensures PressHand(f, hand, points, side, start) == PressHand(f, hand2, points, side, start)
  {
    if points != [] {
      OnlySampledTipsMatter(PressPoint(f, hand[points[0]], points[0], side, start), hand, hand2, points[1..], side, start);
    }
  }

  /** A hand whose sampled fingertips are all above their depth thresholds presses nothing. */
  lemma {:induction false} RaisedTipsPressNothing(f: Frame, hand: seq<Landmark>, points: seq<int>, side: int, start: int)
    requires forall i :: 0 <= i < |points| ==> points[i] in THRESHOLDS && 0 <= points[i] < |hand|
    requires forall i :: 0 <= i < |points| ==> hand[points[i]].z > THRESHOLDS[points[i]]
    requires side != 0
    decreases points
    ensures PressHand(f, hand, points, side, start) == f
  {
    if points != [] {
      RaisedTipsPressNothing(f, hand, points[1..], side, start);
    }
  }

  /** Every label other than Backspace is at most six characters long. */
  lemma ShortLabels(key: string)
    requires IsLabel(key) && key != "Backspace"
    ensures |key| <= 6
  {
  }

  /** No key other than the excluded Backspace sends the name "backspace". */
  lemma OnlyBackspaceSendsBackspace(key: string)
    requires IsLabel(key) && key !in EXCLUDED
    ensures Symbol(key) != "backspace"
  {
    ShortLabels(key);
  }

  /** The labels of the layout that are longer than one character. */
  const LONG_LABELS: set<string> := {"Backspace", "Tab", "Caps", "Return", "LShift", "RShift", "Ctrl", "WIN", "Alt", "Space"}

  /** A label is one character other than a lower-case letter, or one of LONG_LABELS. */
  predicate LabelShape(key: string)
  {
    (|key| == 1 && !('a' <= key[0] <= 'z')) || key in LONG_LABELS
  }

  lemma LabelShapes(key: string)
    requires IsLabel(key)
    ensures LabelShape(key)
  {
  }

  function UpperChar(c: char): char
  {
    if 'a' <= c <= 'z' then (c as int - 32) as char else c
  }

  /**
   * Reads a key name back as the label that sends it: a one-character name
   * is upper-cased, and the longer names of this layout are told apart by
   * their length and first letter.
   */
  function LabelOf(name: string): string
  {
    if |name| == 0 then name
    else if |name| == 1 then [UpperChar(name[0])]
    else
      var n, c := |name|, name[0];
      if n == 9 && c == 'b' then "Backspace"
      else if n == 3 && c == 't' then "Tab"
      else if n == 8 && c == 'c' then "Caps"
      else if n == 6 && c == 'r' then "Return"
      else if n == 9 && c == 's' then "LShift"
      else if n == 10 && c == 's' then "RShift"
      else if n == 4 && c == 'c' then "Ctrl"
      else if n == 3 && c == 'w' then "WIN"
      else if n == 3 && c == 'a' then "Alt"
      else if n == 5 && c == 's' then "Space"
      else name
  }

  /** The key name sent for a label determines the label. */
  lemma SymbolRoundTrip(key: string)
    requires IsLabel(key)
    ensures LabelOf(Symbol(key)) == key
  {
    LabelShapes(key);
    if |key| == 1 && !('a' <= key[0] <= 'z') {
      ShortRoundTrip(key);
    } else {
      LongRoundTrip(key);
    }
  }

  lemma ShortRoundTrip(key: string)
    requires |key| == 1 && !('a' <= key[0] <= 'z')
    ensures LabelOf(Symbol(key)) == key
  {
  }

  lemma LongRoundTrip(key: string)
    requires key in LONG_LABELS
    ensures LabelOf(Symbol(key)) == key
  {
  }

  /** Different labels send different key names. */
  lemma SymbolInjective(a: string, b: string)
    requires IsLabel(a) && IsLabel(b) && Symbol(a) == Symbol(b)
    ensures a == b
  {
    SymbolRoundTrip(a);
    SymbolRoundTrip(b);
  }

  /** Every entry of TIMEOUT is a cooldown in [0, TIMEOUT_FRAMES) of a key of the layout that is not excluded. */
  predicate Cooling(timeout: map<string, int>)
  {
    forall k :: k in timeout ==> 0 <= timeout[k] < TIMEOUT_FRAMES && IsLabel(k) && k !in EXCLUDED
  }

  /** Between calls of ProcessImage every cooldown lies in [0, TIMEOUT_FRAMES). */
  lemma StepKeepsCooling(timeout: map<string, int>, hands: seq<seq<Landmark>>, calculate: bool, side: int, start: int)
    requires ValidHands(hands) && side != 0
    requires Cooling(timeout)
    ensures Cooling(Step(timeout, hands, calculate, side, start).timeout)
  {
    StepSpec(timeout, hands, calculate, side, start);
  }

  // ---------------------------------------------------------------------------
  // Successive frames

  /** The inputs of one call of ProcessImage: the detected hands and the `calculate` flag. */
  datatype Input = Input(hands: seq<seq<Landmark>>, calculate: bool)

  predicate ValidInputs(inputs: seq<Input>)
  {
    forall i :: 0 <= i < |inputs| ==> ValidHands(inputs[i].hands)
  }

  /** The cooldown table before each call of a run of calls, and after the last. */
  function Cooldowns(timeout: map<string, int>, inputs: seq<Input>, side: int, start: int): (ts: seq<map<string, int>>)
    requires ValidInputs(inputs) && side != 0
    ensures |ts| == |inputs| + 1 && ts[0] == timeout
    decreases inputs
  {
    if inputs == [] then [timeout]
    else [timeout] + Cooldowns(Step(timeout, inputs[0].hands, inputs[0].calculate, side, start).timeout, inputs[1..], side, start)
  }

  lemma {:induction false} CooldownsStep(timeout: map<string, int>, inputs: seq<Input>, side: int, start: int, i: nat)
    requires ValidInputs(inputs) && side != 0
    requires i < |inputs|
    ensures Cooldowns(timeout, inputs, side, start)[i + 1]
         == Step(Cooldowns(timeout, inputs, side, start)[i], inputs[i].hands, inputs[i].calculate, side, start).timeout
    decreases inputs
  {
    if i > 0 {
      var t1 := Step(timeout, inputs[0].hands, inputs[0].calculate, side, start).timeout;
      CooldownsStep(t1, inputs[1..], side, start, i - 1);
    }
  }

  /** TIMEOUT only grows: nothing ever removes a label. */
  lemma {:induction false} CooldownKeysGrow(timeout: map<string, int>, inputs: seq<Input>, side: int, start: int, i: nat, j: nat)
    requires ValidInputs(inputs) && side != 0
    requires i <= j <= |inputs|
    ensures Cooldowns(timeout, inputs, side, start)[i].Keys <= Cooldowns(timeout, inputs, side, start)[j].Keys
  {
    if i < j {
      var ts := Cooldowns(timeout, inputs, side, start);
      CooldownKeysGrow(timeout, inputs, side, start, i, j - 1);
      CooldownsStep(timeout, inputs, side, start, j - 1);
      StepSpec(ts[j - 1], inputs[j - 1].hands, inputs[j - 1].calculate, side, start);
    }
  }

  /**
   * Each label fires at most once per process: the labels armed by two
   * different calls are disjoint, because eligibility is absence from TIMEOUT.
   */
  lemma FiresAtMostOnce(timeout: map<string, int>, inputs: seq<Input>, side: int, start: int, i: nat, j: nat)
    requires ValidInputs(inputs) && side != 0
    requires i < j < |inputs|
    ensures var ts := Cooldowns(timeout, inputs, side, start);
      (ts[i + 1].Keys - ts[i].Keys) !! (ts[j + 1].Keys - ts[j].Keys)
  {
    CooldownKeysGrow(timeout, inputs, side, start, i + 1, j);
  }

  lemma ArmedAreLabels(timeout: map<string, int>, hands: seq<seq<Landmark>>, calculate: bool, side: int, start: int, key: string)
    requires ValidHands(hands) && side != 0
    requires key in Step(timeout, hands, calculate, side, start).timeout && key !in timeout
    ensures IsLabel(key)
  {
    StepSpec(timeout, hands, calculate, side, start);
  }

  /** A label still in TIMEOUT is not the label behind any key name a call outputs. */
  lemma {:induction false} CoolingNotSent(timeout: map<string, int>, hands: seq<seq<Landmark>>, calculate: bool, side: int, start: int, key: string)
    requires ValidHands(hands) && side != 0
    requires key in timeout && IsLabel(key)
    ensures Symbol(key) !in Step(timeout, hands, calculate, side, start).pressed
  {
    var f := Step(timeout, hands, calculate, side, start);
    StepSpec(timeout, hands, calculate, side, start);
    if Symbol(key) in f.pressed {
      var k :| k in f.timeout.Keys - timeout.Keys && Symbol(k) == Symbol(key);
      SymbolInjective(k, key);
      assert false;
    }
  }

  /**
   * The key name of a label armed by call `i` is never output by a later
   * call: the label stays in TIMEOUT, and no other label sends its name.
   */
  lemma {:induction false} NeverSentAgain(timeout: map<string, int>, inputs: seq<Input>, side: int, start: int, i: nat, j: nat, key: string)
    requires ValidInputs(inputs) && side != 0
    requires i < j < |inputs|
    requires key in Cooldowns(timeout, inputs, side, start)[i + 1]
    requires key !in Cooldowns(timeout, inputs, side, start)[i]
    ensures Symbol(key) !in Step(Cooldowns(timeout, inputs, side, start)[j], inputs[j].hands, inputs[j].calculate, side, start).pressed
  {
    var ts := Cooldowns(timeout, inputs, side, start);
    assert IsLabel(key) by {
      CooldownsStep(timeout, inputs, side, start, i);
      ArmedAreLabels(ts[i], inputs[i].hands, inputs[i].calculate, side, start, key);
    }
    assert key in ts[j] by {
      CooldownKeysGrow(timeout, inputs, side, start, i + 1, j);
    }
    CoolingNotSent(ts[j], inputs[j].hands, inputs[j].calculate, side, start, key);
  }

  /**
   * A label armed by call `i` shows `TIMEOUT_FRAMES - (j - i)` after call
   * `j - 1`, down to zero, where it then stays.
   */
  lemma {:induction false} CountdownAfterFiring(timeout: map<string, int>, inputs: seq<Input>, side: int, start: int,
                                                i: nat, j: nat, key: string)
    requires ValidInputs(inputs) && side != 0
    requires i < j <= |inputs|
    requires key in Cooldowns(timeout, inputs, side, start)[i + 1]
    requires key !in Cooldowns(timeout, inputs, side, start)[i]
    ensures key in Cooldowns(timeout, inputs, side, start)[j]
    ensures Cooldowns(timeout, inputs, side, start)[j][key] == Max(TIMEOUT_FRAMES - (j - i), 0)
  {
    var ts := Cooldowns(timeout, inputs, side, start);
    forall n | i < n < j && key in ts[n]
      ensures key in ts[n + 1] && ts[n + 1][key] == Max(ts[n][key] - 1, 0)
    {
      CooldownsStep(timeout, inputs, side, start, n);
      StepCountsDown(ts[n], inputs[n].hands, inputs[n].calculate, side, start, key);
    }
    CooldownsStep(timeout, inputs, side, start, i);
    StepCountsDown(ts[i], inputs[i].hands, inputs[i].calculate, side, start, key);
    CountsDownFrom(ts, i + 1, j, key);
  }

  /** A label whose cooldown drops by one at each step, stopping at zero, has dropped by the number of steps. */
  lemma {:induction false} CountsDownFrom(ts: seq<map<string, int>>, a: nat, b: nat, key: string)
    requires a <= b < |ts| && key in ts[a] && 0 <= ts[a][key]
    requires forall n :: a <= n < b && key in ts[n] ==> key in ts[n + 1] && ts[n + 1][key] == Max(ts[n][key] - 1, 0)
    ensures key in ts[b] && ts[b][key] == Max(ts[a][key] - (b - a), 0)
    decreases b
  {
    if a < b {
      CountsDownFrom(ts, a, b - 1, key);
      assert key in ts[b - 1] && a <= b - 1 < b;
      assert ts[b][key] == Max(ts[b - 1][key] - 1, 0);
    }
  }

  /** The cooldown of one label across one call: a fresh one holds TIMEOUT_FRAMES - 1, an old one drops by one. */
  lemma StepCountsDown(timeout: map<string, int>, hands: seq<seq<Landmark>>, calculate: bool, side: int, start: int,
                       key: string)
    requires ValidHands(hands) && side != 0
    ensures var after := Step(timeout, hands, calculate, side, start).timeout;
      && (key in timeout ==> key in after && after[key] == Max(timeout[key] - 1, 0))
      && (key !in timeout && key in after ==> after[key] == TIMEOUT_FRAMES - 1)
  {
    StepSpec(timeout, hands, calculate, side, start);
  }

  // ---------------------------------------------------------------------------
  // The detector state

  /** The module state of detection.py: the frame size and the TIMEOUT table. */
  class Detector {
    /** WIDTH and HEIGHT, the size of the processed frame in pixels. */
    const width: int
    const height: int
    /** TIMEOUT: the cooldown of every label that has ever fired. */
    var timeout: map<string, int>

    /** KEY_SIDE: positive once the frame is at least COLUMNS pixels wide, so `_getKey` never divides by zero. */
    function KeySide(): (side: int)
      ensures width >= COLUMNS ==> side >= 1
    {
      Side(width)
    }

    /**
     * START, the top edge of the keyboard: when the rows fit the frame, the
     * gap below them equals the gap above or exceeds it by one pixel.
     */
    function Start(): (y: int)
      ensures KeySide() * |ROWS| <= height ==> 0 <= y <= height - (y + KeySide() * |ROWS|) <= y + 1
    {
      Top(height, KeySide())
    }

    predicate Valid()
      reads this
    {
      width >= COLUMNS && Cooling(timeout)
    }

    constructor (width: int, height: int)
      requires width >= COLUMNS
      ensures Valid()
      ensures this.width == width && this.height == height && timeout == map[]
    {
      this.width := width;
      this.height := height;
      timeout := map[];
    }

    /**
     * ProcessImage without the image operations: the fingertips of every
     * hand are hit-tested while `calculate` holds, TIMEOUT counts down, and the
     * keyboard is drawn with the updated cooldowns.
     */
    method ProcessImage(hands: seq<seq<Landmark>>, calculate: bool) returns (keyboard: seq<seq<Rect>>, pressed: set<string>)
      requires Valid() && ValidHands(hands)
      modifies this
      ensures Valid()
      ensures Frame(pressed, timeout) == Step(old(timeout), hands, calculate, KeySide(), Start())
      ensures keyboard == LayoutRects(ROWS, SIZES, Start(), KeySide(), timeout)
    {
      var side := Side(width);
      var start := Top(height, side);
      pressed := {};
      if |hands| > 0 {
        var h := 0;
        assert hands[h..] == hands;
        while h < |hands|
          invariant 0 <= h <= |hands|
          invariant calculate ==> (PressHands(Frame(pressed, timeout), hands[h..], side, start)
                                   == PressHands(Frame({}, old(timeout)), hands, side, start))
          invariant !calculate ==> pressed == {} && timeout == old(timeout)
        {
          assert hands[h..][1..] == hands[h + 1..];
          if calculate {
            pressed := ScanHand(hands[h], side, start, pressed);
          }
          h := h + 1;
        }
        assert hands[h..] == [];
      }
      DecayTimeouts();
      StepKeepsCooling(old(timeout), hands, calculate, side, start);
      keyboard := DrawKeyboard(width, height, timeout);
    }

    /** The loop over POINTS for one hand, hit-testing and arming as it goes. */
    method ScanHand(hand: seq<Landmark>, side: int, start: int, pressed0: set<string>) returns (pressed: set<string>)
      requires |hand| == HAND_LANDMARKS && side != 0
      modifies this
      ensures Frame(pressed, timeout) == PressHand(Frame(pressed0, old(timeout)), hand, POINTS, side, start)
    {
      pressed := pressed0;
      var p := 0;
      assert POINTS[p..] == POINTS;
      while p < |POINTS|
        invariant 0 <= p <= |POINTS|
        invariant PressHand(Frame(pressed, timeout), hand, POINTS[p..], side, start)
               == PressHand(Frame(pressed0, old(timeout)), hand, POINTS, side, start)
      {
        var point := POINTS[p];
        assert POINTS[p..][0] == point && POINTS[p..][1..] == POINTS[p + 1..];
        ghost var next := PressPoint(Frame(pressed, timeout), hand[point], point, side, start);
        var landmark := hand[point];
        var x, y, z := landmark.x, landmark.y, landmark.z;
        if z <= THRESHOLDS[point] {
          var key := GetKey(x, y, side, start);
          if key.Some? && key.value != "" && key.value !in EXCLUDED && key.value !in timeout {
            if key.value in ALIASES {
              pressed := pressed + {ALIASES[key.value]};
            } else {
              pressed := pressed + {Lower(key.value)};
            }
            timeout := timeout[key.value := TIMEOUT_FRAMES];
          }
        }
        assert Frame(pressed, timeout) == next;
        p := p + 1;
      }
      assert POINTS[p..] == [];
    }

    /** The countdown loop: every entry of TIMEOUT drops by one, stopping at zero. */
    method DecayTimeouts()
      modifies this
      ensures timeout == Decay(old(timeout))
    {
      var keys := timeout.Keys;
      while keys != {}
        invariant keys <= timeout.Keys && timeout.Keys == old(timeout).Keys
        invariant forall k :: k in timeout ==>
          timeout[k] == if k in keys then old(timeout)[k] else Max(old(timeout)[k] - 1, 0)
        decreases keys
      {
        var k :| k in keys;
        timeout := timeout[k := Max(timeout[k] - 1, 0)];
        keys := keys - {k};
      }
    }
  }
}
