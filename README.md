# AR-KeyBoard: hit test, key-press debounce and keyboard layout

AR-KeyBoard draws a virtual keyboard over a camera frame. A hand detector reports
21 landmarks per hand. The program decides which key each of three fingertips
(index, middle, ring) is on, and presses that key when the fingertip is pushed
far enough towards the camera.

This project models the part of the program that does not touch pixels or the
detector:

- `Keyboard` (keyboard.py) holds the layout tables `ROWS`, `SIZES` and `ALIASES`.
  It also holds `DrawKeyboard`, which records one rectangle per key, row by row.
  The key side is `width // 15`, rows are centred vertically, and a key is drawn
  highlighted while its cooldown is non-zero.
- `Detection` (detection.py) holds `_getKey` (`GetKey`). It maps a fingertip's
  pixel position to the key under it. The row comes from the height. Then a
  cursor walks the row with exact, possibly fractional, key widths, and the first
  closed span that holds `x` wins.
- `Detection` also holds the decision part of `ProcessImage`, as
  `Detector.ProcessImage`.
  - A fingertip whose depth is at most its threshold is hit-tested.
  - The key it hits fires if it exists, is not `Backspace`, and is not yet in
    the cooldown table `TIMEOUT`. Firing adds its alias or its lower-cased label
    to the output set and arms the label with 15 frames.
  - After all fingertips are handled, every cooldown counts down by one,
    stopping at zero.
  - Finally the keyboard is drawn.
- `Wrappers` holds the `Option` type returned by the hit test.

The stateful parts are imperative. The classes and methods carry loop invariants
and are proved against specification functions: `KeyAt`, `LayoutRects` and
`Step`. The properties themselves are lemmas about those functions.

- The hit test returns the leftmost span containing the point. A shared edge
  goes to the left key. Points outside a row, above the keyboard or below it
  hit nothing.
- Every row is exactly 15 key sides wide, so a drawn row fits the frame.
  Rectangles abut and never overlap.
- Hit spans and drawn rectangles agree for even key sides. For odd ones they
  drift apart, shown for a side of 53.
- A call with `calc` arms exactly the labels under the pushed-down sampled
  fingertips of all hands that are not excluded and not yet in `TIMEOUT`.
- Old cooldowns decrement by exactly one. Fresh ones hold 14 on return. The
  output is exactly the symbols of the freshly armed labels and never
  `backspace`.
- Readiness is "not in `TIMEOUT`" and nothing removes entries. So over any run
  of frames each label fires at most once, and it then counts down to zero and
  stays there.
- No two labels send the same key name, so once a label fires, its key name is
  never output again.

## Model

| member | source | states |
|---|---|---|
| Keyboard.Trunc | keyboard.py:84 | `int()` on a float truncates toward zero: the result is within one of its argument, below it for non-negative and above it for negative arguments |
| Keyboard.Side | keyboard.py:70 | the key side is `width // 15`: `15 * side <= width < 15 * side + 15` |
| Keyboard.Top | keyboard.py:72 | the keyboard top `(height - side * len(ROWS)) // 2` is the floor of half the leftover height |
| Keyboard.KeyWidth | detection.py:54-58 | the exact width `SIZES[key] * KEY_SIDE`, or `KEY_SIDE` for an unsized key, is never less than one key side |
| Keyboard.RowRects | keyboard.py:75-88 | one rectangle per key of a row |
| Keyboard.LayoutRects | keyboard.py:74-90 | one row of rectangles per row of the layout |
| Keyboard.DrawKeyboard | keyboard.py:67-92 | the recorded rectangles are exactly the layout at side `width // 15` and top `Top`, highlighted from the given cooldowns |
| Keyboard.DrawRows | keyboard.py:74-91 | the outer loop, with X reset and Y advanced by one side per row, yields the layout |
| Keyboard.DrawRow | keyboard.py:75-88 | the inner loop, with both branches on `key in SIZES` and the cursor X, yields the row's rectangles |
| Keyboard.SizesAtLeastOne | keyboard.py:15-27 | no key is narrower than one key side |
| Keyboard.EveryRowIsFifteenUnits | keyboard.py:6-27 | every row of ROWS adds up to exactly 15 key sides under SIZES, the divisor of the frame width |
| Keyboard.DrawnWidthTruncates | keyboard.py:78-87 | a drawn width is the exact width truncated, so it is never more, and less by under one pixel |
| Keyboard.DrawnOffsetStep | keyboard.py:79-87 | each key starts where the previous one ended |
| Keyboard.DrawnRowWithinWidth | keyboard.py:78-87 | a drawn row is never wider than its exact width and never negative |
| Keyboard.RowRectsPlacement | keyboard.py:75-87 | rectangle `i` of a row has the label, left edge `x + DrawnOffset(i)`, the drawn width, height `side` and the highlight of its label |
| Keyboard.LayoutRectsPlacement | keyboard.py:74-90 | row `r` is drawn from X = 0 at `y + r * side` |
| Keyboard.LayoutGeometry | keyboard.py:67-92 | one rectangle per key in row-major order, with text, top, one-side height, drawn width, first left edge 0, each later left edge the previous right edge, and highlight iff the cooldown is non-zero |
| Keyboard.SameLabelSameHighlight | keyboard.py:74-76 | keys with the same label, such as the two Ctrl, WIN and Alt keys, share their highlight |
| Keyboard.RowRectsDisjoint | keyboard.py:78-88 | within a row an earlier rectangle ends at or before a later one starts |
| Keyboard.RowsFitFrame | keyboard.py:70-88 | every drawn row ends between 0 and `15 * side`, which is at most the frame width |
| Detection.RowIndex | detection.py:48 | the row index `(y - START) // KEY_SIDE` selects the band `[start + row * side, start + (row + 1) * side)` containing `y` |
| Detection.ScanRow | detection.py:50-58 | the row scan only ever returns a key of that row |
| Detection.KeyAt | detection.py:45-59 | a found key means the point is at or below the top, the row index is in range and the key is in that row |
| Detection.GetKey | detection.py:45-59 | `_getKey` returns exactly `KeyAt` |
| Detection.ScanKeys | detection.py:50-59 | the loop with cursor KEY_END returns exactly the row scan |
| Detection.ReachesIsWithinWidth | detection.py:54-55 | for non-negative sides the two-part test is "x within the key's exact width" |
| Detection.ScanRowBehindCursor | detection.py:53-58 | once `x` is left of the cursor nothing more can match, because the cursor only grows |
| Detection.ScanRowFindsFirstSpan | detection.py:50-59 | the scan returns nothing iff no closed span contains `x`; otherwise it returns the key of the leftmost span containing `x` |
| Detection.SharedEdgeGoesLeft | detection.py:53-56 | a point on the edge shared by two keys goes to the left key |
| Detection.OutsideRowMisses | detection.py:50-59 | a point left of the row or right of its total width hits nothing |
| Detection.KeyAtSpec | detection.py:45-59 | nothing above the keyboard or below its last row; otherwise exactly the leftmost key of the row under `y` whose span contains `x`, and nothing when none does |
| Detection.SizesInHalfUnits | keyboard.py:15-27 | every size is a whole number of half key sides |
| Detection.EvenSideWidth | detection.py:57 | for even key sides a key's exact hit width equals its drawn width |
| Detection.EvenSideAgrees | detection.py:57 | for even key sides every hit span starts at the same X as the drawn rectangle |
| Detection.EvenSideLayoutAgrees | keyboard.py:15-27 | for the layout's own tables and an even key side, every key of every row is hit exactly where and as wide as it is drawn |
| Detection.OddSideDrift | detection.py:54-57 | for key side 53, x = 79.25 in the second row hits Tab although the drawn rectangle there is Q |
| Detection.Lower | detection.py:98 | lower-casing keeps the length, maps each ASCII upper-case letter to its lower-case letter (code + 32) and changes no other character |
| Detection.Symbol | detection.py:95-98 | the key name sent for a label, its alias or its lower-cased label, never holds an upper-case letter |
| Detection.SymbolSamples | detection.py:95-98 | Q sends "q", Return "return", `\` itself, and LShift, RShift and Caps their aliases |
| Detection.LabelShapes | keyboard.py:6-12 | every label of ROWS is one character other than a lower-case letter, or one of the ten longer labels |
| Detection.SymbolRoundTrip | detection.py:95-98 | the label can be read back from the key name it sends |
| Detection.SymbolInjective | detection.py:95-98 | two labels that send the same key name are the same label |
| Detection.PressPoint | detection.py:92-99 | one fingertip sample only adds, and the label it arms is the one under it when it is pushed to its threshold, provided that label is real, not excluded and not in TIMEOUT |
| Detection.PressHand | detection.py:87-99 | the fingertips of one hand only add to `pressed` and TIMEOUT and never change an existing cooldown |
| Detection.PressHands | detection.py:81-99 | the same for all hands |
| Detection.Decay | detection.py:102-103 | the countdown keeps every label, never goes below zero or above the old value, and drops a running cooldown by exactly one |
| Detection.Step | detection.py:62-106 | one call keeps every label of TIMEOUT, leaves no negative cooldown, and without `calc` outputs nothing and arms nothing |
| Detection.PressPointArms | detection.py:92-99 | one fingertip sample keeps old cooldowns, arms only non-excluded layout keys with 15, and adds exactly their symbols |
| Detection.PressHandArms | detection.py:87-99 | the same holds for all sampled fingertips of a hand |
| Detection.PressHandsArms | detection.py:81-99 | the same holds for all hands |
| Detection.PressHandChoosesKeys | detection.py:87-99 | the labels a hand arms are exactly those under its pushed-down sampled fingertips that are real, not excluded and not in TIMEOUT |
| Detection.PressHandsChooseKeys | detection.py:81-99 | the labels all hands arm are exactly those under any hand's pushed-down sampled fingertips that are real, not excluded and not in TIMEOUT |
| Detection.StepChoosesKeys | detection.py:81-99 | with `calc` one call arms exactly the eligible labels under the pushed-down index, middle and ring fingertips of all hands; without it none |
| Detection.OnlySampledTipsMatter | detection.py:87-88 | landmarks other than the sampled fingertips never change the outcome |
| Detection.RaisedTipsPressNothing | detection.py:92 | a hand whose sampled tips are all above their depth thresholds presses nothing |
| Detection.ShortLabels | keyboard.py:6-12 | every label other than Backspace has at most six characters |
| Detection.OnlyBackspaceSendsBackspace | detection.py:94-98 | no non-excluded label sends the name "backspace" |
| Detection.StepSpec | detection.py:62-106 | old cooldowns stay and drop by exactly one, floored at 0; newly armed labels are non-excluded keys holding 14; the output is exactly their symbols and never "backspace"; without `calc` or hands nothing fires |
| Detection.StepCountsDown | detection.py:94-103 | across one call a label's cooldown drops by one, floored at 0, or a freshly armed label holds 14 |
| Detection.StepKeepsCooling | detection.py:99-103 | every cooldown stays in [0, 15) and belongs to a non-excluded layout key |
| Detection.CooldownKeysGrow | detection.py:94-103 | TIMEOUT only grows over a run of calls |
| Detection.FiresAtMostOnce | detection.py:94-99 | the labels armed by two different calls are disjoint, so each label fires at most once per process |
| Detection.ArmedAreLabels | detection.py:92-99 | a label that a call adds to `TIMEOUT` is a label of ROWS |
| Detection.CoolingNotSent | detection.py:94-99 | a call never outputs the key name of a label already in `TIMEOUT` |
| Detection.NeverSentAgain | detection.py:94-99 | once call `i` arms a label, no later call outputs that label's key name |
| Detection.CountdownAfterFiring | detection.py:99-103 | a label armed by call `i` holds `max(15 - (j - i), 0)` before call `j` |
| Detection.Detector.KeySide | detection.py:9 | KEY_SIDE is positive for a frame at least 15 pixels wide |
| Detection.Detector.Start | detection.py:10 | when the rows fit the frame, START leaves a gap below them equal to the gap above or one pixel larger |
| Detection.Detector.constructor | detection.py:32-34 | the detector starts with an empty TIMEOUT |
| Detection.Detector.ProcessImage | detection.py:62-106 | the output set and the new TIMEOUT are exactly `Step`, the keyboard is drawn from the new TIMEOUT, and the cooldown invariant is kept |
| Detection.Detector.ScanHand | detection.py:87-99 | the loop over POINTS for one hand does exactly `PressHand` |
| Detection.Detector.DecayTimeouts | detection.py:102-103 | the countdown loop leaves exactly `Decay` of the old table |

## Left out

- Image operations are not modelled: resizing, flipping, colour conversion, frame allocation, rectangle drawing, blending and text. These are foreign OpenCV calls. Each `_drawKey` call is recorded as a `Rect`, and `DrawKeyboard` returns those rectangles row by row instead of an image.
- Font scaling and text centring in `_drawKey` (keyboard.py:48-51) are left out: float and font-metric arithmetic with no stated invariant.
- The hand detector is not modelled: construction, `HANDS.process` and `draw_landmarks`. A hand arrives as its 21 landmarks. `if results.multi_hand_landmarks` becomes a non-empty sequence of hands. The detector's `max_num_hands` setting is not modelled, and any number of hands is accepted.
- The conversion of normalised landmark coordinates to pixels (detection.py:89) is left out. Landmarks already hold pixel `x`, `y` and the depth `z`.
- `WIDTH` and `HEIGHT` come from OS and camera queries (detection.py:8). Here they are the `Detector` constructor's parameters, and `KEY_SIDE` and `START` are `KeySide` and `Start`.
- A frame narrower than 15 pixels makes `_getKey` divide by zero. `Detector` therefore requires `width >= 15`, and `GetKey` requires a non-zero side whenever the point is not above the keyboard.
- KeyAtSpec: characterises the hit test only for a positive key side, the only kind a frame width can produce.
- Float arithmetic is modelled with exact reals. Every width is a multiple of half a key side, so the float sums in `_getKey` are exact for any realistic frame.
- `key.lower()` is modelled for ASCII only, which covers every label of the layout.
- The countdown loop visits TIMEOUT's entries in an arbitrary order. Each entry is updated on its own, so the order does not matter.
- The highlight flag `key in pressed_keys and pressed_keys[key]` is modelled as its truth value.
- `KeyPress` and `pyautogui.press` (keyboard.py:95-96) inject OS key events. The model stops at the set of key names.
- Both `__main__` loops are left out: webcam capture, frame skipping, display and the ESC key.
