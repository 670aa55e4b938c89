# Superuser: document board and console line editor

A Dafny model of the two pieces of logic in the Superuser desktop toy that
sit under its rendering calls:

- **The document board** (`src/manual.rs`). Manuals are axis-aligned
  panels with an integer position and size. The board keeps them in render
  order in a fixed-size array, with index 0 drawn first. A drag scans the
  manuals in order for the first one under the *previous* pointer position.
  It swaps that manual into index 0 and moves it by the pointer delta.
  Module `Manuals`: `Manual` is a value record, and `ManualBoard` is a class
  whose `manuals` array `MouseDrag` updates in place. `MouseDrag` is proved
  against the specification function `Dragged`, and the drag properties are
  lemmas about `Dragged`.
- **The console line editor** (`src/lib.rs`). A scrollback of finished
  lines and a prompt string. Typed characters are appended while the
  prompt is shorter than 70 bytes, and DEL is ignored. Backspace pops the
  last character. Return appends the full prompt line and clears the
  prompt. Before each frame is drawn, the oldest lines are dropped until the
  scrollback fits the window. Module `Terminal`: class `Console` with methods
  `PushChar`, `Backspace`, `Submit`, `AddLine` and `Evict`, plus the function
  `FullPrompt`. `PushChar`, `Backspace` and `Evict` are each tied to a pure function (`Pushed`, `Popped`,
  `Evicted`), and the lemmas are proved about those functions.
- Module `RustInt` holds `Quot`, which is Rust's `/` on `i32`: it truncates
  toward zero. Dafny's own `/` is Euclidean. `Quot` is used for `size / 2`
  and for `(height - 5) / 16`.

Prompt lengths are counted in UTF-8 bytes (`ByteLen`), like Rust's
`String::len`. The prompt is still a sequence of characters, and `pop`
removes a whole character. So a prompt can reach 73 bytes: 69 bytes plus one
4-byte character. It never holds more than 70 characters, and with ASCII input it stays within 70 bytes.

## Model

| member | source | states |
|---|---|---|
| `RustInt.Quot` | src/manual.rs:25 | Integer division by a positive divisor truncates toward zero: the remainder has the sign of the dividend and is smaller than the divisor |
| `Manuals.PointAabb` | src/manual.rs:1-6 | Defined as strict containment: `rect_pos < p < rect_pos + rect_size` on both axes |
| `Manuals.EdgeIsOutside` | src/manual.rs:1-6 | A point exactly on any of the four edges is not inside (the test is strict) |
| `Manuals.ThinRectIsEmpty` | src/manual.rs:1-6 | A rectangle narrower than 2 in either axis contains no integer point |
| `Manuals.ContainsTranslated` | src/manual.rs:1-6 | Moving the point and the rectangle by the same offset keeps the containment result |
| `Manuals.SetCenter` | src/manual.rs:24-26 | The size is unchanged, and the position is placed so that `pos + size/2` (truncating) is exactly the requested centre |
| `Manuals.NewManual` | src/manual.rs:16-22 | The size is stored as given, and the manual is centred on the requested point by set_center |
| `Manuals.CentredManualContainsCenter` | src/manual.rs:16-26 | A manual centred on `c` with both sides at least 2 contains `c` |
| `Manuals.ManualBoard.Center` | src/manual.rs:50-55 | The centre is `pos + size/2` per axis; for non-negative sides it lies between `pos` and `pos + size - size/2`; it is strictly inside the board when both sides are at least 2 |
| `Manuals.ManualBoard.constructor` | src/manual.rs:37-49 | The board's x and width are `window_width / 2`, and it holds exactly one manual of size (200,400) centred on the board's `center()` |
| `Manuals.FirstHitFrom` | src/manual.rs:61-67 | The scan returns the lowest index at or after k whose manual contains the point, or no grab iff no manual from k on contains it |
| `Manuals.FirstHitExact` | src/manual.rs:61-67 | The scan picks index i iff manual i contains the point and no lower-index manual does |
| `Manuals.Swapped` | src/manual.rs:63 | `swap(0, i)` exchanges the two entries and leaves every other index alone |
| `Manuals.SwapPermutes` | src/manual.rs:63 | A swap keeps the same multiset of manuals |
| `Manuals.Dragged` | src/manual.rs:57-78 | Reference definition of the drag: no change when the scan finds nothing; otherwise swap the first hit with index 0, then add `mouse - previous` to the position at index 0 |
| `Manuals.DragMissIsNoop` | src/manual.rs:59-69 | If no manual contains the previous pointer position, the drag changes neither the order nor any position |
| `Manuals.DragHitChanges` | src/manual.rs:61-74 | If some manual contains the previous position and the pointer moved, the drag changes the board |
| `Manuals.DragHitFront` | src/manual.rs:61-74 | The first manual under the previous position ends at index 0, with the same size and its position moved by exactly `mouse - previous`; the old front manual takes its index; all other indices are untouched |
| `Manuals.DragIsSwapThenMove` | src/manual.rs:61-74 | The result is the swapped array with only index 0 repositioned, and every size is preserved at its new index |
| `Manuals.DragReordersOthers` | src/manual.rs:63 | With three manuals and the first hit at index 2, the old front manual lands at index 2 and index 1 stays: dragging [a, b, c] at c gives [c', b, a] |
| `Manuals.DragKeepsGrip` | src/manual.rs:61-74 | After a drag, the dragged manual contains the new pointer position and is the first hit for it, so the next move event of the gesture drags the same manual |
| `Manuals.ManualBoard.MouseDrag` | src/manual.rs:57-78 | The in-place scan, swap and translation leave the array equal to `Dragged` of its old contents |
| `Terminal.Utf8Len` | src/lib.rs:57 | A character takes 1 to 4 bytes, and exactly 1 iff it is ASCII |
| `Terminal.ByteLen` | src/lib.rs:57 | Defined as the sum of the UTF-8 widths of the characters, which is what `String::len` returns |
| `Terminal.AsciiByteLen` | src/lib.rs:57 | For ASCII text, String::len equals the number of characters |
| `Terminal.ByteLenAtLeastLength` | src/lib.rs:57 | A text has at least as many bytes as characters and at most four bytes per character |
| `Terminal.Pushed` | src/lib.rs:56-60 | A character is appended iff it is not DEL and the prompt is below 70 bytes, otherwise the prompt is unchanged; the 73-byte bound, the 70-character bound and the absence of DEL are preserved |
| `Terminal.ControlCharAccepted` | src/lib.rs:56-58 | Any character other than DEL is appended to a prompt below the cap, control characters included: carriage return and `'\u{8}'` go into an empty prompt |
| `Terminal.Popped` | src/lib.rs:61-63 | Backspace removes exactly the last character of a non-empty prompt and does nothing to an empty one |
| `Terminal.PushThenPop` | src/lib.rs:56-63 | Starting below the cap, pushing a non-DEL character and then backspacing restores the prompt |
| `Terminal.Edited` | src/lib.rs:56-63 | Defined as applying a sequence of events in order: a typed character goes through `Pushed`, a Back key through `Popped` |
| `Terminal.EditsStayBounded` | src/lib.rs:56-63 | Any sequence of typed characters and backspaces keeps the prompt within 73 bytes |
| `Terminal.AsciiEditsStayWithinCap` | src/lib.rs:56-63 | With ASCII input, any sequence of edits keeps the prompt within 70 characters |
| `Terminal.EditsStayWithinCap` | src/lib.rs:56-63 | For any characters at all, any sequence of edits keeps the prompt within 70 characters |
| `Terminal.EditsNeverAddDel` | src/lib.rs:56-63 | No sequence of edits puts a DEL character into the prompt |
| `Terminal.Evicted` | src/lib.rs:114-117 | Removing the oldest line while the count is at least `max` leaves fewer than `max` lines; nothing is dropped when already below `max` |
| `Terminal.EvictedKeepsNewest` | src/lib.rs:114-117 | The oldest lines go first: the result is the suffix of the original with exactly `min(len, max-1)` lines |
| `Terminal.MaxLineCount` | src/lib.rs:114 | `(height - 5) / 16` is at least 1 iff the window is at least 21 pixels high, and it is the number of whole 16-pixel lines below the 5-pixel margin |
| `Terminal.ScrollbackFitsWindow` | src/lib.rs:111-139 | After eviction for a window at least 21 pixels high, the 16-pixel line slots of the kept lines and of the prompt end above the window's bottom edge |
| `Terminal.Console.constructor` | src/lib.rs:11-15 | The default console has no lines and an empty prompt |
| `Terminal.Console.FullPrompt` | src/lib.rs:18-20 | The full prompt is `"root@192.168.0.7> "` followed by the prompt; its byte length is 18 plus the prompt's |
| `Terminal.Console.AddLine` | src/lib.rs:21-23 | The line is appended at the end; earlier lines and the prompt are unchanged; the prompt invariant is kept |
| `Terminal.Console.PushChar` | src/lib.rs:56-60 | The prompt becomes `Pushed` of the old prompt; the lines are unchanged; the invariant (at most 73 bytes and 70 characters) is kept |
| `Terminal.Console.Backspace` | src/lib.rs:61-63 | The prompt becomes `Popped` of the old prompt; the lines are unchanged |
| `Terminal.Console.Submit` | src/lib.rs:77-80 | Exactly one line is appended, equal to the old full prompt, and then the prompt is empty |
| `Terminal.Console.Evict` | src/lib.rs:114-117 | The scrollback becomes `Evicted` of the old one, so fewer than `maxLineCount` lines remain and they are a suffix of the old scrollback; the prompt and its invariant are unchanged |

## Left out

- Rendering, fonts, window sizing, `setup` and the `main.rs` wiring (src/lib.rs:35-52, src/lib.rs:84-142, src/main.rs:4-13): these are framework calls with no logic to state.
- The board's vertical geometry, `height * 0.25` and `height * 0.75` (src/manual.rs:38-39), is computed in floating point. The constructor takes the resulting top and height as integer parameters. Only the integer `window_width / 2` is modelled.
- The `time` accumulation and the caret blink (src/lib.rs:81, src/lib.rs:126) use floating point and only affect drawing.
- Mouse-button polling and the `previous_mouse_pos` bookkeeping (src/lib.rs:64-71) are event plumbing. `MouseDrag` takes both pointer positions as parameters.
- `Manuals.ManualBoard.MouseDrag`, `Manuals.SetCenter`, `Manuals.ManualBoard.Center`, `Manuals.PointAabb`, `Manuals.ManualBoard.constructor`: these use unbounded integers, so i32 overflow is not modelled. That covers `rect_pos + rect_size` in the containment test (src/manual.rs:3, src/manual.rs:5), `pos + size / 2` (src/manual.rs:45, src/manual.rs:52-53), `center - size / 2` (src/manual.rs:25) and the drag delta (src/manual.rs:70-74).
- `Manuals.ManualBoard.MouseDrag`: the source's array has exactly one manual. The model allows any length, and the loop is unchanged.
- `Manuals.SetCenter` returns the updated record instead of mutating `pos` in place. A manual is a value stored by value in the board's array, so no aliasing is lost.
- `Terminal.Console.Evict` requires `maxLineCount >= 1`. For a window shorter than 21 pixels, `MaxLineCount` is 0 and the source's loop would call `remove(0)` on an empty Vec, which panics.
- `Terminal.MaxLineCount` takes a non-negative height. `as usize` is then the identity, because `(height - 5) / 16` truncates to 0 for heights 0 to 4.
- `Terminal.ScrollbackFitsWindow` covers the 16-pixel line slots only. The caret is drawn 2 pixels below the prompt's slot and 16 pixels tall (src/lib.rs:127-133), and the text uses font size 21 (src/lib.rs:112), so either can reach past the bottom edge.
- Dragging does not keep a manual inside the board's region. The source leaves this as a TODO (src/manual.rs:76), and the model does the same.

## Behaviour of the code worth knowing

- `swap(0, i)` at src/manual.rs:63 moves the old front manual to index i. With three or more manuals the other manuals do not keep their relative order (`Manuals.DragReordersOthers`). The source's board holds one manual, so this has no effect there.
- `draw` paints the manuals in index order, index 0 first (src/lib.rs:95-101). So the manual at index 0, the one the scan checks first and the one a drag moves there, is painted under the others. With one manual this has no effect.
- The event handler appends every character except DEL, control characters included (src/lib.rs:56). So a character such as `'\r'` or `'\u{8}'` enters the prompt (`Terminal.ControlCharAccepted`).
