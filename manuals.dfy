/// The document board of src/manual.rs: manuals are axis-aligned panels
/// with an integer position and size; the board keeps them in render order
/// (index 0 first) and lets the pointer drag one of them.
module Manuals {
  import opened RustInt

  /// A pair of `i32` coordinates, modelled on unbounded integers.
  datatype Vec2 = Vec2(x: int, y: int)
  {
    function Plus(d: Vec2): Vec2 { Vec2(x + d.x, y + d.y) }
    function Minus(d: Vec2): Vec2 { Vec2(x - d.x, y - d.y) }
  }

  /// A manual is a plain value: Rust stores it by value inside the board's array.
  datatype Manual = Manual(pos: Vec2, size: Vec2)

  /// point_aabb: strict containment on all four edges.
  predicate PointAabb(p: Vec2, rectPos: Vec2, rectSize: Vec2)
  {
    rectPos.x < p.x && p.x < rectPos.x + rectSize.x
    && rectPos.y < p.y && p.y < rectPos.y + rectSize.y
  }

  predicate Contains(m: Manual, p: Vec2)
  {
    PointAabb(p, m.pos, m.size)
  }

  /// The point `pos + size / 2`, with Rust's truncating division; used by
  /// ManualBoard::center and, through set_center, by every manual.
  function RectCenter(pos: Vec2, size: Vec2): Vec2
  {
    Vec2(pos.x + Quot(size.x, 2), pos.y + Quot(size.y, 2))
  }

  /// Manual::set_center: only `pos` changes, and it is placed so that
  /// `pos + size / 2` is exactly the requested centre.
  function SetCenter(m: Manual, c: Vec2): (r: Manual)
    ensures r.size == m.size
    ensures RectCenter(r.pos, r.size) == c
  {
    m.(pos := Vec2(c.x - Quot(m.size.x, 2), c.y - Quot(m.size.y, 2)))
  }

  /// Manual::new: starts at (0, 0) with the given size, then set_center.
  function NewManual(center: Vec2, size: Vec2): (r: Manual)
    ensures r.size == size
    ensures RectCenter(r.pos, r.size) == center
  {
    SetCenter(Manual(Vec2(0, 0), size), center)
  }

  /// No integer point lies strictly inside a rectangle narrower than 2.
  lemma ThinRectIsEmpty(p: Vec2, rectPos: Vec2, rectSize: Vec2)
    requires rectSize.x < 2 || rectSize.y < 2
    ensures !PointAabb(p, rectPos, rectSize)
  {
  }

  /// Points on any of the four edges are outside.
  lemma EdgeIsOutside(p: Vec2, rectPos: Vec2, rectSize: Vec2)
    requires p.x == rectPos.x || p.x == rectPos.x + rectSize.x
          || p.y == rectPos.y || p.y == rectPos.y + rectSize.y
    ensures !PointAabb(p, rectPos, rectSize)
  {
  }

  /// Moving the point and the rectangle by the same offset keeps containment.
  lemma ContainsTranslated(p: Vec2, rectPos: Vec2, rectSize: Vec2, d: Vec2)
    ensures PointAabb(p.Plus(d), rectPos.Plus(d), rectSize) == PointAabb(p, rectPos, rectSize)
  {
  }

  /// A manual centred on `c` contains `c` as soon as both sides are at least 2;
  /// so a manual just placed on the board can be grabbed at its centre.
  lemma CentredManualContainsCenter(c: Vec2, size: Vec2)
    requires size.x >= 2 && size.y >= 2
    ensures Contains(NewManual(c, size), c)
  {
  }

  /// Outcome of the scan in mouse_drag.
  datatype Grab = NoGrab | GrabAt(index: nat)

  /// The first index at or after `k` whose manual contains `p`.
  function FirstHitFrom(ms: seq<Manual>, p: Vec2, k: nat): (r: Grab)
    requires k <= |ms|
    decreases |ms| - k
    ensures r.GrabAt? ==> k <= r.index < |ms| && Contains(ms[r.index], p)
    ensures r.GrabAt? ==> forall j :: k <= j < r.index ==> !Contains(ms[j], p)
    ensures r.NoGrab? <==> forall j :: k <= j < |ms| ==> !Contains(ms[j], p)
  {
    if k == |ms| then NoGrab
    else if Contains(ms[k], p) then GrabAt(k)
    else FirstHitFrom(ms, p, k + 1)
  }

  /// The manual mouse_drag picks: the lowest index containing `p`.
  function FirstHit(ms: seq<Manual>, p: Vec2): Grab
  {
    FirstHitFrom(ms, p, 0)
  }

  /// `i` is the first index whose manual contains `p`.
  predicate IsFirstHit(ms: seq<Manual>, p: Vec2, i: nat)
  {
    i < |ms| && Contains(ms[i], p) && forall j :: 0 <= j < i ==> !Contains(ms[j], p)
  }

  /// The scan result is exactly the first hit, in both directions.
  lemma FirstHitExact(ms: seq<Manual>, p: Vec2, i: nat)
    ensures FirstHit(ms, p) == GrabAt(i) <==> IsFirstHit(ms, p, i)
  {
  }

  function Swapped(s: seq<Manual>, i: nat, j: nat): (r: seq<Manual>)
    requires i < |s| && j < |s|
    ensures |r| == |s| && r[i] == s[j] && r[j] == s[i]
    ensures forall k :: 0 <= k < |s| && k != i && k != j ==> r[k] == s[k]
  {
    s[i := s[j]][j := s[i]]
  }

  /// The board's manuals after mouse_drag(mouse, prev): the first manual
  /// containing `prev` is swapped into index 0 and moved by `mouse - prev`.
  function Dragged(ms: seq<Manual>, mouse: Vec2, prev: Vec2): seq<Manual>
  {
    match FirstHit(ms, prev)
    case NoGrab => ms
    case GrabAt(i) =>
      var s := Swapped(ms, 0, i);
      s[0 := s[0].(pos := s[0].pos.Plus(mouse.Minus(prev)))]
  }

  /// A pointer that was over no manual changes nothing: same order, same positions.
  lemma DragMissIsNoop(ms: seq<Manual>, mouse: Vec2, prev: Vec2)
    requires forall j :: 0 <= j < |ms| ==> !Contains(ms[j], prev)
    ensures Dragged(ms, mouse, prev) == ms
  {
  }

  /// Conversely, when the pointer was over some manual and actually moved,
  /// the board changes.
  lemma DragHitChanges(ms: seq<Manual>, mouse: Vec2, prev: Vec2, i: nat)
    requires i < |ms| && Contains(ms[i], prev) && mouse != prev
    ensures Dragged(ms, mouse, prev) != ms
  {
  }

  /// The first manual under `prev` ends up at index 0, shifted by exactly the
  /// pointer delta, with its size unchanged; the old front manual takes its
  /// index; every other index is untouched.
  lemma DragHitFront(ms: seq<Manual>, mouse: Vec2, prev: Vec2, i: nat)
    requires IsFirstHit(ms, prev, i)
    ensures var out := Dragged(ms, mouse, prev);
      && |out| == |ms|
      && out[0].pos == Vec2(ms[i].pos.x + (mouse.x - prev.x), ms[i].pos.y + (mouse.y - prev.y))
      && out[0].size == ms[i].size
      && (i != 0 ==> out[i] == ms[0])
      && (forall k :: 0 < k < |ms| && k != i ==> out[k] == ms[k])
  {
  }

  /// Dragging is the swap followed by moving index 0 alone, so no manual is
  /// resized: each size is found at its (possibly swapped) new index.
  /// SwapPermutes shows the swap itself is a permutation.
  lemma DragIsSwapThenMove(ms: seq<Manual>, mouse: Vec2, prev: Vec2, i: nat)
    requires IsFirstHit(ms, prev, i)
    ensures var out := Dragged(ms, mouse, prev);
      && out[0 := ms[i]] == Swapped(ms, 0, i)
      && (forall k :: 0 <= k < |ms| ==> out[k].size == Swapped(ms, 0, i)[k].size)
  {
  }

  /// A swap keeps the same multiset of manuals.
  lemma SwapPermutes(s: seq<Manual>, i: nat, j: nat)
    requires i < |s| && j < |s|
    ensures multiset(Swapped(s, i, j)) == multiset(s)
  {
  }

  /// `swap(0, i)` sends the old front manual to index i, so with three or
  /// more manuals the others do not keep their relative order: dragging
  /// [a, b, c] at c gives [c', b, a].
  lemma DragReordersOthers(ms: seq<Manual>, mouse: Vec2, prev: Vec2)
    requires |ms| == 3 && IsFirstHit(ms, prev, 2)
    ensures var out := Dragged(ms, mouse, prev);
      out[1] == ms[1] && out[2] == ms[0]
  {
  }

  /// After a drag the dragged manual is under the new pointer position, so
  /// the next drag event of the same gesture grabs the same manual.
  lemma DragKeepsGrip(ms: seq<Manual>, mouse: Vec2, prev: Vec2)
    requires FirstHit(ms, prev).GrabAt?
    ensures var out := Dragged(ms, mouse, prev);
      |out| > 0 && Contains(out[0], mouse) && FirstHit(out, mouse) == GrabAt(0)
  {
  }

  /// ManualBoard: a screen region and a fixed-size array of manuals in
  /// render order.
  class ManualBoard {
    var pos: Vec2
    var size: Vec2
    const manuals: array<Manual>

    /// ManualBoard::new. The board's x and width are `window_width / 2`;
    /// `top` and `height` stand for the board's y and height, which the
    /// source derives from the window height in floating point.
    constructor (windowWidth: int, top: int, height: int)
      ensures pos == Vec2(Quot(windowWidth, 2), top)
      ensures size == Vec2(Quot(windowWidth, 2), height)
      ensures fresh(manuals) && manuals.Length == 1
      ensures manuals[0] == NewManual(Center(), Vec2(200, 400))
      ensures manuals[0].size == Vec2(200, 400)
      ensures RectCenter(manuals[0].pos, manuals[0].size) == Center()
    {
      var p := Vec2(Quot(windowWidth, 2), top);
      var s := Vec2(Quot(windowWidth, 2), height);
      pos := p;
      size := s;
      manuals := new Manual[1] [NewManual(Vec2(p.x + Quot(s.x, 2), p.y + Quot(s.y, 2)), Vec2(200, 400))];
    }

    /// ManualBoard::center: `pos + size / 2` per axis, truncating.
    function Center(): (c: Vec2)
      reads this
      ensures size.x >= 0 ==> pos.x <= c.x <= pos.x + size.x - Quot(size.x, 2)
      ensures size.y >= 0 ==> pos.y <= c.y <= pos.y + size.y - Quot(size.y, 2)
      ensures size.x >= 2 && size.y >= 2 ==> PointAabb(c, pos, size)
    {
      RectCenter(pos, size)
    }

    /// ManualBoard::mouse_drag: scan in render order for the first manual
    /// containing the previous pointer position, swap it to index 0, then
    /// translate it by the pointer delta. The board's region is untouched.
    method MouseDrag(mouse: Vec2, prev: Vec2)
      modifies manuals
      ensures manuals[..] == Dragged(old(manuals[..]), mouse, prev)
    {
      var isDragged := false;
      var i := 0;
      while i < manuals.Length
        invariant 0 <= i <= manuals.Length
        invariant !isDragged
        invariant manuals[..] == old(manuals[..])
        invariant forall j :: 0 <= j < i ==> !Contains(manuals[j], prev)
      {
        if PointAabb(prev, manuals[i].pos, manuals[i].size) {
          FirstHitExact(manuals[..], prev, i);
          assert FirstHit(old(manuals[..]), prev) == GrabAt(i);
          manuals[0], manuals[i] := manuals[i], manuals[0];
          isDragged := true;
          break;
        }
        i := i + 1;
      }
      if isDragged {
        var dx := mouse.x - prev.x;
        var dy := mouse.y - prev.y;
        manuals[0] := manuals[0].(pos := Vec2(manuals[0].pos.x + dx, manuals[0].pos.y + dy));
      } else {
        assert FirstHit(old(manuals[..]), prev) == NoGrab;
      }
    }
  }
}
