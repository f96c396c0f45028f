/** The TV display's 12 x 20 grid: rectangles, validation, placement and edits. */
module TvGrid {
  import opened Sequences

  const GRID_COLS := 12
  const GRID_MAX_ROWS := 20
  const GRID_MIN_W := 1
  const GRID_MIN_H := 1

  datatype Component = NowServing | WaitingQueue | CallHistory | CountersServing | RunningText
  datatype Rect = Rect(x: int, y: int, w: int, h: int)
  datatype Widget = Widget(id: string, component: Component, rect: Rect)
  datatype Size = Size(w: int, h: int)
  datatype Spot = Spot(x: int, y: int)

  function DefaultSize(c: Component): Size {
    match c
    case NowServing => Size(12, 4)
    case WaitingQueue => Size(6, 3)
    case CallHistory => Size(6, 3)
    case CountersServing => Size(12, 3)
    case RunningText => Size(12, 1)
  }

  const DEFAULT_TV_GRID_LAYOUT: seq<Widget> := [
    Widget("nowServing", NowServing, Rect(0, 0, 12, 4)),
    Widget("waitingQueue", WaitingQueue, Rect(0, 4, 6, 3)),
    Widget("callHistory", CallHistory, Rect(6, 4, 6, 3)),
    Widget("countersServing", CountersServing, Rect(0, 7, 12, 3)),
    Widget("runningText", RunningText, Rect(0, 10, 12, 1))]

  // ---------------------------------------------------------------- rectangles and cells

  predicate RectsOverlap(a: Rect, b: Rect) {
    a.x < b.x + b.w && a.x + a.w > b.x && a.y < b.y + b.h && a.y + a.h > b.y
  }

  datatype Cell = Cell(col: int, row: int)

  predicate Covers(r: Rect, c: Cell) {
    r.x <= c.col < r.x + r.w && r.y <= c.row < r.y + r.h
  }

  predicate IsProper(r: Rect) { r.w >= 1 && r.h >= 1 }

  predicate InGrid(r: Rect) {
    0 <= r.x && 0 <= r.y && IsProper(r) && r.x + r.w <= GRID_COLS && r.y + r.h <= GRID_MAX_ROWS
  }

  function MaxInt(a: int, b: int): int { if a < b then b else a }

  /** Two rectangles overlap exactly when they share a cell. */
  lemma OverlapIsSharedCell(a: Rect, b: Rect)
    requires IsProper(a) && IsProper(b)
    ensures RectsOverlap(a, b) <==> exists c :: Covers(a, c) && Covers(b, c)
  {
    if RectsOverlap(a, b) {
      var c := Cell(MaxInt(a.x, b.x), MaxInt(a.y, b.y));
      assert Covers(a, c) && Covers(b, c);
    }
  }

  /** The `w` cells of row `y` from column `x`. */
  function RowCells(x: int, y: int, w: nat): (s: set<Cell>)
    ensures forall c :: c in s <==> c.row == y && x <= c.col < x + w
  {
    if w == 0 then {} else RowCells(x, y, w - 1) + {Cell(x + w - 1, y)}
  }

  function BlockCells(x: int, y: int, w: nat, h: nat): (s: set<Cell>)
    ensures forall c :: c in s <==> x <= c.col < x + w && y <= c.row < y + h
  {
    if h == 0 then {} else BlockCells(x, y, w, h - 1) + RowCells(x, y + h - 1, w)
  }

  lemma {:induction false} RowCount(x: int, y: int, w: nat)
    ensures |RowCells(x, y, w)| == w
  {
    if w != 0 {
      RowCount(x, y, w - 1);
    }
  }

  lemma DisjointCount<T>(a: set<T>, b: set<T>)
    requires a !! b
    ensures |a + b| == |a| + |b|
  {}

  lemma BlockStep(x: int, y: int, w: nat, h: nat)
    requires h != 0
    ensures |BlockCells(x, y, w, h)| == |BlockCells(x, y, w, h - 1)| + |RowCells(x, y + h - 1, w)|
  {
    var above, last := BlockCells(x, y, w, h - 1), RowCells(x, y + h - 1, w);
    assert BlockCells(x, y, w, h) == above + last && above !! last;
    hide *;
    DisjointCount(above, last);
  }

  ghost function Rows(w: nat, h: nat): nat { if h == 0 then 0 else Rows(w, h - 1) + w }

  lemma {:induction false} RowsTimes(w: nat, h: nat)
    ensures Rows(w, h) == w * h
  {
    if h != 0 {
      RowsTimes(w, h - 1);
    }
  }

  lemma NoRows(x: int, y: int, w: nat)
    ensures |BlockCells(x, y, w, 0)| == 0
  {}

  lemma {:induction false} BlockRows(x: int, y: int, w: nat, h: nat)
    ensures |BlockCells(x, y, w, h)| == Rows(w, h)
  {
    hide BlockCells, RowCells;
    if h == 0 {
      NoRows(x, y, w);
    } else {
      BlockStep(x, y, w, h);
      BlockRows(x, y, w, h - 1);
      RowCount(x, y + h - 1, w);
    }
  }

  lemma BlockCount(x: int, y: int, w: nat, h: nat)
    ensures |BlockCells(x, y, w, h)| == w * h
  {
    BlockRows(x, y, w, h);
    RowsTimes(w, h);
  }

  // ---------------------------------------------------------------- valid layouts

  ghost predicate Apart(layout: seq<Widget>) {
    forall i, j :: 0 <= i < j < |layout| ==> !RectsOverlap(layout[i].rect, layout[j].rect)
  }

  ghost predicate IdsOk(layout: seq<Widget>) {
    && (forall i :: 0 <= i < |layout| ==> layout[i].id != "")
    && (forall i, j :: 0 <= i < j < |layout| ==> layout[i].id != layout[j].id)
  }

  /** In bounds, distinct ids, no overlap. */
  ghost predicate IsValid(layout: seq<Widget>) {
    IdsOk(layout) && Apart(layout) && forall i :: 0 <= i < |layout| ==> InGrid(layout[i].rect)
  }

  ghost function TotalArea(layout: seq<Widget>): int {
    if layout == [] then 0 else
      var r := layout[|layout| - 1].rect;
      TotalArea(layout[..|layout| - 1]) + r.w * r.h
  }

  ghost predicate AllInGrid(layout: seq<Widget>) { forall i :: 0 <= i < |layout| ==> InGrid(layout[i].rect) }

  ghost function CellsOf(layout: seq<Widget>): (s: set<Cell>)
    requires AllInGrid(layout)
    ensures forall c :: c in s <==> exists i :: 0 <= i < |layout| && Covers(layout[i].rect, c)
  {
    if layout == [] then {} else
      var r := layout[|layout| - 1].rect;
      assert InGrid(r);
      CellsOf(layout[..|layout| - 1]) + BlockCells(r.x, r.y, r.w, r.h)
  }

  /** The last widget's cells are no other widget's. */
  lemma LastIsApart(layout: seq<Widget>)
    requires layout != [] && Apart(layout) && AllInGrid(layout)
    ensures
      var r := layout[|layout| - 1].rect;
      InGrid(r) && CellsOf(layout[..|layout| - 1]) !! BlockCells(r.x, r.y, r.w, r.h)
  {
    var init, r := layout[..|layout| - 1], layout[|layout| - 1].rect;
    assert InGrid(r);
    hide CellsOf, BlockCells;
    forall c | c in CellsOf(init) ensures c !in BlockCells(r.x, r.y, r.w, r.h) {
      var i :| 0 <= i < |init| && Covers(init[i].rect, c);
      assert !RectsOverlap(layout[i].rect, r) && InGrid(layout[i].rect);
      OverlapIsSharedCell(init[i].rect, r);
    }
  }

  lemma OneMoreBlock(layout: seq<Widget>)
    requires layout != [] && Apart(layout) && AllInGrid(layout)
    ensures
      var r := layout[|layout| - 1].rect;
      |CellsOf(layout)| == |CellsOf(layout[..|layout| - 1])| + r.w * r.h && r.w * r.h >= 1
  {
    var init, r := layout[..|layout| - 1], layout[|layout| - 1].rect;
    LastIsApart(layout);
    assert CellsOf(layout) == CellsOf(init) + BlockCells(r.x, r.y, r.w, r.h);
    AreaPositive(r.w, r.h);
    hide CellsOf, BlockCells, RectsOverlap;
    DisjointCount(CellsOf(init), BlockCells(r.x, r.y, r.w, r.h));
    BlockCount(r.x, r.y, r.w, r.h);
  }

  lemma AreaPositive(w: int, h: int)
    requires w >= 1 && h >= 1
    ensures w * h >= 1
  {}

  lemma {:induction false} AreaIsCells(layout: seq<Widget>)
    requires Apart(layout) && AllInGrid(layout)
    ensures TotalArea(layout) == |CellsOf(layout)| && |layout| <= TotalArea(layout)
  {
    hide CellsOf, InGrid, RectsOverlap;
    if layout == [] {
      NoCells(layout);
    } else {
      AreaIsCells(layout[..|layout| - 1]);
      OneMoreBlock(layout);
    }
  }

  lemma NoCells(layout: seq<Widget>)
    requires layout == []
    ensures CellsOf(layout) == {}
  {}

  lemma {:induction false} SubsetIsSmaller<T>(a: set<T>, b: set<T>)
    requires a <= b
    ensures |a| <= |b|
    decreases a
  {
    if a != {} {
      var x :| x in a;
      SubsetIsSmaller(a - {x}, b - {x});
    }
  }

  /** Every valid layout covers at most the 240 cells of the grid, and so has at most 240 widgets. */
  lemma LayoutFits(layout: seq<Widget>)
    requires IsValid(layout)
    ensures TotalArea(layout) <= GRID_COLS * GRID_MAX_ROWS == 240
    ensures |layout| <= 240
  {
    hide CellsOf, BlockCells, TotalArea;
    AreaIsCells(layout);
    BlockCount(0, 0, 12, 20);
    CellsInGrid(layout);
    hide *;
    SubsetIsSmaller(CellsOf(layout), BlockCells(0, 0, 12, 20));
  }

  lemma CellsInGrid(layout: seq<Widget>)
    requires AllInGrid(layout)
    ensures CellsOf(layout) <= BlockCells(0, 0, 12, 20)
  {
    hide BlockCells, CellsOf;
    forall c | c in CellsOf(layout) ensures c in BlockCells(0, 0, 12, 20) {
      var i :| 0 <= i < |layout| && Covers(layout[i].rect, c);
      assert InGrid(layout[i].rect);
    }
  }

  // ---------------------------------------------------------------- overlap scans

  /** No widget but `except` overlaps the rectangle. */
  ghost predicate IsFree(layout: seq<Widget>, r: Rect, except: Option<string>) {
    forall i :: 0 <= i < |layout| && Some(layout[i].id) != except ==> !RectsOverlap(r, layout[i].rect)
  }

  method HasOverlap(layout: seq<Widget>, r: Rect, except: Option<string>) returns (found: bool)
    ensures found <==> !IsFree(layout, r, except)
  {
    for i := 0 to |layout|
      invariant forall j :: 0 <= j < i && Some(layout[j].id) != except ==> !RectsOverlap(r, layout[j].rect)
    {
      if except == Some(layout[i].id) { continue; }
      if RectsOverlap(r, layout[i].rect) { return true; }
    }
    return false;
  }

  method HasInternalOverlap(layout: seq<Widget>) returns (found: bool)
    ensures found <==> !Apart(layout)
  {
    for i := 0 to |layout|
      invariant forall k, j :: 0 <= k < i && k < j < |layout| ==> !RectsOverlap(layout[k].rect, layout[j].rect)
    {
      for j := i + 1 to |layout|
        invariant forall k :: i < k < j ==> !RectsOverlap(layout[i].rect, layout[k].rect)
      {
        if RectsOverlap(layout[i].rect, layout[j].rect) { return true; }
      }
    }
    return false;
  }

  /** Into the range: a number below it becomes its lower bound, one above it its upper bound. */
  function Clamp(n: int, min: int, max: int): (r: int)
    ensures min <= max ==> min <= r <= max && (min <= n <= max ==> r == n)
    ensures min <= max ==> (n <= min ==> r == min) && (max <= n ==> r == max)
  {
    if n < min then min else if n > max then max else n
  }

  /** A block of the given size at the spot lies in the grid and overlaps nothing. */
  ghost predicate Fits(layout: seq<Widget>, s: Spot, size: Size) {
    && 0 <= s.x <= GRID_COLS - size.w && 0 <= s.y <= GRID_MAX_ROWS - size.h
    && IsFree(layout, Rect(s.x, s.y, size.w, size.h), None)
  }

  predicate Before(s: Spot, t: Spot) { s.y < t.y || (s.y == t.y && s.x < t.x) }

  /** The first fitting spot row by row from the left; none only when the size fits nowhere. */
  method FindFreeSpot(layout: seq<Widget>, w: int, h: int) returns (spot: Option<Spot>)
    ensures
      var size := Size(Clamp(w, GRID_MIN_W, GRID_COLS), Clamp(h, GRID_MIN_H, GRID_MAX_ROWS));
      match spot
      case Some(s) => Fits(layout, s, size) && forall t :: Before(t, s) ==> !Fits(layout, t, size)
      case None => forall t :: !Fits(layout, t, size)
  {
    var cw, ch := Clamp(w, GRID_MIN_W, GRID_COLS), Clamp(h, GRID_MIN_H, GRID_MAX_ROWS);
    ghost var size := Size(cw, ch);
    hide IsFree;
    for y := 0 to GRID_MAX_ROWS - ch + 1
      invariant forall t: Spot :: t.y < y ==> !Fits(layout, t, size)
    {
      for x := 0 to GRID_COLS - cw + 1
        invariant forall t: Spot :: t.y < y || (t.y == y && t.x < x) ==> !Fits(layout, t, size)
      {
        var blocked := HasOverlap(layout, Rect(x, y, cw, ch), None);
        if !blocked {
          return Some(Spot(x, y));
        }
      }
    }
    return None;
  }

  // ---------------------------------------------------------------- edits

  lemma DefaultSizesFit(c: Component)
    ensures GRID_MIN_W <= DefaultSize(c).w <= GRID_COLS && GRID_MIN_H <= DefaultSize(c).h <= GRID_MAX_ROWS
  {}

  lemma AppendValid(layout: seq<Widget>, w: Widget)
    requires IsValid(layout) && InGrid(w.rect) && w.id != "" && IsFree(layout, w.rect, None)
    requires forall i :: 0 <= i < |layout| ==> layout[i].id != w.id
    ensures IsValid(layout + [w])
  {}

  predicate FreshId(layout: seq<Widget>, id: string) {
    id != "" && forall i :: 0 <= i < |layout| ==> layout[i].id != id
  }

  /**
   * Add a widget of the default size: at the wanted spot, moved into the grid, if it is free there, otherwise at the
   * first free spot. It fails exactly when the size fits nowhere, whatever spot was wanted.
   */
  method AddWidget(layout: seq<Widget>, c: Component, wanted: Option<Spot>, id: string)
    returns (result: Option<seq<Widget>>)
    ensures result.None? <==> forall t :: !Fits(layout, t, DefaultSize(c))
    ensures result.Some? ==>
      var size := DefaultSize(c);
      && |result.value| == |layout| + 1 && result.value[..|layout|] == layout
      && result.value[|layout|].id == id && result.value[|layout|].component == c
      && var r := result.value[|layout|].rect;
         && r.w == size.w && r.h == size.h && Fits(layout, Spot(r.x, r.y), size)
         && (if wanted.Some? && Fits(layout, Wanted(wanted.value, size), size)
             then Spot(r.x, r.y) == Wanted(wanted.value, size)
             else forall t :: Before(t, Spot(r.x, r.y)) ==> !Fits(layout, t, size))
    ensures result.Some? && IsValid(layout) && FreshId(layout, id) ==> IsValid(result.value)
  {
    var size := DefaultSize(c);
    DefaultSizesFit(c);
    var spot: Option<Spot> := None;
    if wanted.Some? {
      var s := Wanted(wanted.value, size);
      var blocked := HasOverlap(layout, Rect(s.x, s.y, size.w, size.h), None);
      if !blocked {
        spot := Some(s);
        assert Fits(layout, s, size);
      }
    }
    hide IsFree, IsValid;
    if spot.None? {
      spot := FindFreeSpot(layout, size.w, size.h);
      assert Size(Clamp(size.w, GRID_MIN_W, GRID_COLS), Clamp(size.h, GRID_MIN_H, GRID_MAX_ROWS)) == size;
      if spot.None? {
        return None;
      }
    }
    assert Fits(layout, spot.value, size);
    var w := Widget(id, c, Rect(spot.value.x, spot.value.y, size.w, size.h));
    if IsValid(layout) && FreshId(layout, id) {
      AppendValid(layout, w);
    }
    result := Some(layout + [w]);
  }

  /** The wanted spot is kept in the grid, as near as the size allows. */
  lemma WantedIsNearest(s: Spot, size: Size)
    requires 1 <= size.w <= 12 && 1 <= size.h <= 20
    ensures var t := Wanted(s, size); IsNearest(s.x, 0, 12 - size.w, t.x) && IsNearest(s.y, 0, 20 - size.h, t.y)
  {}

  /** The wanted spot, moved into the grid. */
  function Wanted(s: Spot, size: Size): Spot {
    Spot(Clamp(s.x, 0, GRID_COLS - size.w), Clamp(s.y, 0, GRID_MAX_ROWS - size.h))
  }

  function IndexOf(layout: seq<Widget>, id: string): (r: Option<nat>)
    ensures r.Some? ==> r.value < |layout| && layout[r.value].id == id
    ensures r.Some? ==> forall i :: 0 <= i < r.value ==> layout[i].id != id
    ensures r.None? ==> forall i :: 0 <= i < |layout| ==> layout[i].id != id
    decreases |layout|
  {
    if layout == [] then None else
      var before := IndexOf(layout[..|layout| - 1], id);
      if before.Some? then before else if layout[|layout| - 1].id == id then Some(|layout| - 1) else None
  }

  /** The layout with widget `k` in another rectangle. */
  function Place(layout: seq<Widget>, k: nat, r: Rect): seq<Widget>
    requires k < |layout|
  {
    layout[k := layout[k].(rect := r)]
  }

  /** One widget has another rectangle, and nothing else changes. */
  lemma PlaceChangesOne(layout: seq<Widget>, k: nat, r: Rect, i: nat)
    requires k < |layout| && i < |layout|
    ensures |Place(layout, k, r)| == |layout|
    ensures Place(layout, k, r)[i] ==
      Widget(layout[i].id, layout[i].component, if i == k then r else layout[i].rect)
  {}

  lemma PlaceValid(layout: seq<Widget>, k: nat, r: Rect)
    requires IsValid(layout) && k < |layout| && InGrid(r) && IsFree(layout, r, Some(layout[k].id))
    ensures IsValid(Place(layout, k, r))
  {}

  /** Where a move wants the widget: the same size, moved into the grid. */
  function MoveTarget(r: Rect, x: int, y: int): Rect {
    Rect(Clamp(x, 0, GRID_COLS - r.w), Clamp(y, 0, GRID_MAX_ROWS - r.h), r.w, r.h)
  }

  /** `r` is the nearest to `n` of the numbers from `min` to `max`. */
  ghost predicate IsNearest(n: int, min: int, max: int, r: int) {
    min <= r <= max && if n < min then r == min else if max < n then r == max else r == n
  }

  /** A move keeps the size and goes as near to the wanted column and row as the grid allows; a resize the same. */
  lemma TargetsAreNearest(r: Rect, a: int, b: int)
    requires InGrid(r)
    ensures var t := MoveTarget(r, a, b);
      t.w == r.w && t.h == r.h && IsNearest(a, 0, 12 - r.w, t.x) && IsNearest(b, 0, 20 - r.h, t.y)
    ensures var t := ResizeTarget(r, a, b);
      t.x == r.x && t.y == r.y && IsNearest(a, 1, 12 - r.x, t.w) && IsNearest(b, 1, 20 - r.y, t.h)
  {}

  /** What a resize wants: the same corner, the size cut to the grid. */
  function ResizeTarget(r: Rect, w: int, h: int): Rect {
    Rect(r.x, r.y, Clamp(w, GRID_MIN_W, GRID_COLS - r.x), Clamp(h, GRID_MIN_H, GRID_MAX_ROWS - r.y))
  }

  lemma TargetsInGrid(r: Rect, a: int, b: int)
    requires InGrid(r)
    ensures InGrid(MoveTarget(r, a, b)) && InGrid(ResizeTarget(r, a, b))
  {}

  /** The widget goes to the target if that is free of the others; otherwise nothing changes. */
  ghost function Replaced(layout: seq<Widget>, k: nat, target: Rect): seq<Widget>
    requires k < |layout|
  {
    if IsFree(layout, target, Some(layout[k].id)) then Place(layout, k, target) else layout
  }

  lemma ReplacedValid(layout: seq<Widget>, k: nat, target: Rect)
    requires IsValid(layout) && k < |layout| && InGrid(target)
    ensures IsValid(Replaced(layout, k, target))
  {
    if IsFree(layout, target, Some(layout[k].id)) {
      PlaceValid(layout, k, target);
    }
  }

  method MoveWidget(layout: seq<Widget>, id: string, x: int, y: int) returns (result: seq<Widget>)
    ensures
      match IndexOf(layout, id)
      case None => result == layout
      case Some(k) => result == Replaced(layout, k, MoveTarget(layout[k].rect, x, y))
    ensures IsValid(layout) ==> IsValid(result)
  {
    var k := IndexOf(layout, id);
    if k.None? { return layout; }
    var target := MoveTarget(layout[k.value].rect, x, y);
    if IsValid(layout) {
      TargetsInGrid(layout[k.value].rect, x, y);
      ReplacedValid(layout, k.value, target);
    }
    if target == layout[k.value].rect {
      assert Place(layout, k.value, target) == layout;
      return layout;
    }
    var blocked := HasOverlap(layout, target, Some(id));
    if blocked { return layout; }
    result := Place(layout, k.value, target);
  }

  method ResizeWidget(layout: seq<Widget>, id: string, w: int, h: int) returns (result: seq<Widget>)
    ensures
      match IndexOf(layout, id)
      case None => result == layout
      case Some(k) => result == Replaced(layout, k, ResizeTarget(layout[k].rect, w, h))
    ensures IsValid(layout) ==> IsValid(result)
  {
    var k := IndexOf(layout, id);
    if k.None? { return layout; }
    var target := ResizeTarget(layout[k.value].rect, w, h);
    if IsValid(layout) {
      TargetsInGrid(layout[k.value].rect, w, h);
      ReplacedValid(layout, k.value, target);
    }
    if target == layout[k.value].rect {
      assert Place(layout, k.value, target) == layout;
      return layout;
    }
    var blocked := HasOverlap(layout, target, Some(id));
    if blocked { return layout; }
    result := Place(layout, k.value, target);
  }

  function NotWidget(id: string): Widget -> bool { (w: Widget) => w.id != id }

  function RemoveWidget(layout: seq<Widget>, id: string): seq<Widget> { Filter(NotWidget(id), layout) }

  lemma WithoutValid(layout: seq<Widget>, k: nat)
    requires IsValid(layout) && k < |layout|
    ensures IsValid(Without(layout, k))
  {}

  lemma RemovesOne(layout: seq<Widget>, id: string)
    requires forall i, j :: 0 <= i < j < |layout| ==> layout[i].id != layout[j].id
    ensures RemoveWidget(layout, id) ==
      match IndexOf(layout, id)
      case None => layout
      case Some(k) => Without(layout, k)
  {
    hide Filter;
    match IndexOf(layout, id) {
      case None => FilterAll(NotWidget(id), layout);
      case Some(k) =>
        var head, tail := layout[..k], layout[k + 1..];
        assert layout == head + ([layout[k]] + tail);
        assert forall w :: w in head || w in tail ==> w.id != id;
        FilterMiddle(NotWidget(id), head, layout[k], tail);
    }
  }

  /** Removing by id takes out that one widget, or nothing, and keeps the layout valid. */
  lemma RemoveKeepsValid(layout: seq<Widget>, id: string)
    requires IsValid(layout)
    ensures IsValid(RemoveWidget(layout, id))
    ensures RemoveWidget(layout, id) ==
      match IndexOf(layout, id)
      case None => layout
      case Some(k) => Without(layout, k)
  {
    RemovesOne(layout, id);
    if IndexOf(layout, id).Some? {
      WithoutValid(layout, IndexOf(layout, id).value);
    }
  }

  // ---------------------------------------------------------------- validation of stored layouts

  /** What a stored layout may turn out to be. A field that is not of its kind is absent. */
  datatype RawItem =
    | NotAnObject
    | RawWidget(id: Option<string>, component: Option<Component>, x: Option<int>, y: Option<int>, w: Option<int>,
        h: Option<int>)
  datatype Raw = NotAList | RawList(items: seq<RawItem>)

  datatype Fault = NoObject | BadId | RepeatedId | BadComponent | BadX | BadY | BadW | BadH | TooWide | TooHigh
  datatype LayoutProblem = NoList | At(index: nat, fault: Fault) | Overlapping

  predicate Outside(n: Option<int>, min: int, max: int) { n.None? || n.value < min || n.value > max }

  ghost predicate ItemFault(item: RawItem, repeated: bool, f: Fault) {
    if item.NotAnObject? then f == NoObject else
      match f
      case NoObject => false
      case BadId => item.id.None? || item.id.value == ""
      case RepeatedId => item.id.Some? && item.id.value != "" && repeated
      case BadComponent => item.component.None?
      case BadX => Outside(item.x, 0, GRID_COLS - 1)
      case BadY => Outside(item.y, 0, GRID_MAX_ROWS - 1)
      case BadW => Outside(item.w, GRID_MIN_W, GRID_COLS)
      case BadH => Outside(item.h, GRID_MIN_H, GRID_MAX_ROWS)
      case TooWide => item.x.Some? && item.w.Some? && item.x.value + item.w.value > GRID_COLS
      case TooHigh => item.y.Some? && item.h.Some? && item.y.value + item.h.value > GRID_MAX_ROWS
  }

  ghost predicate IdBefore(items: seq<RawItem>, i: nat)
    requires i < |items|
  {
    items[i].RawWidget? && exists j :: 0 <= j < i && items[j].RawWidget? && items[j].id == items[i].id
  }

  ghost predicate FaultAt(items: seq<RawItem>, n: nat, p: LayoutProblem) {
    p.At? && p.index < n && p.index < |items| && ItemFault(items[p.index], IdBefore(items, p.index), p.fault)
  }

  /** Every item is a well-formed widget, none with an id used before. */
  ghost predicate Faultless(items: seq<RawItem>) {
    forall p :: !FaultAt(items, |items|, p)
  }

  predicate Readable(items: seq<RawItem>) {
    forall i :: 0 <= i < |items| ==>
      items[i].RawWidget? && items[i].id.Some? && items[i].component.Some? && items[i].x.Some? && items[i].y.Some?
      && items[i].w.Some? && items[i].h.Some?
  }

  function ReadItem(item: RawItem): Widget
    requires Readable([item])
  {
    assert [item][0] == item;
    Widget(item.id.value, item.component.value, Rect(item.x.value, item.y.value, item.w.value, item.h.value))
  }

  function Read(items: seq<RawItem>): (r: seq<Widget>)
    requires Readable(items)
    ensures |r| == |items| && forall i :: 0 <= i < |items| ==> r[i] == ReadItem(items[i])
  {
    seq(|items|, i requires 0 <= i < |items| => ReadItem(items[i]))
  }

  lemma FaultlessItem(items: seq<RawItem>, i: nat)
    requires Faultless(items) && i < |items|
    ensures var item := items[i];
      && item.RawWidget? && item.id.Some? && item.id.value != "" && !IdBefore(items, i) && item.component.Some?
      && item.x.Some? && item.y.Some? && item.w.Some? && item.h.Some?
      && InGrid(Rect(item.x.value, item.y.value, item.w.value, item.h.value))
  {
    forall f ensures !ItemFault(items[i], IdBefore(items, i), f) {
      assert !FaultAt(items, |items|, At(i, f));
    }
    hide IdBefore;
    assert !ItemFault(items[i], IdBefore(items, i), NoObject) && !ItemFault(items[i], IdBefore(items, i), BadId);
    assert !ItemFault(items[i], IdBefore(items, i), RepeatedId);
    assert !ItemFault(items[i], IdBefore(items, i), BadComponent);
    assert !ItemFault(items[i], IdBefore(items, i), BadX) && !ItemFault(items[i], IdBefore(items, i), BadY);
    assert !ItemFault(items[i], IdBefore(items, i), BadW) && !ItemFault(items[i], IdBefore(items, i), BadH);
    assert !ItemFault(items[i], IdBefore(items, i), TooWide) && !ItemFault(items[i], IdBefore(items, i), TooHigh);
  }

  lemma NoRepeat(items: seq<RawItem>, i: nat)
    requires Readable(items) && IdsOk(Read(items)) && i < |items|
    ensures !IdBefore(items, i)
  {
    var ws := Read(items);
    forall j | 0 <= j < i ensures items[j].id != items[i].id {
      assert ws[j].id != ws[i].id;
    }
  }

  /** No item is at fault exactly when the items read as widgets in the grid with distinct, non-empty ids. */
  lemma FaultlessIsReadable(items: seq<RawItem>)
    ensures Faultless(items) <==>
      Readable(items) && IdsOk(Read(items)) && forall i :: 0 <= i < |items| ==> InGrid(Read(items)[i].rect)
  {
    if Faultless(items) {
      forall i: nat | i < |items| {
        FaultlessItem(items, i);
      }
      var ws := Read(items);
      forall i, j | 0 <= i < j < |ws| ensures ws[i].id != ws[j].id {
        assert !IdBefore(items, j);
      }
    }
    if Readable(items) && IdsOk(Read(items)) && forall i :: 0 <= i < |items| ==> InGrid(Read(items)[i].rect) {
      var ws := Read(items);
      forall p ensures !FaultAt(items, |items|, p) {
        if p.At? && p.index < |items| {
          assert InGrid(ws[p.index].rect) && ws[p.index].id != "";
          NoRepeat(items, p.index);
        }
      }
    }
  }

  function AddIf(faults: seq<Fault>, found: bool, f: Fault): (r: seq<Fault>)
    ensures forall g :: g in r <==> g in faults || (found && g == f)
  {
    if found then faults + [f] else faults
  }

  predicate IsGeometry(f: Fault) { f in {BadX, BadY, BadW, BadH, TooWide, TooHigh} }

  method CheckGeometry(item: RawItem) returns (faults: seq<Fault>)
    requires item.RawWidget?
    ensures forall f :: f in faults <==> IsGeometry(f) && ItemFault(item, false, f)
  {
    hide AddIf;
    faults := AddIf([], Outside(item.x, 0, GRID_COLS - 1), BadX);
    faults := AddIf(faults, Outside(item.y, 0, GRID_MAX_ROWS - 1), BadY);
    faults := AddIf(faults, Outside(item.w, GRID_MIN_W, GRID_COLS), BadW);
    faults := AddIf(faults, Outside(item.h, GRID_MIN_H, GRID_MAX_ROWS), BadH);
    faults := AddIf(faults, item.x.Some? && item.w.Some? && item.x.value + item.w.value > GRID_COLS, TooWide);
    faults := AddIf(faults, item.y.Some? && item.h.Some? && item.y.value + item.h.value > GRID_MAX_ROWS, TooHigh);
  }

  method CheckItem(item: RawItem, repeated: bool) returns (faults: seq<Fault>)
    ensures forall f :: f in faults <==> ItemFault(item, repeated, f)
  {
    if item.NotAnObject? { return [NoObject]; }
    var badId := item.id.None? || item.id.value == "";
    faults := AddIf([], badId, BadId);
    faults := AddIf(faults, !badId && repeated, RepeatedId);
    faults := AddIf(faults, item.component.None?, BadComponent);
    var rest := CheckGeometry(item);
    faults := faults + rest;
  }

  function Located(i: nat, faults: seq<Fault>): (r: seq<LayoutProblem>)
    ensures forall p :: p in r <==> p.At? && p.index == i && p.fault in faults
  {
    if faults == [] then [] else Located(i, faults[..|faults| - 1]) + [At(i, faults[|faults| - 1])]
  }

  ghost predicate Sound(raw: Raw) {
    raw.RawList? && Readable(raw.items) && IsValid(Read(raw.items))
  }

  /** What is reported: each fault of each item, or the overlap when no item is at fault. */
  ghost predicate Reported(raw: Raw, p: LayoutProblem) {
    match raw
    case NotAList => p == NoList
    case RawList(items) =>
      FaultAt(items, |items|, p) || (p == Overlapping && Faultless(items) && Readable(items) && !Apart(Read(items)))
  }

  ghost predicate Seen(items: seq<RawItem>, i: nat, ids: set<string>)
    requires i <= |items|
  {
    forall s :: s in ids <==> s != "" && exists j :: 0 <= j < i && items[j].RawWidget? && items[j].id == Some(s)
  }

  method CheckItems(items: seq<RawItem>) returns (errors: seq<LayoutProblem>)
    ensures forall p :: p in errors <==> FaultAt(items, |items|, p)
  {
    errors := [];
    var seenIds: set<string> := {};
    hide ItemFault;
    for i := 0 to |items|
      invariant Seen(items, i, seenIds)
      invariant forall p :: p in errors <==> FaultAt(items, i, p)
    {
      var item := items[i];
      var repeated := item.RawWidget? && item.id.Some? && item.id.value in seenIds;
      RepeatIrrelevant(items, i, seenIds);
      var found := CheckItem(item, repeated);
      errors := errors + Located(i, found);
      if item.RawWidget? && item.id.Some? && item.id.value != "" {
        seenIds := seenIds + {item.id.value};
      }
    }
  }

  lemma RepeatIrrelevant(items: seq<RawItem>, i: nat, ids: set<string>)
    requires i < |items| && Seen(items, i, ids)
    ensures
      var repeated := items[i].RawWidget? && items[i].id.Some? && items[i].id.value in ids;
      forall f :: ItemFault(items[i], repeated, f) <==> ItemFault(items[i], IdBefore(items, i), f)
  {}

  /** Reports exactly the faults; nothing is reported exactly for a sound layout. */
  method ValidateTvGridLayout(raw: Raw) returns (errors: seq<LayoutProblem>)
    ensures forall p :: p in errors <==> Reported(raw, p)
    ensures errors == [] <==> Sound(raw)
  {
    if raw.NotAList? {
      assert Reported(raw, NoList);
      return [NoList];
    }
    errors := CheckItems(raw.items);
    FaultlessIsReadable(raw.items);
    NothingFound(raw.items, errors);
    hide FaultAt, IdsOk, Apart;
    if |errors| == 0 {
      var overlap := HasInternalOverlap(Read(raw.items));
      if overlap {
        errors := [Overlapping];
      }
    }
  }

  lemma NothingFound(items: seq<RawItem>, errors: seq<LayoutProblem>)
    requires forall p :: p in errors <==> FaultAt(items, |items|, p)
    ensures errors == [] <==> Faultless(items)
  {
    if errors != [] {
      assert FaultAt(items, |items|, errors[0]);
    }
  }

  /** The default layout shows every component in its default size. */
  lemma DefaultSizesShown(i: nat)
    requires i < 5
    ensures var w := DEFAULT_TV_GRID_LAYOUT[i]; DefaultSize(w.component) == Size(w.rect.w, w.rect.h)
  {}

  lemma DefaultLayoutValid()
    ensures IsValid(DEFAULT_TV_GRID_LAYOUT)
  {
    var d := DEFAULT_TV_GRID_LAYOUT;
    assert d[0].id[0] == 'n' && d[1].id[0] == 'w' && d[2].id[1] == 'a' && d[3].id[1] == 'o' && d[4].id[0] == 'r';
  }

  /** A stored layout is taken as it is when sound, and replaced by the default otherwise. */
  method CoerceTvGridLayout(raw: Raw) returns (layout: seq<Widget>)
    ensures IsValid(layout)
    ensures if Sound(raw) then layout == Read(raw.items) else layout == DEFAULT_TV_GRID_LAYOUT
  {
    DefaultLayoutValid();
    var errors := ValidateTvGridLayout(raw);
    layout := if |errors| == 0 then Read(raw.items) else DEFAULT_TV_GRID_LAYOUT;
  }
}
