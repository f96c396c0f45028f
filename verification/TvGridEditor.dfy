/** The grid editor: steppers, palette and pointer drags over one layout. */
module TvGridEditor {
  import opened Sequences
  import opened TvGrid

  datatype DragMode = Moving | Resizing
  datatype Active = Active(mode: DragMode, id: string, startX: real, startY: real)
  datatype Preview = Preview(id: string, rect: Rect, valid: bool)

  function OwnPreview(w: Widget): Preview { Preview(w.id, w.rect, true) }

  /** Where the canvas is on the screen when the pointer moves. */
  datatype CanvasBox = CanvasBox(left: real, top: real, width: real)

  /** The nearest integer, halves upward. */
  function Round(v: real): int { (v + 0.5).Floor }

  datatype Event =
    | Add(component: Component, wanted: Option<Spot>, id: string)
    | Move(id: string, x: int, y: int)
    | Resize(id: string, w: int, h: int)
    | Remove(id: string)
    | PointerDown(id: string, mode: DragMode, clientX: real, clientY: real, primary: bool)
    | PointerMove(clientX: real, clientY: real, box: Option<CanvasBox>)
    | PointerUp
    | Reload(raw: Raw)

  class GridEditor {
    var layout: seq<Widget>
    var active: Option<Active>
    var preview: Option<Preview>
    const rowHeight: real

    ghost predicate Valid()
      reads this
    {
      && IsValid(layout) && rowHeight > 0.0
      && (active.Some? <==> preview.Some?)
      && (active.Some? ==> active.value.id == preview.value.id && InGrid(preview.value.rect))
    }

    /** What a drop of the preview would do to the layout. */
    ghost function Dropped(): seq<Widget>
      reads this
    {
      if active.None? || preview.None? || !preview.value.valid then layout else
        match IndexOf(layout, active.value.id)
        case None => layout
        case Some(k) =>
          var r := preview.value.rect;
          Replaced(layout, k, if active.value.mode == Moving then MoveTarget(layout[k].rect, r.x, r.y)
                              else ResizeTarget(layout[k].rect, r.w, r.h))
    }

    /** The preview tells the truth: a drop puts the widget where it is shown, or does nothing when shown invalid. */
    ghost predicate Honest()
      reads this
    {
      active.Some? && preview.Some? ==>
        match IndexOf(layout, active.value.id)
        case None => Dropped() == layout
        case Some(k) => Dropped() == if preview.value.valid then Place(layout, k, preview.value.rect) else layout
    }

    constructor (raw: Raw, height: real)
      requires height > 0.0
      ensures Valid() && active == None && Honest()
      ensures if Sound(raw) then layout == Read(raw.items) else layout == DEFAULT_TV_GRID_LAYOUT
    {
      var start := CoerceTvGridLayout(raw);
      layout := start;
      active := None;
      preview := None;
      rowHeight := height;
    }

    /** Only one drag at a time, and only with the primary button. */
    method BeginDrag(k: nat, mode: DragMode, x: real, y: real, primary: bool)
      requires Valid() && k < |layout|
      modifies this`active, this`preview
      ensures Valid()
      ensures old(active).Some? || !primary ==> active == old(active) && preview == old(preview)
      ensures old(active).None? && primary ==>
        && Honest() && active == Some(Active(mode, layout[k].id, x, y))
        && preview == Some(Preview(layout[k].id, layout[k].rect, true))
    {
      if active.Some? { return; }
      if !primary { return; }
      active := Some(Active(mode, layout[k].id, x, y));
      preview := Some(OwnPreview(layout[k]));
      OwnPlace(layout, k);
    }

    /** The preview follows the pointer, kept in the grid, and is valid exactly when it overlaps no other widget. */
    method OnPointerMove(x: real, y: real, box: Option<CanvasBox>)
      requires Valid() && (box.Some? ==> box.value.width > 0.0)
      modifies this`preview
      ensures Valid()
      ensures if active.None? || box.None? || IndexOf(layout, active.value.id).None? then preview == old(preview)
              else
                var r := layout[IndexOf(layout, active.value.id).value].rect;
                var shown := ShownRect(active.value, r, x, y, box.value, rowHeight);
                && preview == Some(Preview(active.value.id, shown, IsFree(layout, shown, Some(active.value.id))))
                && Honest()
    {
      if active.None? { return; }
      if box.None? { return; }
      var k := IndexOf(layout, active.value.id);
      if k.None? { return; }
      var r := layout[k.value].rect;
      assert InGrid(r);
      var shown := ShownRect(active.value, r, x, y, box.value, rowHeight);
      ShownStays(active.value, r, x, y, box.value, rowHeight);
      hide IsValid, IsFree, InGrid, MoveTarget, ResizeTarget, ShownRect;
      var blocked := HasOverlap(layout, shown, Some(active.value.id));
      preview := Some(Preview(active.value.id, shown, !blocked));
    }

    /** A drop commits a valid preview through the checked move or resize, and ends the drag. */
    method OnPointerUp()
      requires Valid()
      modifies this
      ensures Valid() && active == None && preview == None && layout == old(Dropped())
    {
      if active.Some? && preview.Some? && preview.value.valid {
        var id, r := active.value.id, preview.value.rect;
        var k := IndexOf(layout, id);
        if k.Some? {
          var source := layout[k.value].rect;
          if active.value.mode == Moving {
            if r.x != source.x || r.y != source.y {
              layout := MoveWidget(layout, id, r.x, r.y);
            } else {
              StaysInPlace(layout, k.value);
            }
          } else {
            if r.w != source.w || r.h != source.h {
              layout := ResizeWidget(layout, id, r.w, r.h);
            } else {
              StaysInPlace(layout, k.value);
            }
          }
        }
      }
      active, preview := None, None;
    }

    method Apply(e: Event)
      requires Valid() && Enabled(e)
      modifies this
      ensures Valid()
    {
      match e {
        case Add(c, wanted, id) =>
          var added := AddWidget(layout, c, wanted, id);
          layout := added.Or(layout);
        case Move(id, x, y) => layout := MoveWidget(layout, id, x, y);
        case Resize(id, w, h) => layout := ResizeWidget(layout, id, w, h);
        case Remove(id) =>
          RemoveKeepsValid(layout, id);
          layout := RemoveWidget(layout, id);
        case PointerDown(id, mode, x, y, primary) => BeginDrag(IndexOf(layout, id).value, mode, x, y, primary);
        case PointerMove(x, y, box) => OnPointerMove(x, y, box);
        case PointerUp => OnPointerUp();
        case Reload(raw) => layout := CoerceTvGridLayout(raw);
      }
    }

    /** A new id is fresh, a drag starts on a widget that is there, and a canvas has a width. */
    predicate Enabled(e: Event)
      reads this
    {
      match e
      case Add(_, _, id) => FreshId(layout, id)
      case PointerDown(id, _, _, _, _) => IndexOf(layout, id).Some?
      case PointerMove(_, _, box) => box.Some? ==> box.value.width > 0.0
      case _ => true
    }

    /** After every run of edits and drags, interleaved in any way, the layout is valid and fits the grid. */
    method Run(events: seq<Event>)
      requires Valid()
      modifies this
      ensures Valid() && TotalArea(layout) <= 240 && |layout| <= 240
    {
      for i := 0 to |events|
        invariant Valid()
      {
        if Enabled(events[i]) {
          Apply(events[i]);
        }
      }
      LayoutFits(layout);
    }
  }

  /** A widget's own rectangle is free of the others, and moving or resizing it there changes nothing. */
  lemma OwnPlace(layout: seq<Widget>, k: nat)
    requires IsValid(layout) && k < |layout|
    ensures IndexOf(layout, layout[k].id) == Some(k)
    ensures IsFree(layout, layout[k].rect, Some(layout[k].id)) && Place(layout, k, layout[k].rect) == layout
    ensures var r := layout[k].rect; MoveTarget(r, r.x, r.y) == r && ResizeTarget(r, r.w, r.h) == r
  {
    forall i | 0 <= i < |layout| && layout[i].id != layout[k].id
      ensures !RectsOverlap(layout[k].rect, layout[i].rect)
    {
      var a, b := if i < k then i else k, if i < k then k else i;
      assert !RectsOverlap(layout[a].rect, layout[b].rect);
    }
    assert InGrid(layout[k].rect);
  }

  lemma StaysInPlace(layout: seq<Widget>, k: nat)
    requires IsValid(layout) && k < |layout|
    ensures
      var r := layout[k].rect;
      Replaced(layout, k, MoveTarget(r, r.x, r.y)) == layout && Replaced(layout, k, ResizeTarget(r, r.w, r.h)) == layout
  {
    OwnPlace(layout, k);
  }

  /** The cell under the pointer for a move, the size after the dragged distance for a resize, kept in the grid. */
  function ShownRect(a: Active, r: Rect, x: real, y: real, box: CanvasBox, rowHeight: real): Rect
    requires box.width > 0.0 && rowHeight > 0.0
  {
    var cell := box.width / 12.0;
    if a.mode == Moving then MoveTarget(r, ((x - box.left) / cell).Floor, ((y - box.top) / rowHeight).Floor)
    else ResizeTarget(r, r.w + Round((x - a.startX) / cell), r.h + Round((y - a.startY) / rowHeight))
  }

  lemma QuotientBounds(d: real, unit: real, k: real, l: real)
    requires unit > 0.0 && k * unit <= d < l * unit
    ensures k <= d / unit < l
  {
    var q := d / unit;
    assert q * unit == d;
    if q < k {
      Below(q, k, unit);
    }
    if q >= l {
      NotAbove(l, q, unit);
    }
  }

  lemma Below(a: real, b: real, unit: real)
    requires a < b && unit > 0.0
    ensures a * unit < b * unit
  {}

  lemma NotAbove(a: real, b: real, unit: real)
    requires a <= b && unit > 0.0
    ensures a * unit <= b * unit
  {}

  /** A drag shows the widget as near as it fits to the cell under the pointer: the column by x, the row by y. */
  lemma ShownUnderPointer(a: Active, r: Rect, x: real, y: real, box: CanvasBox, rowHeight: real, col: int, row: int)
    requires box.width > 0.0 && rowHeight > 0.0 && InGrid(r) && a.mode == Moving
    requires (col as real) * (box.width / 12.0) <= x - box.left < (col as real + 1.0) * (box.width / 12.0)
    requires (row as real) * rowHeight <= y - box.top < (row as real + 1.0) * rowHeight
    ensures var t := ShownRect(a, r, x, y, box, rowHeight);
      t.w == r.w && t.h == r.h && IsNearest(col, 0, 12 - r.w, t.x) && IsNearest(row, 0, 20 - r.h, t.y)
  {
    QuotientBounds(x - box.left, box.width / 12.0, col as real, col as real + 1.0);
    QuotientBounds(y - box.top, rowHeight, row as real, row as real + 1.0);
    TargetsAreNearest(r, col, row);
    hide MoveTarget, InGrid, IsNearest;
  }

  /** A resize changes the size by the dragged distance, to the nearest whole cell and halves upward. */
  lemma ResizedByDistance(a: Active, r: Rect, x: real, y: real, box: CanvasBox, rowHeight: real, dw: int, dh: int)
    requires box.width > 0.0 && rowHeight > 0.0 && InGrid(r) && a.mode == Resizing
    requires
      (dw as real - 0.5) * (box.width / 12.0) <= x - a.startX < (dw as real + 0.5) * (box.width / 12.0)
    requires (dh as real - 0.5) * rowHeight <= y - a.startY < (dh as real + 0.5) * rowHeight
    ensures var t := ShownRect(a, r, x, y, box, rowHeight);
      && t.x == r.x && t.y == r.y
      && IsNearest(r.w + dw, 1, 12 - r.x, t.w) && IsNearest(r.h + dh, 1, 20 - r.y, t.h)
  {
    QuotientBounds(x - a.startX, box.width / 12.0, dw as real - 0.5, dw as real + 0.5);
    QuotientBounds(y - a.startY, rowHeight, dh as real - 0.5, dh as real + 0.5);
    TargetsAreNearest(r, r.w + dw, r.h + dh);
    hide ResizeTarget, InGrid, IsNearest;
  }

  /** What is shown lies in the grid, and dropping there leaves it there. */
  lemma ShownStays(a: Active, r: Rect, x: real, y: real, box: CanvasBox, rowHeight: real)
    requires box.width > 0.0 && rowHeight > 0.0 && InGrid(r)
    ensures
      var shown := ShownRect(a, r, x, y, box, rowHeight);
      && InGrid(shown)
      && shown == if a.mode == Moving then MoveTarget(r, shown.x, shown.y) else ResizeTarget(r, shown.w, shown.h)
  {
    var cell := box.width / 12.0;
    var col, row := ((x - box.left) / cell).Floor, ((y - box.top) / rowHeight).Floor;
    var w, h := r.w + Round((x - a.startX) / cell), r.h + Round((y - a.startY) / rowHeight);
    TargetsInGrid(r, col, row);
    TargetsInGrid(r, w, h);
    TargetStays(r, col, row);
    TargetStays(r, w, h);
    hide InGrid, MoveTarget, ResizeTarget, Round;
  }

  /** A target in the grid is its own target. */
  lemma TargetStays(r: Rect, a: int, b: int)
    requires InGrid(r)
    ensures var t := MoveTarget(r, a, b); MoveTarget(r, t.x, t.y) == t
    ensures var t := ResizeTarget(r, a, b); ResizeTarget(r, t.w, t.h) == t
  {}
}
