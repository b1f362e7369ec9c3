/**
 * The document view's interaction state and the commands its gestures
 * run when they end (EmojiArt/Views/EmojiArtDocumentView.swift): the
 * selection, the canvas zoom and pan, tap-to-select, pinch, drag and drop.
 * Only the `onEnded` bodies are modelled; the in-flight previews are not.
 */
module DocumentView {
  import opened Wrappers
  import opened Geometry
  import opened EmojiArtModel
  import opened DocumentModel

  /** The font size of the palette's emojis, in screen points. */
  const PaletteEmojiSize: real := 40.0

  /** One item of a drop: a URL, a string, or a kind the view does not handle. */
  datatype SturlData = FromUrl(url: Url) | FromString(glyph: string) | Unsupported

  // ---------------------------------------------------------------------
  // Pure parts of the view.
  // ---------------------------------------------------------------------

  /** The selection after a tap on the emoji with id `id`: only that id's membership flips. */
  function Toggled(selection: set<int>, id: int): (r: set<int>)
    ensures id in r <==> id !in selection
    ensures forall other :: other != id ==> (other in r <==> other in selection)
  {
    if id in selection then selection - {id} else selection + {id}
  }

  /** Two taps on the same emoji restore the selection. */
  lemma ToggledTwice(selection: set<int>, id: int)
    ensures Toggled(Toggled(selection, id), id) == selection
  {
  }

  /**
   * `emojiPosition(at:in:)`: the document position under a screen location.
   * With a positive zoom the panned centre is the origin, x grows to the
   * right and y grows upward.
   */
  function EmojiPosition(location: Point, center: Point, pan: Offset, zoom: real): (r: Position)
    requires zoom != 0.0
    ensures 0.0 < zoom ==> (center.x + pan.width <= location.x ==> 0 <= r.x)
    ensures 0.0 < zoom ==> (location.x <= center.x + pan.width ==> r.x <= 0)
    ensures 0.0 < zoom ==> (location.y <= center.y + pan.height ==> 0 <= r.y)
    ensures 0.0 < zoom ==> (center.y + pan.height <= location.y ==> r.y <= 0)
  {
    Position(Trunc((location.x - center.x - pan.width) / zoom),
             Trunc(-(location.y - center.y - pan.height) / zoom))
  }

  /**
   * Where an emoji at `p` is drawn: `Position.in` places it relative to the
   * centre, the contents are scaled by `zoom` about the centre and then
   * offset by `pan`.
   */
  function ScreenLocation(p: Position, center: Point, pan: Offset, zoom: real): Point {
    Point(center.x + pan.width + zoom * p.x as real, center.y + pan.height - zoom * p.y as real)
  }

  /** Without zoom or pan, an emoji is drawn where `Position.in` puts it. */
  lemma ScreenLocationUnscaled(p: Position, center: Point)
    ensures ScreenLocation(p, center, ZeroOffset, 1.0) == PositionIn(p, center)
  {
  }

  /** `emojiPosition` inverts the drawing: an emoji's drawn location maps back to its position. */
  lemma EmojiPositionInvertsDrawing(p: Position, center: Point, pan: Offset, zoom: real)
    requires 0.0 < zoom
    ensures EmojiPosition(ScreenLocation(p, center, pan, zoom), center, pan, zoom) == p
  {
    var q := ScreenLocation(p, center, pan, zoom);
    assert q.x - center.x - pan.width == zoom * p.x as real;
    assert -(q.y - center.y - pan.height) == zoom * p.y as real;
    assert (zoom * p.x as real) / zoom == p.x as real;
    assert (zoom * p.y as real) / zoom == p.y as real;
    TruncOfInt(p.x);
    TruncOfInt(p.y);
  }

  /**
   * Helper: a non-empty set has a member. It only lets the selection loops
   * below pick `var id :| id in pending`; it says nothing about the model.
   */
  lemma HasMember(s: set<int>)
    requires s != {}
    ensures exists x :: x in s
  {
    if forall x :: x !in s {
      assert false;
    }
  }

  /** The exact document coordinate under a screen coordinate, before truncation. */
  lemma DrawnWithinOneZoomStep(d: real, zoom: real)
    requires 0.0 < zoom
    ensures d - zoom < zoom * Trunc(d / zoom) as real < d + zoom
  {
    var q := d / zoom;
    var n := Trunc(q) as real;
    assert d == zoom * q;
    assert q - 1.0 < n < q + 1.0;
    var below, above := n - q + 1.0, q + 1.0 - n;
    MulPositive(zoom, below);
    MulPositive(zoom, above);
    assert zoom * below == zoom * n - d + zoom;
    assert zoom * above == d + zoom - zoom * n;
    assert d - zoom < zoom * n;
    assert zoom * n < d + zoom;
  }

  /** A dropped emoji is drawn less than one zoom step from where it was dropped. */
  lemma DropLandsUnderPointer(location: Point, center: Point, pan: Offset, zoom: real)
    requires 0.0 < zoom
    ensures var drawn := ScreenLocation(EmojiPosition(location, center, pan, zoom), center, pan, zoom);
      location.x - zoom < drawn.x < location.x + zoom &&
      location.y - zoom < drawn.y < location.y + zoom
  {
    DropLandsUnderPointerX(location, center, pan, zoom);
    DropLandsUnderPointerY(location, center, pan, zoom);
  }

  lemma DropLandsUnderPointerX(location: Point, center: Point, pan: Offset, zoom: real)
    requires 0.0 < zoom
    ensures var drawn := ScreenLocation(EmojiPosition(location, center, pan, zoom), center, pan, zoom);
      location.x - zoom < drawn.x < location.x + zoom
  {
    var dx := location.x - center.x - pan.width;
    DrawnWithinOneZoomStep(dx, zoom);
    var n := Trunc(dx / zoom);
    assert EmojiPosition(location, center, pan, zoom).x == n;
    assert ScreenLocation(EmojiPosition(location, center, pan, zoom), center, pan, zoom).x
        == location.x + (zoom * n as real - dx);
  }

  lemma DropLandsUnderPointerY(location: Point, center: Point, pan: Offset, zoom: real)
    requires 0.0 < zoom
    ensures var drawn := ScreenLocation(EmojiPosition(location, center, pan, zoom), center, pan, zoom);
      location.y - zoom < drawn.y < location.y + zoom
  {
    var dy := -(location.y - center.y - pan.height);
    DrawnWithinOneZoomStep(dy, zoom);
    var n := Trunc(dy / zoom);
    assert EmojiPosition(location, center, pan, zoom).y == n;
    assert ScreenLocation(EmojiPosition(location, center, pan, zoom), center, pan, zoom).y
        == location.y + (dy - zoom * n as real);
  }

  /** A dropped emoji's size, `paletteEmojiSize / zoom` truncated, is drawn at most at the palette's size. */
  lemma DroppedSizeMatchesPalette(zoom: real)
    requires 0.0 < zoom
    ensures 0 <= Trunc(PaletteEmojiSize / zoom)
    ensures PaletteEmojiSize - zoom < zoom * Trunc(PaletteEmojiSize / zoom) as real <= PaletteEmojiSize
    ensures zoom == 1.0 ==> Trunc(PaletteEmojiSize / zoom) == 40
  {
    DrawnWithinOneZoomStep(PaletteEmojiSize, zoom);
    var q := PaletteEmojiSize / zoom;
    assert PaletteEmojiSize == zoom * q;
    assert Trunc(q) as real <= q;
    assert zoom * Trunc(q) as real <= zoom * q;
  }

  /** The index of the first drop item the view recognises, if any. */
  function FirstRecognised(items: seq<SturlData>): (r: Option<nat>)
    ensures r.Some? ==> r.value < |items| && !items[r.value].Unsupported?
    ensures r.Some? ==> forall j :: 0 <= j < r.value ==> items[j].Unsupported?
    ensures r.None? <==> forall j :: 0 <= j < |items| ==> items[j].Unsupported?
  {
    if items == [] then None
    else if !items[0].Unsupported? then Some(0)
    else match FirstRecognised(items[1..])
      case None => None
      case Some(k) => Some(k + 1)
  }

  // ---------------------------------------------------------------------
  // The view's state and its gesture-end commands.
  // ---------------------------------------------------------------------

  class EmojiArtDocumentView {
    const document: EmojiArtDocument
    var zoom: real
    var pan: Offset
    var selectedEmojis: set<int>

    ghost predicate Valid()
      reads this, document.art
    {
      document.Valid() && 0.0 < zoom
    }

    /** Every selected id names an emoji of the document. */
    ghost predicate SelectionResolves()
      reads this, document.art
    {
      selectedEmojis <= Ids(document.art.emojis)
    }

    /** A fresh view: zoom 1, no pan, nothing selected. */
    constructor (document: EmojiArtDocument)
      requires document.Valid()
      ensures Valid() && SelectionResolves() && this.document == document
      ensures zoom == 1.0 && pan == ZeroOffset && selectedEmojis == {}
    {
      this.document := document;
      zoom := 1.0;
      pan := ZeroOffset;
      selectedEmojis := {};
    }

    /** `isSelected(_:)`. */
    predicate IsSelected(id: int)
      reads this
    {
      id in selectedEmojis
    }

    /** `handleTap(on:)`: a tap on an emoji toggles it in the selection. */
    method HandleTap(emoji: Emoji)
      modifies this
      ensures selectedEmojis == Toggled(old(selectedEmojis), emoji.id)
      ensures zoom == old(zoom) && pan == old(pan)
      ensures old(SelectionResolves()) && emoji.id in Ids(document.art.emojis) ==> SelectionResolves()
    {
      if IsSelected(emoji.id) {
        selectedEmojis := selectedEmojis - {emoji.id};
      } else {
        selectedEmojis := selectedEmojis + {emoji.id};
      }
    }

    /** `tapDocumentGesture`: a tap on the canvas clears the selection. */
    method TapDocument()
      modifies this
      ensures selectedEmojis == {} && SelectionResolves()
      ensures zoom == old(zoom) && pan == old(pan)
    {
      selectedEmojis := {};
    }

    /** `emojiZoomGesture`: resize every selected emoji by the pinch scale. */
    method EmojiZoomEnded(scale: real)
      requires Valid()
      modifies document.art
      ensures Valid()
      ensures document.art.emojis == EditedWhere(old(document.art.emojis), selectedEmojis, ResizeBy(scale))
      ensures Ids(document.art.emojis) == Ids(old(document.art.emojis))
      ensures document.art.background == old(document.art.background)
      ensures document.art.uniqueEmojiId == old(document.art.uniqueEmojiId)
    {
      ghost var before := document.art.emojis;
      EditedWhereKeepsIds(before, selectedEmojis, ResizeBy(scale));
      var pending := selectedEmojis;
      while pending != {}
        invariant pending <= selectedEmojis
        invariant Valid()
        invariant document.art.emojis == EditedWhere(before, selectedEmojis - pending, ResizeBy(scale))
        invariant document.art.background == old(document.art.background)
        invariant document.art.uniqueEmojiId == old(document.art.uniqueEmojiId)
        decreases pending
      {
        HasMember(pending);
        var id :| id in pending;
        EditedWhereStep(before, selectedEmojis - pending, id, ResizeBy(scale));
        document.Resize(id, scale);
        assert selectedEmojis - (pending - {id}) == (selectedEmojis - pending) + {id};
        pending := pending - {id};
      }
    }

    /**
     * `zoomGesture` ended: with nothing selected the canvas zoom is
     * multiplied by the scale; otherwise every selected emoji is resized.
     */
    method ZoomEnded(scale: real)
      requires Valid() && 0.0 < scale
      modifies this, document.art
      ensures Valid()
      ensures old(selectedEmojis) == {} ==>
        zoom == old(zoom) * scale && document.art.emojis == old(document.art.emojis)
      ensures old(selectedEmojis) != {} ==>
        zoom == old(zoom) &&
        document.art.emojis == EditedWhere(old(document.art.emojis), selectedEmojis, ResizeBy(scale))
      ensures selectedEmojis == old(selectedEmojis) && pan == old(pan)
      ensures Ids(document.art.emojis) == Ids(old(document.art.emojis))
      ensures document.art.background == old(document.art.background)
      ensures document.art.uniqueEmojiId == old(document.art.uniqueEmojiId)
    {
      if selectedEmojis == {} {
        zoom := zoom * scale;
      } else {
        EmojiZoomEnded(scale);
      }
    }

    /** `panGesture` ended: the canvas pans by the translation only when nothing is selected. */
    method PanEnded(translation: Offset)
      modifies this
      ensures pan == if old(selectedEmojis) == {} then old(pan).Plus(translation) else old(pan)
      ensures selectedEmojis == old(selectedEmojis) && zoom == old(zoom)
    {
      if selectedEmojis == {} {
        pan := pan.Plus(translation);
      }
    }

    /** `emojiPanGesture` ended: every selected emoji moves by the same translation. */
    method EmojiPanEnded(translation: Offset)
      requires Valid()
      modifies document.art
      ensures Valid()
      ensures document.art.emojis == EditedWhere(old(document.art.emojis), selectedEmojis, MoveBy(translation))
      ensures Ids(document.art.emojis) == Ids(old(document.art.emojis))
      ensures document.art.background == old(document.art.background)
      ensures document.art.uniqueEmojiId == old(document.art.uniqueEmojiId)
    {
      ghost var before := document.art.emojis;
      EditedWhereKeepsIds(before, selectedEmojis, MoveBy(translation));
      var pending := selectedEmojis;
      while pending != {}
        invariant pending <= selectedEmojis
        invariant Valid()
        invariant document.art.emojis == EditedWhere(before, selectedEmojis - pending, MoveBy(translation))
        invariant document.art.background == old(document.art.background)
        invariant document.art.uniqueEmojiId == old(document.art.uniqueEmojiId)
        decreases pending
      {
        HasMember(pending);
        var id :| id in pending;
        EditedWhereStep(before, selectedEmojis - pending, id, MoveBy(translation));
        document.Move(id, translation);
        assert selectedEmojis - (pending - {id}) == (selectedEmojis - pending) + {id};
        pending := pending - {id};
      }
    }

    /**
     * `drop(_:at:in:)`: the first item that is a URL or a string decides
     * the drop. A URL becomes the background; a string becomes one new
     * emoji under the drop location, sized to look like the palette's.
     * When no item is recognised nothing changes and the drop fails.
     */
    method Drop(items: seq<SturlData>, location: Point, center: Point) returns (ok: bool)
      requires Valid()
      modifies document.art
      ensures Valid()
      ensures ok <==> FirstRecognised(items).Some?
      ensures !ok ==>
        document.art.emojis == old(document.art.emojis) &&
        document.art.background == old(document.art.background) &&
        document.art.uniqueEmojiId == old(document.art.uniqueEmojiId)
      ensures ok && items[FirstRecognised(items).value].FromUrl? ==>
        document.art.background == Some(items[FirstRecognised(items).value].url) &&
        document.art.emojis == old(document.art.emojis) &&
        document.art.uniqueEmojiId == old(document.art.uniqueEmojiId)
      ensures ok && items[FirstRecognised(items).value].FromString? ==>
        document.art.uniqueEmojiId == old(document.art.uniqueEmojiId) + 1 &&
        document.art.emojis == old(document.art.emojis) +
          [Emoji(document.art.uniqueEmojiId, items[FirstRecognised(items).value].glyph,
                 EmojiPosition(location, center, pan, zoom), Trunc(PaletteEmojiSize / zoom))] &&
        document.art.background == old(document.art.background)
      ensures Ids(old(document.art.emojis)) <= Ids(document.art.emojis)
    {
      var i := 0;
      while i < |items|
        invariant 0 <= i <= |items|
        invariant forall j :: 0 <= j < i ==> items[j].Unsupported?
        invariant document.art.emojis == old(document.art.emojis)
        invariant document.art.background == old(document.art.background)
        invariant document.art.uniqueEmojiId == old(document.art.uniqueEmojiId)
      {
        match items[i]
        case FromUrl(url) =>
          document.SetBackground(Some(url));
          return true;
        case FromString(glyph) =>
          document.AddEmoji(glyph, EmojiPosition(location, center, pan, zoom), PaletteEmojiSize / zoom);
          assert forall j :: 0 <= j < |old(document.art.emojis)| ==> document.art.emojis[j] == old(document.art.emojis)[j];
          return true;
        case Unsupported =>
        i := i + 1;
      }
      return false;
    }
  }
}
