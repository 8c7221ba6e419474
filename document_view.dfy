/**
 * The arithmetic and the decisions of the canvas view (`EmojiArtDocumentView`): the pan/zoom
 * transform from model to screen coordinates, its inverse used when something is dropped, the
 * fit-to-image zoom, the tap dispatch, and what each gesture does when it ends.
 *
 * The view's committed state (`steadyState...`) and the live gesture values (`gesture...`) are
 * fields; the live ones are written by the gesture machinery, which is not modelled, so here
 * they are simply the values the transform reads.
 */
module DocumentView {
  import opened Optional
  import opened Geometry
  import opened EmojiArtModel
  import opened DocumentViewModel

  /** Applies `edit`, by lookup, once for each id in turn (the per-selection gesture folds). */
  function UpdateEach(es: seq<Emoji>, ids: seq<int>, edit: Emoji -> Emoji): seq<Emoji>
    decreases |ids|
  {
    if ids == [] then es
    else UpdateMatching(UpdateEach(es, ids[..|ids| - 1], edit), ids[|ids| - 1], edit)
  }

  /** What ending a pan of the selection does: `moveEmoji` once per captured emoji. */
  function MovedEach(es: seq<Emoji>, captured: seq<Emoji>, offset: Size): seq<Emoji> {
    UpdateEach(es, Ids(captured), Mover(offset))
  }

  /** What ending a pinch of the selection does: `scaleEmoji` once per captured emoji. */
  function ScaledEach(es: seq<Emoji>, captured: seq<Emoji>, scale: real): seq<Emoji> {
    UpdateEach(es, Ids(captured), Scaler(scale))
  }

  /**
   * With unique ids in the document and distinct ids to visit, every emoji whose id is visited
   * is edited exactly once and every other emoji is left alone.
   */
  lemma {:induction false} UpdateEachEffect(es: seq<Emoji>, ids: seq<int>, edit: Emoji -> Emoji)
    requires UniqueIds(es)
    requires forall e :: edit(e).id == e.id
    requires forall i, j :: 0 <= i < j < |ids| ==> ids[i] != ids[j]
    ensures |UpdateEach(es, ids, edit)| == |es|
    ensures forall j :: 0 <= j < |es| ==>
      UpdateEach(es, ids, edit)[j] == if es[j].id in ids then edit(es[j]) else es[j]
    decreases |ids|
  {
    if ids != [] {
      var front, last := ids[..|ids| - 1], ids[|ids| - 1];
      UpdateEachEffect(es, front, edit);
      var mid := UpdateEach(es, front, edit);
      forall i, j | 0 <= i < j < |mid| ensures mid[i].id != mid[j].id {
        assert mid[i].id == es[i].id && mid[j].id == es[j].id;
      }
      UpdateMatchingEffect(mid, last, edit);
      forall j | 0 <= j < |es|
        ensures UpdateEach(es, ids, edit)[j] == if es[j].id in ids then edit(es[j]) else es[j]
      {
        assert ids == front + [last];
        if es[j].id == last {
          assert es[j].id !in front;
        }
      }
    }
  }

  /** Moving every selected emoji: exactly the selected emojis move, each once. */
  lemma PanEachMovesSelection(es: seq<Emoji>, counter: int, offset: Size)
    requires IdsValid(es, counter)
    ensures |MovedEach(es, SelectedOf(es), offset)| == |es|
    ensures forall j :: 0 <= j < |es| ==>
      MovedEach(es, SelectedOf(es), offset)[j] == if es[j].isSelected then MoveBy(es[j], offset) else es[j]
  {
    ValidIdsAreUnique(es, counter);
    SelectedOfKeepsUniqueIds(es);
    var ids := Ids(SelectedOf(es));
    assert forall e :: Mover(offset)(e).id == e.id;
    UpdateEachEffect(es, ids, Mover(offset));
    forall j | 0 <= j < |es| ensures es[j].id in ids <==> es[j].isSelected {
      SelectedIdsAreSelectedEmojis(es, j);
    }
  }

  /** Scaling every selected emoji: exactly the selected emojis are resized, each once. */
  lemma ZoomEachScalesSelection(es: seq<Emoji>, counter: int, scale: real)
    requires IdsValid(es, counter)
    ensures |ScaledEach(es, SelectedOf(es), scale)| == |es|
    ensures forall j :: 0 <= j < |es| ==>
      ScaledEach(es, SelectedOf(es), scale)[j] == if es[j].isSelected then ScaleBy(es[j], scale) else es[j]
  {
    ValidIdsAreUnique(es, counter);
    SelectedOfKeepsUniqueIds(es);
    var ids := Ids(SelectedOf(es));
    assert forall e :: Scaler(scale)(e).id == e.id;
    UpdateEachEffect(es, ids, Scaler(scale));
    forall j | 0 <= j < |es| ensures es[j].id in ids <==> es[j].isSelected {
      SelectedIdsAreSelectedEmojis(es, j);
    }
  }

  lemma UpdateEachKeepsValid(es: seq<Emoji>, counter: int, ids: seq<int>, edit: Emoji -> Emoji)
    requires IdsValid(es, counter)
    requires forall e :: edit(e).id == e.id
    ensures IdsValid(UpdateEach(es, ids, edit), counter)
    decreases |ids|
  {
    if ids != [] {
      UpdateEachKeepsValid(es, counter, ids[..|ids| - 1], edit);
      var mid := UpdateEach(es, ids[..|ids| - 1], edit);
      UpdateMatchingKeepsIds(mid, ids[|ids| - 1], edit);
      SameIdsKeepValid(mid, UpdateEach(es, ids, edit), counter);
    }
  }

  /** |a * b| = |a| * |b|, and a factor below 1 in size shrinks a nonzero b. */
  lemma ScaledErrorBound(a: real, b: real, bound: real)
    requires Abs(a) <= bound
    ensures Abs(a * b) <= bound * Abs(b)
    ensures Abs(a) < bound && b != 0.0 ==> Abs(a * b) < bound * Abs(b)
  {
    assert Abs(a * b) == Abs(a) * Abs(b);
  }

  /** Truncating a model coordinate moves it on screen by less than one zoom unit. */
  lemma TruncationErrorOnScreen(d: real, v: real, z: real)
    requires z != 0.0
    requires d == (TruncatedInt(v) as real - v) * z
    ensures Abs(d) < Abs(z)
  {
    var a := TruncatedInt(v) as real - v;
    assert Abs(a) < 1.0;
    ScaledErrorBound(a, z, 1.0);
    assert 1.0 * Abs(z) == Abs(z);
  }

  /** One screen coordinate of the truncation of v, against v itself: less than one zoom unit apart. */
  lemma TruncatedCoordinateOnScreen(drawn: real, exact: real, t: int, v: real, z: real, centre: real, pan: real)
    requires z != 0.0 && t == TruncatedInt(v)
    requires drawn == t as real * z + centre + pan
    requires exact == v * z + centre + pan
    ensures Abs(drawn - exact) < Abs(z)
  {
    assert drawn - exact == (TruncatedInt(v) as real - v) * z;
    TruncationErrorOnScreen(drawn - exact, v, z);
  }

  /**
   * One screen coordinate of a model coordinate v shifted by the truncation of w, against v
   * drawn with the exact live shift w: they differ by less than one zoom unit.
   */
  lemma TruncatedShiftOnScreen(committed: real, shown: real, v: int, w: real, z: real, centre: real, pan: real)
    requires z != 0.0
    requires committed == (v + TruncatedInt(w)) as real * z + centre + pan
    requires shown == (v as real * z + centre + pan) + w * z
    ensures Abs(committed - shown) < Abs(z)
  {
    assert committed - shown == (TruncatedInt(w) as real - w) * z;
    TruncationErrorOnScreen(committed - shown, w, z);
  }

  /** A size rounded to within 1/2 of the exact one, drawn at zoom z, is within z/2 of it. */
  lemma RoundingErrorOnScreen(drawn: real, live: real, rounded: int, exact: real, z: real)
    requires Abs(rounded as real - exact) <= 0.5
    requires drawn == rounded as real * z && live == exact * z
    ensures Abs(drawn - live) <= Abs(z) / 2.0
  {
    assert drawn - live == (rounded as real - exact) * z;
    ScaledErrorBound(rounded as real - exact, z, 0.5);
    assert 0.5 * Abs(z) == Abs(z) / 2.0;
  }

  /** The rounded scaled size is within 1/2 of the exact one. */
  lemma ScaledSizeIsClose(size: int, scale: real)
    ensures Abs(ScaledSize(size, scale) as real - size as real * scale) <= 0.5
  {
  }

  class EmojiArtDocumentView {
    const document: EmojiArtDocument
    const defaultEmojiSize: real := 40.0
    var steadyStateZoomScale: real
    var gestureZoomScale: real
    var gestureEachZoomScale: real
    var steadyStatePanOffset: Size
    var gesturePanOffset: Size
    var gestureEachPanOffset: Size

    /** The view starts unzoomed and unpanned, with no gesture in progress. */
    constructor (document: EmojiArtDocument)
      ensures this.document == document
      ensures steadyStateZoomScale == 1.0 && gestureZoomScale == 1.0 && gestureEachZoomScale == 1.0
      ensures steadyStatePanOffset == ZeroSize && gesturePanOffset == ZeroSize
      ensures gestureEachPanOffset == ZeroSize
    {
      this.document := document;
      steadyStateZoomScale, gestureZoomScale, gestureEachZoomScale := 1.0, 1.0, 1.0;
      steadyStatePanOffset, gesturePanOffset, gestureEachPanOffset := ZeroSize, ZeroSize, ZeroSize;
    }

    /** `zoomScale`: the committed zoom times the live pinch, which is 1 when no pinch is in progress. */
    function ZoomScale(): real
      reads this
    {
      steadyStateZoomScale * gestureZoomScale
    }

    /**
     * `panOffset`: the committed pan plus the live drag, both in model units, converted to screen
     * units by the zoom. With no drag in progress it is the committed pan, zoomed.
     */
    function PanOffset(): (p: Size)
      reads this
      ensures gesturePanOffset == ZeroSize ==> p == Times(steadyStatePanOffset, ZoomScale())
      ensures ZoomScale() == 1.0 ==> p == Plus(steadyStatePanOffset, gesturePanOffset)
    {
      Times(Plus(steadyStatePanOffset, gesturePanOffset), ZoomScale())
    }

    /** A model point on screen: zoomed, moved to the centre of the viewport, then panned. */
    function ScreenLocation(location: Point, size: Size): (p: Point)
      reads this
      ensures location == Point(0.0, 0.0) ==>
        p == Point(size.width / 2.0 + PanOffset().width, size.height / 2.0 + PanOffset().height)
    {
      var zoomed := Point(location.x * ZoomScale(), location.y * ZoomScale());
      var centred := Point(zoomed.x + size.width / 2.0, zoomed.y + size.height / 2.0);
      Point(centred.x + PanOffset().width, centred.y + PanOffset().height)
    }

    /** `position(for:in:)`: a selected emoji also follows the live pan of the selection. */
    function Position(emoji: Emoji, size: Size): (p: Point)
      reads this
      ensures !emoji.isSelected || gestureEachPanOffset == ZeroSize ==>
        p == ScreenLocation(Location(emoji), size)
    {
      var location := ScreenLocation(Location(emoji), size);
      if emoji.isSelected then
        Point(location.x + gestureEachPanOffset.width * ZoomScale(),
              location.y + gestureEachPanOffset.height * ZoomScale())
      else location
    }

    /**
     * The drop mapping: a point in the view back to model coordinates (uncentred, unpanned,
     * unzoomed). The model point it gives is drawn exactly at the point dropped on.
     */
    function DropLocation(location: Point, size: Size): (m: Point)
      requires ZoomScale() != 0.0
      reads this
      ensures ScreenLocation(m, size) == location
    {
      var centred := Point(location.x - size.width / 2.0, location.y - size.height / 2.0);
      var unpanned := Point(centred.x - PanOffset().width, centred.y - PanOffset().height);
      assert unpanned.x / ZoomScale() * ZoomScale() == unpanned.x;
      assert unpanned.y / ZoomScale() * ZoomScale() == unpanned.y;
      Point(unpanned.x / ZoomScale(), unpanned.y / ZoomScale())
    }

    /** `magnification(for:)`: a selected emoji also follows the live pinch of the selection. */
    function Magnification(emoji: Emoji): real
      reads this
    {
      var scale := FontSize(emoji) * ZoomScale();
      if emoji.isSelected then scale * gestureEachZoomScale else scale
    }

    /** `isLoading`: a background URL is set but its image has not arrived. */
    function IsLoading(): (b: bool)
      reads document, document.emojiArt
      ensures document.BackgroundURL() == None ==> !b
      ensures document.backgroundImage.Some? ==> !b
      ensures document.BackgroundURL().Some? && document.backgroundImage == None ==> b
    {
      document.BackgroundURL() != None && document.backgroundImage == None
    }

    /** With no pinch in progress the live pinch is 1, and the zoom is the committed zoom. */
    lemma ZoomAtRest()
      ensures gestureZoomScale == 1.0 ==> ZoomScale() == steadyStateZoomScale
    {
    }

    /**
     * An unselected emoji, or any emoji while no pinch of the selection is in progress, is drawn
     * at its font size times the zoom.
     */
    lemma MagnificationAtRest(emoji: Emoji)
      ensures !emoji.isSelected || gestureEachZoomScale == 1.0 ==>
        Magnification(emoji) == FontSize(emoji) * ZoomScale()
    {
    }

    /** On screen, two model points lie apart by their model distance times the zoom scale. */
    lemma ScreenLocationDistance(a: Point, b: Point, size: Size)
      ensures ScreenLocation(a, size).x - ScreenLocation(b, size).x == (a.x - b.x) * ZoomScale()
      ensures ScreenLocation(a, size).y - ScreenLocation(b, size).y == (a.y - b.y) * ZoomScale()
    {
      var z := ZoomScale();
      assert a.x * z - b.x * z == (a.x - b.x) * z;
      assert a.y * z - b.y * z == (a.y - b.y) * z;
    }

    /** The drop mapping and the on-screen location are inverse bijections while the zoom is nonzero. */
    lemma DropInvertsScreenLocation(location: Point, size: Size)
      requires ZoomScale() != 0.0
      ensures DropLocation(ScreenLocation(location, size), size) == location
      ensures ScreenLocation(DropLocation(location, size), size) == location
    {
      var z := ZoomScale();
      assert location.x * z / z == location.x;
      assert location.y * z / z == location.y;
    }

    /** Dropping at an unselected emoji's on-screen position gives back its model location. */
    lemma DropInvertsPosition(emoji: Emoji, size: Size)
      requires ZoomScale() != 0.0
      requires !emoji.isSelected
      ensures DropLocation(Position(emoji, size), size) == Location(emoji)
    {
      DropInvertsScreenLocation(Location(emoji), size);
    }

    /** The horizontal half of TruncatedPointLandsNearby. */
    lemma TruncatedPointLandsNearbyX(m: Point, e: Emoji, size: Size)
      requires ZoomScale() != 0.0
      requires !e.isSelected && e.x == TruncatedInt(m.x)
      ensures Abs(Position(e, size).x - ScreenLocation(m, size).x) < Abs(ZoomScale())
    {
      var z, pan := ZoomScale(), PanOffset().width;
      var drawn, exact := Position(e, size).x, ScreenLocation(m, size).x;
      assert drawn == e.x as real * z + size.width / 2.0 + pan;
      TruncatedCoordinateOnScreen(drawn, exact, e.x, m.x, z, size.width / 2.0, pan);
    }

    /** The vertical half of TruncatedPointLandsNearby. */
    lemma TruncatedPointLandsNearbyY(m: Point, e: Emoji, size: Size)
      requires ZoomScale() != 0.0
      requires !e.isSelected && e.y == TruncatedInt(m.y)
      ensures Abs(Position(e, size).y - ScreenLocation(m, size).y) < Abs(ZoomScale())
    {
      var z, pan := ZoomScale(), PanOffset().height;
      var drawn, exact := Position(e, size).y, ScreenLocation(m, size).y;
      assert drawn == e.y as real * z + size.height / 2.0 + pan;
      TruncatedCoordinateOnScreen(drawn, exact, e.y, m.y, z, size.height / 2.0, pan);
    }

    /**
     * An unselected emoji placed at a model point truncated to whole units is drawn less than one
     * zoom unit away from where that point is drawn, in each direction.
     */
    lemma TruncatedPointLandsNearby(m: Point, e: Emoji, size: Size)
      requires ZoomScale() != 0.0
      requires !e.isSelected && e.x == TruncatedInt(m.x) && e.y == TruncatedInt(m.y)
      ensures Abs(Position(e, size).x - ScreenLocation(m, size).x) < Abs(ZoomScale())
      ensures Abs(Position(e, size).y - ScreenLocation(m, size).y) < Abs(ZoomScale())
    {
      TruncatedPointLandsNearbyX(m, e, size);
      TruncatedPointLandsNearbyY(m, e, size);
    }

    /**
     * An emoji added where something is dropped lands within one model unit of the drop point:
     * on screen it is off by less than the zoom scale in each direction.
     */
    lemma DroppedEmojiLandsNearDropPoint(text: string, location: Point, size: Size, id: int)
      requires ZoomScale() != 0.0
      ensures var m := DropLocation(location, size);
        var p := Position(NewEmoji(text, TruncatedInt(m.x), TruncatedInt(m.y), 40, id), size);
        Abs(p.x - location.x) < Abs(ZoomScale()) && Abs(p.y - location.y) < Abs(ZoomScale())
    {
      var m := DropLocation(location, size);
      DropInvertsScreenLocation(location, size);
      TruncatedPointLandsNearby(m, NewEmoji(text, TruncatedInt(m.x), TruncatedInt(m.y), 40, id), size);
    }

    /** The horizontal half of PanEachCommitLandsNearby. */
    lemma PanEachCommitLandsNearbyX(emoji: Emoji, size: Size)
      requires emoji.isSelected
      requires ZoomScale() != 0.0
      ensures Abs(ScreenLocation(Location(MoveBy(emoji, gestureEachPanOffset)), size).x - Position(emoji, size).x)
              < Abs(ZoomScale())
    {
      var z, w := ZoomScale(), gestureEachPanOffset.width;
      var committed := ScreenLocation(Location(MoveBy(emoji, gestureEachPanOffset)), size).x;
      assert committed == (emoji.x + TruncatedInt(w)) as real * z + size.width / 2.0 + PanOffset().width;
      var shown := Position(emoji, size).x;
      assert shown == (emoji.x as real * z + size.width / 2.0 + PanOffset().width) + w * z;
      TruncatedShiftOnScreen(committed, shown, emoji.x, w, z, size.width / 2.0, PanOffset().width);
    }

    /** The vertical half of PanEachCommitLandsNearby. */
    lemma PanEachCommitLandsNearbyY(emoji: Emoji, size: Size)
      requires emoji.isSelected
      requires ZoomScale() != 0.0
      ensures Abs(ScreenLocation(Location(MoveBy(emoji, gestureEachPanOffset)), size).y - Position(emoji, size).y)
              < Abs(ZoomScale())
    {
      var z, h := ZoomScale(), gestureEachPanOffset.height;
      var committed := ScreenLocation(Location(MoveBy(emoji, gestureEachPanOffset)), size).y;
      assert committed == (emoji.y + TruncatedInt(h)) as real * z + size.height / 2.0 + PanOffset().height;
      var shown := Position(emoji, size).y;
      assert shown == (emoji.y as real * z + size.height / 2.0 + PanOffset().height) + h * z;
      TruncatedShiftOnScreen(committed, shown, emoji.y, h, z, size.height / 2.0, PanOffset().height);
    }

    /**
     * Committing a pan of the selection moves a selected emoji by the live offset truncated to
     * whole model units, so once the live offset is back to zero it sits less than one zoom unit
     * from where it was shown during the gesture.
     */
    lemma PanEachCommitLandsNearby(emoji: Emoji, size: Size)
      requires emoji.isSelected
      requires ZoomScale() != 0.0
      ensures var shown := Position(emoji, size);
        var committed := ScreenLocation(Location(MoveBy(emoji, gestureEachPanOffset)), size);
        Abs(committed.x - shown.x) < Abs(ZoomScale()) && Abs(committed.y - shown.y) < Abs(ZoomScale())
    {
      PanEachCommitLandsNearbyX(emoji, size);
      PanEachCommitLandsNearbyY(emoji, size);
    }

    /** The drawn sizes of a selected emoji after and during a pinch of the selection. */
    lemma ZoomCommitSizes(emoji: Emoji)
      requires emoji.isSelected
      ensures FontSize(ScaleBy(emoji, gestureEachZoomScale)) * ZoomScale()
              == ScaledSize(emoji.size, gestureEachZoomScale) as real * ZoomScale()
      ensures Magnification(emoji) == emoji.size as real * gestureEachZoomScale * ZoomScale()
    {
    }

    /**
     * Committing a pinch of the selection rounds the scaled size to a whole number, so once the
     * live scale is back to 1 a selected emoji is drawn within half a zoom unit of its size
     * during the gesture.
     */
    lemma ZoomEachCommitLandsNearby(emoji: Emoji)
      requires emoji.isSelected
      ensures Abs(FontSize(ScaleBy(emoji, gestureEachZoomScale)) * ZoomScale() - Magnification(emoji))
              <= Abs(ZoomScale()) / 2.0
    {
      var z, s := ZoomScale(), gestureEachZoomScale;
      ScaledSizeIsClose(emoji.size, s);
      ZoomCommitSizes(emoji);
      RoundingErrorOnScreen(FontSize(ScaleBy(emoji, s)) * z, Magnification(emoji),
        ScaledSize(emoji.size, s), emoji.size as real * s, z);
    }

    /** `zoomToFit`: only an image with positive width and height changes the steady state. */
    method ZoomToFit(image: Option<UIImage>, size: Size)
      modifies this`steadyStatePanOffset, this`steadyStateZoomScale
      ensures if image.Some? && image.value.size.width > 0.0 && image.value.size.height > 0.0
        then steadyStatePanOffset == ZeroSize && steadyStateZoomScale == FitScale(image.value.size, size)
        else steadyStatePanOffset == old(steadyStatePanOffset) && steadyStateZoomScale == old(steadyStateZoomScale)
    {
      if image.Some? && image.value.size.width > 0.0 && image.value.size.height > 0.0 {
        var hZoom := size.width / image.value.size.width;
        var vZoom := size.height / image.value.size.height;
        steadyStatePanOffset := ZeroSize;
        steadyStateZoomScale := Min(hZoom, vZoom);
      }
    }

    /** The end of a pinch with nothing selected: the final scale is folded into the steady zoom. */
    method ZoomGestureEnded(finalGestureScale: real)
      modifies this`steadyStateZoomScale
      ensures steadyStateZoomScale == old(steadyStateZoomScale) * finalGestureScale
    {
      steadyStateZoomScale := steadyStateZoomScale * finalGestureScale;
    }

    /** The end of a drag with nothing selected: the translation, in model units, joins the steady pan. */
    method PanGestureEnded(translation: Size)
      requires ZoomScale() != 0.0
      modifies this`steadyStatePanOffset
      ensures steadyStatePanOffset == Plus(old(steadyStatePanOffset), Over(translation, ZoomScale()))
    {
      steadyStatePanOffset := Plus(steadyStatePanOffset, Over(translation, ZoomScale()));
    }

    /** The end of a pinch of the selection: `scaleEmoji` for each emoji captured when it began. */
    method ZoomEachGestureEnded(emojis: seq<Emoji>, finalGestureScale: real)
      modifies document.emojiArt`emojis
      ensures document.Emojis() == ScaledEach(old(document.Emojis()), emojis, finalGestureScale)
      ensures old(document.Valid()) ==> document.Valid()
    {
      ghost var before := document.Emojis();
      for i := 0 to |emojis|
        invariant document.Emojis() == ScaledEach(before, emojis[..i], finalGestureScale)
        invariant document.emojiArt.uniqueEmojiId == old(document.emojiArt.uniqueEmojiId)
      {
        document.ScaleEmoji(emojis[i], finalGestureScale);
        assert Ids(emojis[..i + 1])[..i] == Ids(emojis[..i]);
      }
      assert emojis[..|emojis|] == emojis;
      if IdsValid(before, document.emojiArt.uniqueEmojiId) {
        assert forall e :: Scaler(finalGestureScale)(e).id == e.id;
        UpdateEachKeepsValid(before, document.emojiArt.uniqueEmojiId, Ids(emojis), Scaler(finalGestureScale));
      }
    }

    /** The end of a drag of the selection: `moveEmoji` for each emoji captured when it began. */
    method PanEachGestureEnded(emojis: seq<Emoji>, translation: Size)
      requires ZoomScale() != 0.0
      modifies document.emojiArt`emojis
      ensures document.Emojis() == MovedEach(old(document.Emojis()), emojis, Over(translation, ZoomScale()))
      ensures old(document.Valid()) ==> document.Valid()
    {
      ghost var before := document.Emojis();
      var offset := Over(translation, ZoomScale());
      for i := 0 to |emojis|
        invariant document.Emojis() == MovedEach(before, emojis[..i], offset)
        invariant document.emojiArt.uniqueEmojiId == old(document.emojiArt.uniqueEmojiId)
      {
        document.MoveEmoji(emojis[i], offset);
        assert Ids(emojis[..i + 1])[..i] == Ids(emojis[..i]);
      }
      assert emojis[..|emojis|] == emojis;
      if IdsValid(before, document.emojiArt.uniqueEmojiId) {
        assert forall e :: Mover(offset)(e).id == e.id;
        UpdateEachKeepsValid(before, document.emojiArt.uniqueEmojiId, Ids(emojis), Mover(offset));
      }
    }

    /**
     * The end of a drag, dispatched as the canvas attaches its gestures: with a selection the
     * selected emojis (captured when the gesture was attached) move, each by the truncated
     * translation in model units, and the pan stays; without one the pan moves and no emoji does.
     */
    method PanEnded(translation: Size)
      requires ZoomScale() != 0.0
      modifies this`steadyStatePanOffset, document.emojiArt`emojis
      ensures old(document.IsSelectionExists()) ==>
        && document.Emojis() == MovedEach(old(document.Emojis()), old(document.SelectedEmojis()),
             Over(translation, ZoomScale()))
        && steadyStatePanOffset == old(steadyStatePanOffset)
      ensures old(document.IsSelectionExists()) && old(document.Valid()) ==>
        |document.Emojis()| == |old(document.Emojis())| &&
        forall j :: 0 <= j < |old(document.Emojis())| ==>
          document.Emojis()[j] == if old(document.Emojis())[j].isSelected
            then MoveBy(old(document.Emojis())[j], Over(translation, ZoomScale()))
            else old(document.Emojis())[j]
      ensures !old(document.IsSelectionExists()) ==>
        && document.Emojis() == old(document.Emojis())
        && steadyStatePanOffset == Plus(old(steadyStatePanOffset), Over(translation, ZoomScale()))
      ensures old(document.Valid()) ==> document.Valid()
    {
      if document.IsSelectionExists() {
        ghost var before := document.Emojis();
        ghost var counter := document.emojiArt.uniqueEmojiId;
        PanEachGestureEnded(document.SelectedEmojis(), translation);
        if IdsValid(before, counter) {
          PanEachMovesSelection(before, counter, Over(translation, ZoomScale()));
        }
      } else {
        PanGestureEnded(translation);
      }
    }

    /**
     * The end of a pinch, dispatched the same way: with a selection the selected emojis are
     * resized and the zoom stays; without one the zoom changes and no emoji does.
     */
    method ZoomEnded(finalGestureScale: real)
      modifies this`steadyStateZoomScale, document.emojiArt`emojis
      ensures old(document.IsSelectionExists()) ==>
        && document.Emojis() == ScaledEach(old(document.Emojis()), old(document.SelectedEmojis()),
             finalGestureScale)
        && steadyStateZoomScale == old(steadyStateZoomScale)
      ensures old(document.IsSelectionExists()) && old(document.Valid()) ==>
        |document.Emojis()| == |old(document.Emojis())| &&
        forall j :: 0 <= j < |old(document.Emojis())| ==>
          document.Emojis()[j] == if old(document.Emojis())[j].isSelected
            then ScaleBy(old(document.Emojis())[j], finalGestureScale)
            else old(document.Emojis())[j]
      ensures !old(document.IsSelectionExists()) ==>
        && document.Emojis() == old(document.Emojis())
        && steadyStateZoomScale == old(steadyStateZoomScale) * finalGestureScale
      ensures old(document.Valid()) ==> document.Valid()
    {
      if document.IsSelectionExists() {
        ghost var before := document.Emojis();
        ghost var counter := document.emojiArt.uniqueEmojiId;
        ZoomEachGestureEnded(document.SelectedEmojis(), finalGestureScale);
        if IdsValid(before, counter) {
          ZoomEachScalesSelection(before, counter, finalGestureScale);
        }
      } else {
        ZoomGestureEnded(finalGestureScale);
      }
    }

    /** A tap on an emoji deletes it when it is marked ready to remove and toggles it otherwise. */
    method TapEmoji(emoji: Emoji)
      modifies document.emojiArt`emojis
      ensures document.Emojis() == if emoji.isReadyToRemove
        then Removed(old(document.Emojis()), emoji.id)
        else Toggled(old(document.Emojis()), emoji.id)
      ensures old(document.Valid()) ==> document.Valid()
    {
      if emoji.isReadyToRemove {
        document.DeleteEmoji(emoji);
      } else {
        document.SelectEmoji(emoji);
      }
    }

    /** A tap on the background deselects every emoji. */
    method TapToDeselect()
      modifies document.emojiArt`emojis
      ensures document.Emojis() == Deselected(old(document.Emojis()))
      ensures old(document.Valid()) ==> document.Valid()
    {
      document.DeselectAllEmojis();
    }

    /** A long press on an emoji marks it ready to remove. */
    method ReadyToRemoveGestureEnded(emoji: Emoji)
      modifies document.emojiArt`emojis
      ensures document.Emojis() == MarkedReady(old(document.Emojis()), emoji.id)
      ensures old(document.Valid()) ==> document.Valid()
    {
      document.ReadyToDeleteEmoji(emoji);
    }

    /** Dropped text becomes an emoji of the default size at the drop point mapped to the model. */
    method DropText(text: string, location: Point, size: Size)
      requires ZoomScale() != 0.0
      modifies document.emojiArt`emojis, document.emojiArt`uniqueEmojiId
      ensures var m := DropLocation(location, size);
        document.Emojis() == old(document.Emojis()) + [NewEmoji(text, TruncatedInt(m.x),
          TruncatedInt(m.y), 40, document.emojiArt.uniqueEmojiId)]
      ensures document.emojiArt.uniqueEmojiId == old(document.emojiArt.uniqueEmojiId) + 1
      ensures old(document.Valid()) ==> document.Valid()
    {
      IntegersConvertExactly(40);
      document.AddEmoji(text, DropLocation(location, size), defaultEmojiSize);
    }

    /** A dropped URL becomes the background; until its image arrives the view shows it is loading. */
    method DropURL(url: URL, imageURL: URL -> URL)
      modifies document.emojiArt`backgroundURL, document`backgroundImage
      ensures document.BackgroundURL() == Some(imageURL(url))
      ensures IsLoading()
    {
      document.SetBackgroundURL(Some(url), imageURL);
    }
  }

  /**
   * A sample editing session, composed from the intents above: a key emoji is added at the
   * origin, scaled by 1.5, moved by (10, -5), marked ready to remove and tapped, which leaves the
   * document empty.
   */
  method ExampleSession() {
    var document := new EmojiArtDocument();
    var view := new EmojiArtDocumentView(document);
    IntegersConvertExactly(0);
    IntegersConvertExactly(40);
    document.AddEmoji("\U{1F511}", Point(0.0, 0.0), 40.0);
    var key := NewEmoji("\U{1F511}", 0, 0, 40, 1);
    assert document.Emojis() == [key];

    ScaleExample(key);
    ScaledResizesOnlyMatch([key], key.id, 1.5);
    document.ScaleEmoji(key, 1.5);
    key := key.(size := 60);
    assert document.Emojis() == [key];

    IntegersConvertExactly(10);
    IntegersConvertExactly(-5);
    MovedShiftsOnlyMatch([key], key.id, Size(10.0, -5.0));
    document.MoveEmoji(key, Size(10.0, -5.0));
    key := key.(x := 10, y := -5);
    assert document.Emojis() == [key];

    MarkedReadySetsOnlyMatch([key], key.id);
    view.ReadyToRemoveGestureEnded(key);
    key := key.(isReadyToRemove := true);
    assert document.Emojis() == [key];

    RemovedEffect([key], key.id);
    view.TapEmoji(key);
    assert document.Emojis() == [];
  }
}
