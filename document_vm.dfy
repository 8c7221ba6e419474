/**
 * The document controller (`EmojiArtDocument`): it owns one `EmojiArt` value and turns the
 * view's intents into mutations of it. Coordinates, offsets, sizes and scales arrive as
 * `CGFloat` values (here `real`) and are converted to the model's integers: `Int(_:)` truncates
 * toward zero and a scaled size is rounded half to even.
 */
module DocumentViewModel {
  import opened Optional
  import opened Geometry
  import opened EmojiArtModel

  /** A decoded background image; only its pixel size matters to the model. */
  datatype UIImage = UIImage(size: Size)

  /** `fontSize`: the emoji's size as a `CGFloat`, which converts back to the same size. */
  function FontSize(e: Emoji): (s: real)
    ensures TruncatedInt(s) == e.size && RoundedToNearestOrEven(s) == e.size
  {
    e.size as real
  }

  /**
   * `location`: the emoji's model position as a `CGPoint`; truncating it, as `addEmoji` does,
   * gives back the position.
   */
  function Location(e: Emoji): (p: Point)
    ensures TruncatedInt(p.x) == e.x && TruncatedInt(p.y) == e.y
  {
    Point(e.x as real, e.y as real)
  }

  /** The edit `moveEmoji` makes: each offset component, truncated, is added to x and y. */
  function MoveBy(e: Emoji, offset: Size): Emoji {
    e.(x := e.x + TruncatedInt(offset.width), y := e.y + TruncatedInt(offset.height))
  }

  /** `Int((CGFloat(size) * scale).rounded(.toNearestOrEven))`. */
  function ScaledSize(size: int, scale: real): int {
    RoundedToNearestOrEven(size as real * scale)
  }

  /** The edit `scaleEmoji` makes: the size becomes size * scale rounded half to even. */
  function ScaleBy(e: Emoji, scale: real): Emoji {
    e.(size := ScaledSize(e.size, scale))
  }

  function Mover(offset: Size): Emoji -> Emoji {
    e => MoveBy(e, offset)
  }

  function Scaler(scale: real): Emoji -> Emoji {
    e => ScaleBy(e, scale)
  }

  /** The effect of `moveEmoji` on the emojis. */
  function Moved(es: seq<Emoji>, id: int, offset: Size): seq<Emoji> {
    UpdateMatching(es, id, Mover(offset))
  }

  /** The effect of `scaleEmoji` on the emojis. */
  function Scaled(es: seq<Emoji>, id: int, scale: real): seq<Emoji> {
    UpdateMatching(es, id, Scaler(scale))
  }

  /** `selectedEmojis()`: the selected emojis, in document order. */
  function SelectedOf(es: seq<Emoji>): (r: seq<Emoji>)
    ensures |r| <= |es|
    ensures forall e :: e in r <==> e in es && e.isSelected
  {
    if es == [] then []
    else
      assert forall e :: e in es <==> e == es[0] || e in es[1..];
      (if es[0].isSelected then [es[0]] else []) + SelectedOf(es[1..])
  }

  /**
   * Selecting distributes over concatenation; with the contract of SelectedOf this pins it down
   * as the order-preserving filter: it never reorders what it keeps.
   */
  lemma {:induction false} SelectedOfConcat(a: seq<Emoji>, b: seq<Emoji>)
    ensures SelectedOf(a + b) == SelectedOf(a) + SelectedOf(b)
  {
    if a == [] {
      assert a + b == b;
    } else {
      assert (a + b)[1..] == a[1..] + b;
      SelectedOfConcat(a[1..], b);
    }
  }

  /**
   * Taking one more emoji at the end keeps it at the end of the selection exactly when it is
   * selected. With `SelectedOf([]) == []` this is `filter` written from the back: the selection
   * is the selected emojis in document order.
   */
  lemma SelectedOfAppendOne(es: seq<Emoji>, e: Emoji)
    ensures SelectedOf(es + [e]) == SelectedOf(es) + (if e.isSelected then [e] else [])
  {
    SelectedOfConcat(es, [e]);
    assert [e][1..] == [];
  }

  /** The selection of a document with unique ids has unique ids too. */
  lemma {:induction false} SelectedOfKeepsUniqueIds(es: seq<Emoji>)
    requires UniqueIds(es)
    ensures UniqueIds(SelectedOf(es))
  {
    if es != [] {
      SelectedOfKeepsUniqueIds(es[1..]);
      var rest := SelectedOf(es[1..]);
      forall k | 0 <= k < |rest| ensures rest[k].id != es[0].id {
        assert rest[k] in es[1..];
        var m :| 0 <= m < |es[1..]| && es[1..][m] == rest[k];
        assert es[m + 1] == rest[k];
      }
    }
  }

  /** In a document with unique ids, an emoji's id is among the selection's ids iff it is selected. */
  lemma SelectedIdsAreSelectedEmojis(es: seq<Emoji>, j: int)
    requires UniqueIds(es)
    requires 0 <= j < |es|
    ensures es[j].id in Ids(SelectedOf(es)) <==> es[j].isSelected
  {
    var sel := SelectedOf(es);
    if es[j].isSelected {
      assert es[j] in sel;
      var k :| 0 <= k < |sel| && sel[k] == es[j];
      assert Ids(sel)[k] == es[j].id;
    }
    if es[j].id in Ids(sel) {
      var k :| 0 <= k < |sel| && Ids(sel)[k] == es[j].id;
      assert sel[k] in es;
      var m :| 0 <= m < |es| && es[m] == sel[k];
      assert m == j;
    }
  }

  /**
   * Moving changes only the emoji carrying the id: its x and y gain the truncated offset
   * components. When no emoji carries the id, nothing changes.
   */
  lemma MovedShiftsOnlyMatch(es: seq<Emoji>, id: int, offset: Size)
    requires UniqueIds(es)
    ensures |Moved(es, id, offset)| == |es|
    ensures forall j :: 0 <= j < |es| ==>
      Moved(es, id, offset)[j] ==
        if es[j].id == id
        then es[j].(x := es[j].x + TruncatedInt(offset.width), y := es[j].y + TruncatedInt(offset.height))
        else es[j]
    ensures id !in Ids(es) ==> Moved(es, id, offset) == es
  {
    UpdateMatchingEffect(es, id, Mover(offset));
  }

  /**
   * Scaling changes only the size of the emoji carrying the id, to size * scale rounded half to
   * even. When no emoji carries the id, nothing changes.
   */
  lemma ScaledResizesOnlyMatch(es: seq<Emoji>, id: int, scale: real)
    requires UniqueIds(es)
    ensures |Scaled(es, id, scale)| == |es|
    ensures forall j :: 0 <= j < |es| ==>
      Scaled(es, id, scale)[j] ==
        if es[j].id == id then es[j].(size := ScaledSize(es[j].size, scale))
        else es[j]
    ensures id !in Ids(es) ==> Scaled(es, id, scale) == es
  {
    UpdateMatchingEffect(es, id, Scaler(scale));
  }

  /** A sample of the rounding: an emoji of size 40 scaled by 1.5 gets size 60. */
  lemma ScaleExample(e: Emoji)
    requires e.size == 40
    ensures Scaled([e], e.id, 1.5)[0].size == 60
  {
    assert FirstIndex([e], e.id) == Some(0);
    assert e.size as real * 1.5 == 60.0;
    IntegersConvertExactly(60);
  }

  lemma MovedKeepsValid(es: seq<Emoji>, counter: int, id: int, offset: Size)
    requires IdsValid(es, counter)
    ensures IdsValid(Moved(es, id, offset), counter)
  {
    UpdateMatchingKeepsIds(es, id, Mover(offset));
    SameIdsKeepValid(es, Moved(es, id, offset), counter);
  }

  lemma ScaledKeepsValid(es: seq<Emoji>, counter: int, id: int, scale: real)
    requires IdsValid(es, counter)
    ensures IdsValid(Scaled(es, id, scale), counter)
  {
    UpdateMatchingKeepsIds(es, id, Scaler(scale));
    SameIdsKeepValid(es, Scaled(es, id, scale), counter);
  }

  class EmojiArtDocument {
    const emojiArt: EmojiArt
    var backgroundImage: Option<UIImage>

    ghost predicate Valid()
      reads emojiArt
    {
      emojiArt.Valid()
    }

    /** A document that starts empty, with no background image. */
    constructor ()
      ensures fresh(emojiArt) && Valid()
      ensures Emojis() == [] && BackgroundURL() == None && backgroundImage == None
      ensures emojiArt.uniqueEmojiId == 0
    {
      emojiArt := new EmojiArt();
      backgroundImage := None;
    }

    /** `emojis`: the document's emojis; in a valid document no two share an id. */
    function Emojis(): (r: seq<Emoji>)
      reads emojiArt
      ensures emojiArt.Valid() ==> UniqueIds(r)
    {
      emojiArt.emojis
    }

    /** The getter of `backgroundURL`. */
    function BackgroundURL(): Option<URL>
      reads emojiArt
    {
      emojiArt.backgroundURL
    }

    function SelectedEmojis(): (r: seq<Emoji>)
      reads emojiArt
      ensures forall e :: e in r <==> e in Emojis() && e.isSelected
    {
      SelectedOf(Emojis())
    }

    /** `isSelectionExists`: whether `selectedEmojis()` is non-empty. */
    function IsSelectionExists(): (b: bool)
      reads emojiArt
      ensures b <==> exists i :: 0 <= i < |Emojis()| && Emojis()[i].isSelected
    {
      var sel := SelectedEmojis();
      if |sel| != 0 then
        assert sel[0] in sel;
        true
      else
        assert forall i :: 0 <= i < |Emojis()| ==> Emojis()[i] !in sel;
        false
    }

    /** Truncates the location and the size to integers and adds the emoji to the document. */
    method AddEmoji(emoji: string, location: Point, size: real)
      modifies emojiArt`emojis, emojiArt`uniqueEmojiId
      ensures emojiArt.uniqueEmojiId == old(emojiArt.uniqueEmojiId) + 1
      ensures Emojis() == old(Emojis()) + [NewEmoji(emoji, TruncatedInt(location.x),
        TruncatedInt(location.y), TruncatedInt(size), emojiArt.uniqueEmojiId)]
      ensures old(Valid()) ==> Valid()
    {
      emojiArt.AddEmoji(emoji, TruncatedInt(location.x), TruncatedInt(location.y), TruncatedInt(size));
    }

    method MoveEmoji(emoji: Emoji, offset: Size)
      modifies emojiArt`emojis
      ensures Emojis() == Moved(old(Emojis()), emoji.id, offset)
      ensures old(Valid()) ==> Valid()
    {
      ghost var before := emojiArt.emojis;
      var index := FirstIndex(emojiArt.emojis, emoji.id);
      if index.Some? {
        var i := index.value;
        emojiArt.emojis := emojiArt.emojis[i := emojiArt.emojis[i].(x := emojiArt.emojis[i].x + TruncatedInt(offset.width))];
        emojiArt.emojis := emojiArt.emojis[i := emojiArt.emojis[i].(y := emojiArt.emojis[i].y + TruncatedInt(offset.height))];
      }
      if IdsValid(before, emojiArt.uniqueEmojiId) {
        MovedKeepsValid(before, emojiArt.uniqueEmojiId, emoji.id, offset);
      }
    }

    method ScaleEmoji(emoji: Emoji, scale: real)
      modifies emojiArt`emojis
      ensures Emojis() == Scaled(old(Emojis()), emoji.id, scale)
      ensures old(Valid()) ==> Valid()
    {
      ghost var before := emojiArt.emojis;
      var index := FirstIndex(emojiArt.emojis, emoji.id);
      if index.Some? {
        var i := index.value;
        emojiArt.emojis := emojiArt.emojis[i := emojiArt.emojis[i].(size := ScaledSize(emojiArt.emojis[i].size, scale))];
      }
      if IdsValid(before, emojiArt.uniqueEmojiId) {
        ScaledKeepsValid(before, emojiArt.uniqueEmojiId, emoji.id, scale);
      }
    }

    method SelectEmoji(emoji: Emoji)
      modifies emojiArt`emojis
      ensures Emojis() == Toggled(old(Emojis()), emoji.id)
      ensures old(Valid()) ==> Valid()
    {
      emojiArt.ToggleEmoji(emoji);
    }

    method DeselectAllEmojis()
      modifies emojiArt`emojis
      ensures Emojis() == Deselected(old(Emojis()))
      ensures old(Valid()) ==> Valid()
    {
      emojiArt.DeselectAllEmojis();
    }

    method ReadyToDeleteEmoji(emoji: Emoji)
      modifies emojiArt`emojis
      ensures Emojis() == MarkedReady(old(Emojis()), emoji.id)
      ensures old(Valid()) ==> Valid()
    {
      emojiArt.ReadyToDeleteEmoji(emoji);
    }

    method DeleteEmoji(emoji: Emoji)
      modifies emojiArt`emojis
      ensures Emojis() == Removed(old(Emojis()), emoji.id)
      ensures old(Valid()) ==> Valid()
    {
      emojiArt.DeleteEmoji(emoji);
    }

    /**
     * The setter of `backgroundURL`. The URL is normalised by `imageURL`, an extension of `URL`
     * that is not part of this model and is therefore a parameter here; then the image fetch
     * restarts, which at once clears `backgroundImage`.
     */
    method SetBackgroundURL(newValue: Option<URL>, imageURL: URL -> URL)
      modifies emojiArt`backgroundURL, this`backgroundImage
      ensures BackgroundURL() == if newValue.Some? then Some(imageURL(newValue.value)) else None
      ensures backgroundImage == None
    {
      emojiArt.backgroundURL := if newValue.Some? then Some(imageURL(newValue.value)) else None;
      FetchBackgroundImageData();
    }

    /** The synchronous part of the fetch: the old image is dropped before a new one is requested. */
    method FetchBackgroundImageData()
      modifies this`backgroundImage
      ensures backgroundImage == None
    {
      backgroundImage := None;
    }
  }
}
