# EmojiArt in Dafny

A model of the editing core of EmojiArtSwiftUI, a SwiftUI app in which emojis are dragged from
a palette onto a canvas with an optional background image, then selected, moved, resized and
deleted with taps, drags, pinches and long presses.

The model has three layers, following the app's three core files:

- `EmojiArtModel` (`emoji_art.dfy`) is the document value `EmojiArt`. It holds an optional
  background URL, the emojis in insertion order and a private id counter. It becomes a class
  whose methods update `emojis` and `uniqueEmojiId` in place. Each mutation is specified by a
  function on the emoji sequence (`Toggled`, `MarkedReady`, `Removed`, `Deselected`), and the
  lemmas about those functions give what each mutation promises:
  - which emoji changes and that no other does;
  - that an absent id leaves the document alone;
  - that toggling is an involution;
  - that marking, deleting and deselecting are idempotent;
  - that every mutation keeps the id invariant `IdsValid`. Under `IdsValid`, ids are positive
    and bounded by the counter, and strictly increase in array order, so they are unique.
- `DocumentViewModel` (`document_vm.dfy`) is the controller `EmojiArtDocument`. It converts the
  view's `CGFloat` coordinates, offsets and scales into the model's integers and forwards the
  intents. Moving truncates toward zero, and scaling rounds half to even. It also defines the
  selection filter, the `backgroundURL` setter and the reset of the background image.
- `DocumentView` (`document_view.dfy`) is the arithmetic and dispatch of `EmojiArtDocumentView`:
  - the model-to-screen transform (zoom, centre, pan, and the live pan of a selection) and its
    inverse, the drop mapping;
  - fit-to-image zoom;
  - the tap, long-press and drop dispatch;
  - what each pan or pinch does when it ends, depending on whether a selection exists.

  The lemmas show that the drop mapping inverts the on-screen position. They also show that an
  emoji dropped, or committed after a pan of the selection, lands less than one zoom unit away
  from where it was shown, and that after a pinch of the selection its drawn size is within
  half a zoom unit of the size shown during the pinch.

`Geometry` (`geometry.dfy`) holds the Core Graphics points and sizes over `real` and the two
conversions `Int(_:)` and `.rounded(.toNearestOrEven)`. `Optional` holds Swift's optional.

Two details of the code shape the model:

- `moveEmoji` truncates the offset toward zero with `Int(_:)`
  (EmojiArtSwiftUI/EmojiArtDocumentVM.swift:46-47); it does not round it.
- The counter is incremented before use (EmojiArtSwiftUI/EmojiArt.swift:49-50), so ids start
  at 1 and never exceed the counter.

`firstIndex(matching:)` is an `Array` extension that is not part of this model. The model takes
it, as its uses require, to be the first index whose emoji carries the same id (`FirstIndex`).
The `CGSize` operators `+`, `*` and `/` (EmojiArtSwiftUI/EmojiArtDocumentView.swift:185, 194,
205) also come from extensions that are not part of this model; `Geometry.Plus`, `Times` and
`Over` take them to be componentwise.

`DocumentView.ExampleSession` is a sample editing session composed from the intents (add, scale
by 1.5, move, mark, tap to delete). It models no single function of the app.

## Model

| member | source | states |
|---|---|---|
| Geometry.TruncatedInt | EmojiArtSwiftUI/EmojiArtDocumentVM.swift:41 | `Int(v)` truncates toward zero: the result is the integer part of v, below v for positive v and above it for negative v, off by less than 1 |
| Geometry.TruncationIsDetermined | EmojiArtSwiftUI/EmojiArtDocumentVM.swift:41 | the truncation contract admits exactly one integer |
| Geometry.RoundedToNearestOrEven | EmojiArtSwiftUI/EmojiArtDocumentVM.swift:53 | the result is within 1/2 of v, and an exact tie goes to the even integer |
| Geometry.RoundingIsDetermined | EmojiArtSwiftUI/EmojiArtDocumentVM.swift:53 | the rounding contract admits exactly one integer |
| Geometry.IntegersConvertExactly | EmojiArtSwiftUI/EmojiArtDocumentView.swift:82 | a whole `CGFloat`, such as the default emoji size 40, converts to the same `Int` under both conversions |
| Geometry.Min | EmojiArtSwiftUI/EmojiArtDocumentView.swift:166 | `min` is a lower bound of both arguments and equals one of them |
| Geometry.FitScaleOfEmptyViewport | EmojiArtSwiftUI/EmojiArtDocumentView.swift:161-168 | with a viewport of zero width or height the fitting zoom is 0 |
| Geometry.FitScaleFits | EmojiArtSwiftUI/EmojiArtDocumentView.swift:161-168 | at the fitting zoom the image fits the viewport in both directions and fills it in at least one |
| EmojiArtModel.NewEmoji | EmojiArtSwiftUI/EmojiArt.swift:20-29 | a new emoji carries the given id and has both flags false, so clearing its flags leaves it unchanged |
| EmojiArtModel.ValidIdsAreUnique | EmojiArtSwiftUI/EmojiArt.swift:46-51 | ids handed out by the counter are unique within the document |
| EmojiArtModel.FirstIndex | EmojiArtSwiftUI/EmojiArt.swift:54 | the lookup returns the first index carrying the id, and returns nothing exactly when no emoji carries it |
| EmojiArtModel.FirstIndexFollowsIds | EmojiArtSwiftUI/EmojiArt.swift:54 | the lookup depends on the ids alone |
| EmojiArtModel.UpdateMatchingEffect | EmojiArtSwiftUI/EmojiArt.swift:53-63 | a lookup-then-update edits exactly the emoji carrying the id; with no such emoji nothing changes |
| EmojiArtModel.UpdateMatchingKeepsIds | EmojiArtSwiftUI/EmojiArt.swift:53-63 | an edit that keeps an emoji's id keeps all ids of the document |
| EmojiArtModel.SameIdsKeepValid | EmojiArtSwiftUI/EmojiArt.swift:14-15 | the id invariant depends only on the ids, which are `let` constants of an emoji |
| EmojiArtModel.ToggledFlipsOnlyMatch | EmojiArtSwiftUI/EmojiArt.swift:53-57 | `toggleEmoji` flips `isSelected` of the matching emoji only; an absent id changes nothing |
| EmojiArtModel.ToggledTwice | EmojiArtSwiftUI/EmojiArt.swift:53-57 | toggling the same emoji twice restores the document |
| EmojiArtModel.MarkedReadySetsOnlyMatch | EmojiArtSwiftUI/EmojiArt.swift:59-63 | `readyToDeleteEmoji` sets `isReadyToRemove` of the matching emoji only; an absent id changes nothing |
| EmojiArtModel.MarkedReadyTwice | EmojiArtSwiftUI/EmojiArt.swift:59-63 | marking is idempotent |
| EmojiArtModel.RemovedEffect | EmojiArtSwiftUI/EmojiArt.swift:65-69 | deleting a present id removes exactly that one emoji, at its index, and keeps the rest in order; an absent id changes nothing |
| EmojiArtModel.RemovedTwice | EmojiArtSwiftUI/EmojiArt.swift:65-69 | deleting twice is deleting once |
| EmojiArtModel.DeselectedClearsFlags | EmojiArtSwiftUI/EmojiArt.swift:71-76 | deselecting clears both flags of every emoji and keeps each one's id, text, position and size |
| EmojiArtModel.DeselectedTwice | EmojiArtSwiftUI/EmojiArt.swift:71-76 | deselecting is idempotent |
| EmojiArtModel.AppendNextIdKeepsValid | EmojiArtSwiftUI/EmojiArt.swift:48-51 | appending an emoji with the incremented counter as its id keeps the id invariant |
| EmojiArtModel.ToggledKeepsValid | EmojiArtSwiftUI/EmojiArt.swift:53-57 | toggling keeps the id invariant |
| EmojiArtModel.MarkedReadyKeepsValid | EmojiArtSwiftUI/EmojiArt.swift:59-63 | marking keeps the id invariant |
| EmojiArtModel.RemovedKeepsValid | EmojiArtSwiftUI/EmojiArt.swift:65-69 | deleting keeps the id invariant |
| EmojiArtModel.DeselectedKeepsValid | EmojiArtSwiftUI/EmojiArt.swift:71-76 | deselecting keeps the id invariant |
| EmojiArtModel.EmojiArt.constructor | EmojiArtSwiftUI/EmojiArt.swift:44-46 | a new document has no background, no emojis and the counter at 0, and satisfies the id invariant |
| EmojiArtModel.EmojiArt.AddEmoji | EmojiArtSwiftUI/EmojiArt.swift:48-51 | the counter goes up by one and a new unflagged emoji carrying the new counter value is appended; the invariant is kept |
| EmojiArtModel.EmojiArt.ToggleEmoji | EmojiArtSwiftUI/EmojiArt.swift:53-57 | the emojis become `Toggled` of the old ones; the invariant is kept |
| EmojiArtModel.EmojiArt.ReadyToDeleteEmoji | EmojiArtSwiftUI/EmojiArt.swift:59-63 | the emojis become `MarkedReady` of the old ones; the invariant is kept |
| EmojiArtModel.EmojiArt.DeleteEmoji | EmojiArtSwiftUI/EmojiArt.swift:65-69 | the emojis become `Removed` of the old ones; the invariant is kept |
| EmojiArtModel.EmojiArt.DeselectAllEmojis | EmojiArtSwiftUI/EmojiArt.swift:71-76 | the index loop leaves the emojis equal to `Deselected` of the old ones; the invariant is kept |
| DocumentViewModel.SelectedOf | EmojiArtSwiftUI/EmojiArtDocumentVM.swift:65-67 | the filter keeps exactly the selected emojis and never grows the sequence |
| DocumentViewModel.SelectedOfAppendOne | EmojiArtSwiftUI/EmojiArtDocumentVM.swift:65-67 | one more emoji at the end ends the selection exactly when it is selected; with the empty case this is the order-preserving filter |
| DocumentViewModel.SelectedOfConcat | EmojiArtSwiftUI/EmojiArtDocumentVM.swift:65-67 | the filter distributes over concatenation, so it keeps document order |
| DocumentViewModel.SelectedOfKeepsUniqueIds | EmojiArtSwiftUI/EmojiArtDocumentVM.swift:65-67 | the selection of a document with unique ids has unique ids |
| DocumentViewModel.SelectedIdsAreSelectedEmojis | EmojiArtSwiftUI/EmojiArtDocumentVM.swift:65-67 | an emoji's id is among the selection's ids if and only if that emoji is selected |
| DocumentViewModel.FontSize | EmojiArtSwiftUI/EmojiArtDocumentVM.swift:106 | `CGFloat(size)`; converting it back with either conversion gives the size again |
| DocumentViewModel.Location | EmojiArtSwiftUI/EmojiArtDocumentVM.swift:107 | `CGPoint(x, y)` of the model position; truncating it, as `addEmoji` does, gives the position again |
| DocumentViewModel.MovedShiftsOnlyMatch | EmojiArtSwiftUI/EmojiArtDocumentVM.swift:44-49 | `moveEmoji` adds the truncated offset to x and y of the matching emoji only; an absent id changes nothing |
| DocumentViewModel.ScaledResizesOnlyMatch | EmojiArtSwiftUI/EmojiArtDocumentVM.swift:51-55 | `scaleEmoji` sets the matching emoji's size to size × scale rounded half to even, and changes nothing else |
| DocumentViewModel.ScaleExample | EmojiArtSwiftUI/EmojiArtDocumentVM.swift:51-55 | an emoji of size 40 scaled by 1.5 gets size 60 |
| DocumentViewModel.MovedKeepsValid | EmojiArtSwiftUI/EmojiArtDocumentVM.swift:44-49 | moving keeps the id invariant |
| DocumentViewModel.ScaledKeepsValid | EmojiArtSwiftUI/EmojiArtDocumentVM.swift:51-55 | scaling keeps the id invariant |
| DocumentViewModel.EmojiArtDocument.constructor | EmojiArtSwiftUI/EmojiArtDocumentVM.swift:19-26 | a new controller owns a fresh empty document with no background URL and no image |
| DocumentViewModel.EmojiArtDocument.Emojis | EmojiArtSwiftUI/EmojiArtDocumentVM.swift:32 | the document's emojis (`emojiArt.emojis`); in a valid document no two share an id |
| DocumentViewModel.EmojiArtDocument.BackgroundURL | EmojiArtSwiftUI/EmojiArtDocumentVM.swift:78-80 | the getter returns the stored `emojiArt.backgroundURL`; `SetBackgroundURL` is stated through it |
| DocumentViewModel.EmojiArtDocument.SelectedEmojis | EmojiArtSwiftUI/EmojiArtDocumentVM.swift:65-67 | the result holds exactly the document's selected emojis |
| DocumentViewModel.EmojiArtDocument.IsSelectionExists | EmojiArtSwiftUI/EmojiArtDocumentVM.swift:34-36 | true if and only if some emoji of the document is selected |
| DocumentViewModel.EmojiArtDocument.AddEmoji | EmojiArtSwiftUI/EmojiArtDocumentVM.swift:40-42 | the location components and the size are truncated, and the emoji is added with the next id; the invariant is kept |
| DocumentViewModel.EmojiArtDocument.MoveEmoji | EmojiArtSwiftUI/EmojiArtDocumentVM.swift:44-49 | the emojis become `Moved` of the old ones; the invariant is kept |
| DocumentViewModel.EmojiArtDocument.ScaleEmoji | EmojiArtSwiftUI/EmojiArtDocumentVM.swift:51-55 | the emojis become `Scaled` of the old ones; the invariant is kept |
| DocumentViewModel.EmojiArtDocument.SelectEmoji | EmojiArtSwiftUI/EmojiArtDocumentVM.swift:57-59 | selecting toggles: the emojis become `Toggled` of the old ones |
| DocumentViewModel.EmojiArtDocument.DeselectAllEmojis | EmojiArtSwiftUI/EmojiArtDocumentVM.swift:61-63 | the emojis become `Deselected` of the old ones |
| DocumentViewModel.EmojiArtDocument.ReadyToDeleteEmoji | EmojiArtSwiftUI/EmojiArtDocumentVM.swift:69-71 | the emojis become `MarkedReady` of the old ones |
| DocumentViewModel.EmojiArtDocument.DeleteEmoji | EmojiArtSwiftUI/EmojiArtDocumentVM.swift:73-75 | the emojis become `Removed` of the old ones |
| DocumentViewModel.EmojiArtDocument.SetBackgroundURL | EmojiArtSwiftUI/EmojiArtDocumentVM.swift:77-85 | the stored URL is the new value's image URL, or none when the new value is nil; the image is cleared for a fresh fetch |
| DocumentViewModel.EmojiArtDocument.FetchBackgroundImageData | EmojiArtSwiftUI/EmojiArtDocumentVM.swift:89-90 | fetching first clears the background image |
| DocumentView.UpdateEachEffect | EmojiArtSwiftUI/EmojiArtDocumentView.swift:203-207 | updating once per distinct id edits exactly the emojis whose id is visited, each once |
| DocumentView.PanEachMovesSelection | EmojiArtSwiftUI/EmojiArtDocumentView.swift:203-207 | ending a drag of the selection moves exactly the selected emojis, each once |
| DocumentView.ZoomEachScalesSelection | EmojiArtSwiftUI/EmojiArtDocumentView.swift:145-149 | ending a pinch of the selection resizes exactly the selected emojis, each once |
| DocumentView.UpdateEachKeepsValid | EmojiArtSwiftUI/EmojiArtDocumentView.swift:145-149 | the per-selection folds keep the id invariant |
| DocumentView.EmojiArtDocumentView.constructor | EmojiArtSwiftUI/EmojiArtDocumentView.swift:122-124 | the view starts at zoom 1 with no pan and no gesture in progress |
| DocumentView.EmojiArtDocumentView.ZoomScale | EmojiArtSwiftUI/EmojiArtDocumentView.swift:126-128 | steady zoom × live pinch zoom; `DropInvertsScreenLocation` proves that it scales model distances to screen distances invertibly, and `ZoomAtRest` that it is the steady zoom while no pinch is in progress |
| DocumentView.EmojiArtDocumentView.ZoomAtRest | EmojiArtSwiftUI/EmojiArtDocumentView.swift:126-128 | with no pinch in progress (live pinch 1) the zoom is the steady zoom |
| DocumentView.EmojiArtDocumentView.PanOffset | EmojiArtSwiftUI/EmojiArtDocumentView.swift:184-186 | (steady pan + live drag) × zoom; with no drag in progress it is the steady pan times the zoom |
| DocumentView.EmojiArtDocumentView.ScreenLocation | EmojiArtSwiftUI/EmojiArtDocumentView.swift:210-214 | model point × zoom + half the viewport + pan offset; the model origin is drawn at the viewport centre shifted by the pan |
| DocumentView.EmojiArtDocumentView.Position | EmojiArtSwiftUI/EmojiArtDocumentView.swift:210-219 | `ScreenLocation` of the emoji's location, plus live selection pan × zoom when selected; an unselected emoji, or any emoji with no selection drag in progress, is at its `ScreenLocation` |
| DocumentView.EmojiArtDocumentView.DropLocation | EmojiArtSwiftUI/EmojiArtDocumentView.swift:73-76 | (point − half the viewport − pan offset) / zoom; the model point it gives is drawn exactly at the dropped point |
| DocumentView.EmojiArtDocumentView.Magnification | EmojiArtSwiftUI/EmojiArtDocumentView.swift:170-176 | font size × zoom, times the live selection pinch when selected; `ZoomEachCommitLandsNearby` bounds it against the size committed when a selection pinch ends, and `MagnificationAtRest` gives it as font size × zoom while no selection pinch is in progress |
| DocumentView.EmojiArtDocumentView.MagnificationAtRest | EmojiArtSwiftUI/EmojiArtDocumentView.swift:170-176 | an unselected emoji, or any emoji while no selection pinch is in progress, is drawn at its font size × zoom |
| DocumentView.EmojiArtDocumentView.IsLoading | EmojiArtSwiftUI/EmojiArtDocumentView.swift:84-86 | not loading while no background URL is set or once its image has arrived; loading while a set URL waits for its image, the state `DropURL` leaves the view in |
| DocumentView.EmojiArtDocumentView.ScreenLocationDistance | EmojiArtSwiftUI/EmojiArtDocumentView.swift:210-214 | on screen, two model points lie apart by their model distance times the zoom scale |
| DocumentView.EmojiArtDocumentView.DropInvertsScreenLocation | EmojiArtSwiftUI/EmojiArtDocumentView.swift:73-76 | at a nonzero zoom, the drop mapping and the model-to-screen transform are inverse to each other, in both directions |
| DocumentView.EmojiArtDocumentView.DropInvertsPosition | EmojiArtSwiftUI/EmojiArtDocumentView.swift:210-219 | dropping at an unselected emoji's on-screen position gives back its model location |
| DocumentView.EmojiArtDocumentView.DroppedEmojiLandsNearDropPoint | EmojiArtSwiftUI/EmojiArtDocumentView.swift:72-77 | an emoji added at a drop point is drawn less than one zoom unit from that point in each direction |
| DocumentView.EmojiArtDocumentView.PanEachCommitLandsNearby | EmojiArtSwiftUI/EmojiArtDocumentView.swift:203-219 | after a drag of the selection is committed, a selected emoji sits less than one zoom unit from where it was drawn during the drag |
| DocumentView.EmojiArtDocumentView.ZoomEachCommitLandsNearby | EmojiArtSwiftUI/EmojiArtDocumentView.swift:170-176 | after a pinch of the selection is committed, a selected emoji's drawn size is within half a zoom unit of its size during the pinch |
| DocumentView.EmojiArtDocumentView.ZoomToFit | EmojiArtSwiftUI/EmojiArtDocumentView.swift:161-168 | only an image with positive width and height resets the pan and sets the zoom to the fitting scale; otherwise nothing changes |
| DocumentView.EmojiArtDocumentView.ZoomGestureEnded | EmojiArtSwiftUI/EmojiArtDocumentView.swift:135-137 | the final pinch scale multiplies the steady zoom |
| DocumentView.EmojiArtDocumentView.PanGestureEnded | EmojiArtSwiftUI/EmojiArtDocumentView.swift:193-195 | the translation divided by the zoom is added to the steady pan |
| DocumentView.EmojiArtDocumentView.ZoomEachGestureEnded | EmojiArtSwiftUI/EmojiArtDocumentView.swift:145-149 | the loop scales each captured emoji in turn, giving `ScaledEach` of the old emojis; the invariant is kept |
| DocumentView.EmojiArtDocumentView.PanEachGestureEnded | EmojiArtSwiftUI/EmojiArtDocumentView.swift:203-207 | the loop moves each captured emoji by the translation divided by the zoom, giving `MovedEach` of the old emojis; the invariant is kept |
| DocumentView.EmojiArtDocumentView.PanEnded | EmojiArtSwiftUI/EmojiArtDocumentView.swift:64-65 | with a selection, exactly the selected emojis move and the pan stays; without one, the pan moves and no emoji does |
| DocumentView.EmojiArtDocumentView.ZoomEnded | EmojiArtSwiftUI/EmojiArtDocumentView.swift:66-67 | with a selection, exactly the selected emojis are resized and the zoom stays; without one, the zoom changes and no emoji does |
| DocumentView.EmojiArtDocumentView.TapEmoji | EmojiArtSwiftUI/EmojiArtDocumentView.swift:107-116 | a tap deletes an emoji marked ready to remove and toggles its selection otherwise |
| DocumentView.EmojiArtDocumentView.TapToDeselect | EmojiArtSwiftUI/EmojiArtDocumentView.swift:90-95 | a tap on the background deselects every emoji |
| DocumentView.EmojiArtDocumentView.ReadyToRemoveGestureEnded | EmojiArtSwiftUI/EmojiArtDocumentView.swift:99-105 | a long press marks the emoji ready to remove |
| DocumentView.EmojiArtDocumentView.DropText | EmojiArtSwiftUI/EmojiArtDocumentView.swift:229-233 | dropped text becomes an emoji of size 40 at the truncated drop point in model coordinates, with the next id |
| DocumentView.EmojiArtDocumentView.DropURL | EmojiArtSwiftUI/EmojiArtDocumentView.swift:225-228 | a dropped URL becomes the background's image URL, and the view then shows that it is loading |

## Left out

- JSON encoding and decoding (`json`, `init?(json:)`), the autosave sink and `UserDefaults`. The
  controller's constructor starts from an empty document instead of loading the saved one.
- The network fetch of the background image (`URLSession`, Combine publishers, cancelling the
  previous fetch). `FetchBackgroundImageData` models only the reset of the image to nil. The
  image arriving later is the `backgroundImage` field, which the model leaves to its callers.
- The `imageURL` extension on `URL` is not part of this model. `SetBackgroundURL` and `DropURL`
  take it as a function parameter.
- `NSItemProvider` loading in `drop(providers:at:)`. Whether a URL or a string was dropped is
  decided by calling `DropURL` or `DropText`, and the returned `found` flag is not modelled.
- SwiftUI rendering, animation and gesture recognition. The live `@GestureState` values are
  fields that the transform reads; their updating during a gesture and their reset to the
  identity when it ends are not modelled.
- `geometry.convert(_:from: .global)`. `DropLocation` takes a point already in the view's own
  coordinates.
- The palette, the palette chooser, `Grid`, `OptionalImage` and the app entry point.
- `CGFloat` is an exact `real`. IEEE rounding, infinities and NaN are not modelled, so division by
  a zero zoom scale becomes the precondition `ZoomScale() != 0.0` of `DropLocation`,
  `PanGestureEnded`, `PanEachGestureEnded`, `PanEnded`, `DropText`, `DropInvertsScreenLocation`,
  `DropInvertsPosition`, `TruncatedPointLandsNearby`, `DroppedEmojiLandsNearDropPoint` and
  `PanEachCommitLandsNearby`, and of the per-axis lemmas built on them. The app can reach a zero
  zoom: `zoomToFit` with a viewport of zero width or height sets it to 0
  (`FitScaleOfEmptyViewport`). The next drop or drag then divides by zero
  (EmojiArtSwiftUI/EmojiArtDocumentView.swift:76, 191, 194, 201, 205). A text drop and a drag of
  the selection pass the result to `Int(_:)`, which traps
  (EmojiArtSwiftUI/EmojiArtDocumentVM.swift:41, 46-47). A drag with nothing selected leaves the
  steady pan infinite or NaN, and a URL drop discards the mapped point. The model does not cover
  what happens from that state on.
- The `CGSize` operator extensions are not part of this model; they are taken to be componentwise.
- `TruncatedInt` and `RoundedToNearestOrEven` do not model the trap on a `CGFloat` outside the
  range of `Int`. `Int` is unbounded throughout, so the overflow trap of `uniqueEmojiId += 1`
  and of adding to x and y is not modelled.
- `PanEnded` and `ZoomEnded` take the selection when the gesture ends. The app captures it when
  the view body is evaluated, which is before the gesture begins.
