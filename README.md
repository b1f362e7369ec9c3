# EmojiArt document model and gesture commands, in Dafny

This project models the core of the EmojiArt editor: a document made of an
optional background image and an ordered list of emojis, each with an id, a
glyph, an integer position and an integer size. It also models the rules that
turn finished gestures into edits of that document.

- `wrappers.dfy` — `Option`, Swift's `T?`.
- `geometry.dfy` (module `Geometry`) — the CGFloat quantities the UI hands to the
  core (`Point`, `Offset`), abstracted as reals. `Trunc` is Swift's
  `Int(_: CGFloat)`: it truncates toward zero.
- `emoji_art.dfy` (module `EmojiArtModel`) — the `EmojiArt` struct. It is a
  class with the fields `background`, `emojis` (a `seq`) and `uniqueEmojiId`.
  Its methods mirror the struct's mutating members and subscripts. Each is
  specified by a function on values (`FirstIndex`, `Find`, `Resolve`,
  `Replaced`, `Removed`), and the properties are lemmas about those functions.
  The invariant `TableInvariant` says that ids are pairwise distinct and lie in
  `1..uniqueEmojiId`.
- `emoji_art_document.dfy` (module `DocumentModel`) — `EmojiArtDocument`, the
  view model. It has the operator `+-` (`PlusXMinusY`), `Position.in`
  (`PositionIn`) and the intents. `Edited` gives the table after one move or
  resize. `EditedWhere` gives it after the same edit has been made to a set of ids.
- `emoji_art_document_view.dfy` (module `DocumentView`) — the view's state:
  selection, `zoom` and `pan`. It has the `onEnded` bodies of the tap, pinch and
  drag gestures, `drop(_:at:in:)` and `emojiPosition(at:in:)`.

`for id in selectedEmojis` visits a Swift `Set`, whose order is unspecified.
The model picks the ids in any order. Lemma `EditedWhereStep` shows that the
result does not depend on that order, because ids are distinct.

Behaviour of the code worth knowing when reading the model:

- A drag moves an emoji by the screen translation itself; the zoom does not
  enter.
- On screen the pan is added to the Y coordinate (`emojiPosition` subtracts
  `pan.height` before flipping the sign).
- The code has no delete mode, no drag of an unselected emoji, no pruning of
  stale ids from the selection and no size clamp, so neither does the model.

## Model

| member | source | states |
|---|---|---|
| `EmojiArtModel.FirstIndex` | EmojiArt/Models/EmojiArt.swift:64-66 | the result is the first index holding the id: the entries before it hold other ids, and the result is nil exactly when no entry holds the id |
| `EmojiArtModel.EmojiArt.IndexOf` | EmojiArt/Models/EmojiArt.swift:64-66 | the linear scan returns exactly `FirstIndex` of the current emojis |
| `EmojiArtModel.EmojiArt.Lookup` | EmojiArt/Models/EmojiArt.swift:33-39 | returns the stored emoji at the first matching index; nil exactly when the id is absent |
| `EmojiArtModel.FindIffPresent` | EmojiArt/Models/EmojiArt.swift:33-39 | lookup by id fails if and only if the id is absent; a hit carries that id and is an element of the table |
| `EmojiArtModel.FindUnique` | EmojiArt/Models/EmojiArt.swift:33-39 | with distinct ids, looking up any stored emoji's id returns that emoji |
| `EmojiArtModel.EmojiArt.Get` | EmojiArt/Models/EmojiArt.swift:42-47 | the get subscript returns the stored emoji with the argument's id, or else the argument itself; the id is the argument's |
| `EmojiArtModel.ResolveKeepsId` | EmojiArt/Models/EmojiArt.swift:42-47 | the get subscript keeps the id it was asked for, and returns the argument when the id is absent |
| `EmojiArtModel.EmojiArt.Set` | EmojiArt/Models/EmojiArt.swift:49-53 | the set subscript overwrites only the first slot with the key's id and is a no-op when there is none; counter and background unchanged; it keeps the invariant when the new value keeps the id |
| `EmojiArtModel.ReplacedTouchesOneSlot` | EmojiArt/Models/EmojiArt.swift:49-53 | a write keeps the length, leaves every slot with another id unchanged, and changes nothing when the id is absent |
| `EmojiArtModel.FindAfterReplace` | EmojiArt/Models/EmojiArt.swift:33-53 | after writing a value with the id, looking it up returns that value |
| `EmojiArtModel.ReplaceWithResolvedIsNoop` | EmojiArt/Models/EmojiArt.swift:41-53 | writing back what the get subscript returned leaves the table unchanged |
| `EmojiArtModel.ReplaceSameIdKeepsInvariant` | EmojiArt/Models/EmojiArt.swift:49-53 | a write that keeps the id keeps the ids distinct and within the counter |
| `EmojiArtModel.EmojiArt.constructor` | EmojiArt/Models/EmojiArt.swift:21-23 | a new table has no background, no emojis and the counter at 0 |
| `EmojiArtModel.EmojiArt.AddEmoji` | EmojiArt/Models/EmojiArt.swift:27-30 | the counter grows by exactly 1; the old emojis stay in order and one emoji is appended with the new counter as id and the given glyph, position and size; the new id was not in use; the invariant is kept |
| `EmojiArtModel.AppendFreshKeepsInvariant` | EmojiArt/Models/EmojiArt.swift:23-30 | appending an emoji whose id is the bumped counter keeps ids distinct and at most the counter; that id was not in use |
| `EmojiArtModel.EmojiArt.Remove` | EmojiArt/Models/EmojiArt.swift:57-61 | the table becomes `Removed` of the old one, i.e. the old table without its first matching slot, in order; afterwards the id is absent; the counter and background are unchanged and the invariant is kept |
| `EmojiArtModel.RemovedDeletesOne` | EmojiArt/Models/EmojiArt.swift:57-61 | removing an absent id is a no-op; removing a present one shortens the table by exactly one |
| `EmojiArtModel.RemovedDropsId` | EmojiArt/Models/EmojiArt.swift:57-61 | with distinct ids, removal leaves exactly the other ids |
| `EmojiArtModel.RemoveKeepsInvariant` | EmojiArt/Models/EmojiArt.swift:57-61 | removal keeps ids distinct and at most the unchanged counter |
| `EmojiArtModel.NextIdIsNeverReused` | EmojiArt/Models/EmojiArt.swift:23-30 | after a removal, the id the next addition hands out is neither the removed id nor any remaining id |
| `Geometry.Trunc` | EmojiArt/ViewModels/EmojiArtDocument.swift:118-120 | `Int(_: CGFloat)`: the result is the integer part of its argument, rounded toward zero |
| `DocumentModel.PlusXMinusY` | EmojiArt/ViewModels/EmojiArtDocument.swift:118-120 | `x + Int(width)`, `y - Int(height)`: x moves by the width truncated toward zero, y moves against the height by the height truncated toward zero |
| `DocumentModel.PositionIn` | EmojiArt/ViewModels/EmojiArtDocument.swift:113-116 | `Position.in`: the point's offset from the centre, with Y flipped, gives back the position |
| `DocumentModel.PlusXMinusYZero` | EmojiArt/ViewModels/EmojiArtDocument.swift:118-120 | `+-` by a zero offset leaves a position unchanged |
| `DocumentModel.PlusXMinusYFromOrigin` | EmojiArt/ViewModels/EmojiArtDocument.swift:118-120 | `Position.zero +- (10, -10)` is (10, 10): Y is flipped |
| `DocumentModel.PlusXMinusYUndo` | EmojiArt/ViewModels/EmojiArtDocument.swift:118-120 | `+-` by the negated offset undoes `+-` by the offset |
| `DocumentModel.PlusXMinusYFollowsScreen` | EmojiArt/ViewModels/EmojiArtDocument.swift:113-120 | for a whole-point offset, `Position.in` of the moved position is the old screen point plus the offset (the two Y flips agree) |
| `DocumentModel.ZeroIsShownAtCenter` | EmojiArt/ViewModels/EmojiArtDocument.swift:113-116 | `Position.zero.in(geometry)` is the view's centre |
| `DocumentModel.PositionInInjective` | EmojiArt/ViewModels/EmojiArtDocument.swift:113-116 | `Position.in` maps distinct positions to distinct points |
| `DocumentModel.ApplyKeepsIdentity` | EmojiArt/ViewModels/EmojiArtDocument.swift:69-82 | a move or a resize keeps id and glyph; a move keeps the size and a resize keeps the position |
| `DocumentModel.EditedThroughSubscript` | EmojiArt/ViewModels/EmojiArtDocument.swift:69-72 | an edit of a stored emoji is its get subscript followed by the set subscript of the edited value, which keeps the id |
| `DocumentModel.EditedTouchesOnlyTarget` | EmojiArt/ViewModels/EmojiArtDocument.swift:69-88 | a move or a resize of an absent id changes nothing; otherwise only the slot with that id changes, and the length is kept |
| `DocumentModel.IdentityEditsAreNoops` | EmojiArt/ViewModels/EmojiArtDocument.swift:69-88 | a move by the zero offset and a resize by a scale of 1 leave the table unchanged |
| `DocumentModel.EditedKeepsInvariant` | EmojiArt/ViewModels/EmojiArtDocument.swift:69-88 | moves and resizes keep the ids distinct and within the counter |
| `DocumentModel.ResizeDirection` | EmojiArt/ViewModels/EmojiArtDocument.swift:80-82 | with a positive scale, a non-negative size stays non-negative; a scale of at least 1 never shrinks it and a scale of at most 1 never grows it |
| `DocumentModel.AddThenMoveScenario` | EmojiArt/ViewModels/EmojiArtDocument.swift:69-78 | an emoji at the origin with id 1, dragged by (10, -10), ends at (10, 10) with everything else unchanged |
| `DocumentModel.EmojiArtDocument.constructor` | EmojiArt/ViewModels/EmojiArtDocument.swift:49-54 | a document with nothing to load starts as an empty table |
| `DocumentModel.EmojiArtDocument.SetBackground` | EmojiArt/ViewModels/EmojiArtDocument.swift:60-62 | the background becomes the argument, nil included; emojis and counter unchanged |
| `DocumentModel.EmojiArtDocument.AddEmoji` | EmojiArt/ViewModels/EmojiArtDocument.swift:64-66 | the table's addition with the size truncated toward zero |
| `DocumentModel.EmojiArtDocument.MoveEmoji` | EmojiArt/ViewModels/EmojiArtDocument.swift:69-72 | the stored emoji with the argument's id gets position `old +- offset`; nothing else changes |
| `DocumentModel.EmojiArtDocument.Move` | EmojiArt/ViewModels/EmojiArtDocument.swift:74-78 | the table becomes `Edited(old, id, MoveBy(offset))`; an absent id leaves it unchanged; counter and background unchanged |
| `DocumentModel.EmojiArtDocument.ResizeEmoji` | EmojiArt/ViewModels/EmojiArtDocument.swift:80-82 | the stored emoji with the argument's id gets size `Int(CGFloat(size) * scale)`; nothing else changes |
| `DocumentModel.EmojiArtDocument.Resize` | EmojiArt/ViewModels/EmojiArtDocument.swift:84-88 | the table becomes `Edited(old, id, ResizeBy(scale))`; an absent id leaves it unchanged |
| `DocumentModel.EmojiArtDocument.Remove` | EmojiArt/ViewModels/EmojiArtDocument.swift:90-92 | the table's removal: the first matching emoji is deleted and the id is then absent |
| `DocumentModel.EditedWhereStep` | EmojiArt/Views/EmojiArtDocumentView.swift:108-112 | with distinct ids, editing one more id after a set of ids gives the edit of the enlarged set, so the loop's order does not matter |
| `DocumentModel.EditedWhereNone` | EmojiArt/Views/EmojiArtDocumentView.swift:108-112 | editing no ids changes nothing |
| `DocumentModel.EditedWhereKeepsIds` | EmojiArt/Views/EmojiArtDocumentView.swift:108-112 | a group edit keeps the set of ids |
| `DocumentModel.EditedWhereKeepsInvariant` | EmojiArt/Views/EmojiArtDocumentView.swift:108-112 | a group edit keeps ids distinct and within the counter |
| `DocumentModel.GroupResizeByTwoDoubles` | EmojiArt/Views/EmojiArtDocumentView.swift:72-76 | a group pinch by 2 doubles exactly the selected sizes |
| `DocumentView.Toggled` | EmojiArt/Views/EmojiArtDocumentView.swift:175-179 | the body of `handleTap(on:)`: the tapped id's membership flips and no other id's does |
| `DocumentView.ToggledTwice` | EmojiArt/Views/EmojiArtDocumentView.swift:172-186 | two taps on the same emoji restore the selection |
| `DocumentView.EmojiArtDocumentView.constructor` | EmojiArt/Views/EmojiArtDocumentView.swift:59-62 | a new view has zoom 1, zero pan and an empty selection |
| `DocumentView.EmojiArtDocumentView.HandleTap` | EmojiArt/Views/EmojiArtDocumentView.swift:172-186 | the selection becomes the old one with the emoji's id toggled; zoom and pan unchanged; tapping an emoji of the document keeps every selected id in the document |
| `DocumentView.EmojiArtDocumentView.TapDocument` | EmojiArt/Views/EmojiArtDocumentView.swift:92-97 | a tap on the canvas empties the selection and changes nothing else |
| `DocumentView.EmojiArtDocumentView.ZoomEnded` | EmojiArt/Views/EmojiArtDocumentView.swift:64-78 | with nothing selected, zoom is multiplied by the scale and the document is unchanged; otherwise zoom is unchanged and every selected emoji is resized by the scale; selection and pan unchanged |
| `DocumentView.EmojiArtDocumentView.EmojiZoomEnded` | EmojiArt/Views/EmojiArtDocumentView.swift:115-126 | every selected emoji is resized by the same scale and no other emoji changes |
| `DocumentView.EmojiArtDocumentView.PanEnded` | EmojiArt/Views/EmojiArtDocumentView.swift:80-90 | pan grows by the translation exactly when nothing is selected; selection and zoom unchanged |
| `DocumentView.EmojiArtDocumentView.EmojiPanEnded` | EmojiArt/Views/EmojiArtDocumentView.swift:103-113 | every selected emoji is moved by the same translation; unselected emojis, ids, background and counter unchanged (selection, pan and zoom are outside its frame) |
| `DocumentView.FirstRecognised` | EmojiArt/Views/EmojiArtDocumentView.swift:128-143 | the first drop item that is a url or a string, and none exactly when every item is of another kind |
| `DocumentView.EmojiArtDocumentView.Drop` | EmojiArt/Views/EmojiArtDocumentView.swift:128-143 | returns true exactly when some item is recognised; a first url sets the background only; a first string appends one emoji with the next id, at `emojiPosition`, size `Int(40 / zoom)`; otherwise nothing changes |
| `DocumentView.EmojiPosition` | EmojiArt/Views/EmojiArtDocumentView.swift:145-151 | `emojiPosition(at:in:)`: with a positive zoom the panned centre is the origin, x is non-negative right of it and y non-negative above it (and non-positive on the other sides) |
| `DocumentView.EmojiPositionInvertsDrawing` | EmojiArt/Views/EmojiArtDocumentView.swift:145-151 | `emojiPosition` of the point where an emoji at p is drawn is p |
| `DocumentView.DropLandsUnderPointer` | EmojiArt/Views/EmojiArtDocumentView.swift:145-151 | a dropped emoji is drawn less than one zoom step from the drop location, on both axes |
| `DocumentView.ScreenLocationUnscaled` | EmojiArt/Views/EmojiArtDocumentView.swift:33-35 | at zoom 1 and zero pan an emoji is drawn where `Position.in` puts it |
| `DocumentView.DroppedSizeMatchesPalette` | EmojiArt/Views/EmojiArtDocumentView.swift:134-137 | the dropped size `Int(40 / zoom)` is non-negative, is 40 at zoom 1, and times the zoom lies in (40 - zoom, 40] |

## Left out

- Persistence: `autosave`, `save(to:)`, `json()`, the `didSet` that autosaves on every write, and loading the autosaved file in `init`. These are file I/O, and the JSON coding is not part of this model; the document always starts empty.
- SwiftUI: rendering, gesture recognition, `simultaneously` composition, the live `@GestureState` previews, `scaleFactor`, `isInMotion`, `font`/`halfFont`, `positionForButton`, `SelectEffect`, `ShakeEffect`, the palette screens and the app entry point. Only the `onEnded` bodies are modelled, as commands.
- CGFloat is a real number: no IEEE rounding, and no trap of `Int(_:)` on NaN, infinity or out-of-range values. A zoom of 0 would make `paletteEmojiSize / zoom` infinite, so the view's `Valid` keeps `zoom > 0`.
- `DocumentView.EmojiArtDocumentView.ZoomEnded`: requires a positive pinch scale, as the magnification gesture reports, so that the zoom stays positive.
- Swift `Int` is 64 bits and traps on overflow (`uniqueEmojiId += 1`, `p.x + Int(width)`). The model's integers are unbounded.
- The Swift declaration of `SturlData` is outside the files modelled. The model's `SturlData` has a url case, a string case and one `Unsupported` case standing for every other kind, which the drop skips.
- The Swift declaration of `+=` on `CGOffset` is outside the files modelled. `Offset.Plus` assumes it adds componentwise.
- `GeometryProxy` is reduced to the view's centre point.
- `ScreenLocation` takes `scaleEffect` to scale about the view's centre; it is used only to state what `emojiPosition` inverts.
- `EmojiArt` is a Swift struct with value semantics. Here it is an object owned by exactly one document, so copies never arise.
- `EmojiArtModel.EmojiArt.Set`: the invariant is promised only when the written value keeps the key's id. Swift would let a caller write a different id; no caller in the code does.
- `isSelected` is modelled as the predicate `IsSelected` and used by `HandleTap`; it has no contract of its own.
