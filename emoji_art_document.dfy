/**
 * The view model that owns one emoji-art value and exposes the user's
 * intents on it (EmojiArt/ViewModels/EmojiArtDocument.swift). Screen
 * translations and scales are CGFloat quantities; every conversion back
 * to the table's integers truncates toward zero.
 */
module DocumentModel {
  import opened Wrappers
  import opened Geometry
  import opened EmojiArtModel

  // ---------------------------------------------------------------------
  // Pure geometry of positions.
  // ---------------------------------------------------------------------

  /**
   * The operator `+-`: add the width to x, subtract the height from y
   * (screen Y points down). Each coordinate moves by its component of the
   * offset truncated toward zero, y in the opposite direction.
   */
  function PlusXMinusY(p: Position, o: Offset): (r: Position)
    ensures 0.0 <= o.width ==> 0 <= r.x - p.x && (r.x - p.x) as real <= o.width < (r.x - p.x) as real + 1.0
    ensures o.width < 0.0 ==> r.x - p.x <= 0 && (r.x - p.x) as real - 1.0 < o.width <= (r.x - p.x) as real
    ensures 0.0 <= o.height ==> 0 <= p.y - r.y && (p.y - r.y) as real <= o.height < (p.y - r.y) as real + 1.0
    ensures o.height < 0.0 ==> p.y - r.y <= 0 && (p.y - r.y) as real - 1.0 < o.height <= (p.y - r.y) as real
  {
    Position(p.x + Trunc(o.width), p.y - Trunc(o.height))
  }

  /** `Position.in(_:)`: a document position as a point of a view whose centre is `center`. */
  function PositionIn(p: Position, center: Point): (r: Point)
    ensures Position(Trunc(r.x - center.x), Trunc(center.y - r.y)) == p
  {
    Point(center.x + p.x as real, center.y - p.y as real)
  }

  /** A zero translation does not move a position. */
  lemma PlusXMinusYZero(p: Position)
    ensures PlusXMinusY(p, ZeroOffset) == p
  {
  }

  /** Dragging by (10, -10) on screen from the origin lands on (10, 10). */
  lemma PlusXMinusYFromOrigin()
    ensures PlusXMinusY(Position.Zero, Offset(10.0, -10.0)) == Position(10, 10)
  {
  }

  /** Translating back by the negated offset restores the position. */
  lemma PlusXMinusYUndo(p: Position, o: Offset)
    ensures PlusXMinusY(PlusXMinusY(p, o), o.Negated()) == p
  {
    TruncNegated(o.width);
    TruncNegated(o.height);
  }

  /**
   * The Y flip of `+-` matches the one of `Position.in`: for a whole-pixel
   * translation, the moved position is shown exactly that translation away.
   */
  lemma PlusXMinusYFollowsScreen(p: Position, o: Offset, center: Point)
    requires o.width == o.width.Floor as real && o.height == o.height.Floor as real
    ensures PositionIn(PlusXMinusY(p, o), center)
         == Point(PositionIn(p, center).x + o.width, PositionIn(p, center).y + o.height)
  {
    TruncOfInt(o.width.Floor);
    TruncOfInt(o.height.Floor);
  }

  /** The document origin is shown at the centre of the view. */
  lemma ZeroIsShownAtCenter(center: Point)
    ensures PositionIn(Position.Zero, center) == center
  {
  }

  /** Distinct positions are shown at distinct points. */
  lemma PositionInInjective(p: Position, q: Position, center: Point)
    requires PositionIn(p, center) == PositionIn(q, center)
    ensures p == q
  {
  }

  // ---------------------------------------------------------------------
  // The per-emoji edits behind `move` and `resize`, on values.
  // ---------------------------------------------------------------------

  /** The two in-place edits the intents make to one stored emoji. */
  datatype Edit = MoveBy(offset: Offset) | ResizeBy(scale: real)

  /** The emoji after one edit: `position +- offset`, or `Int(CGFloat(size) * scale)`. */
  function Apply(e: Emoji, edit: Edit): Emoji {
    match edit
    case MoveBy(o) => e.(position := PlusXMinusY(e.position, o))
    case ResizeBy(scale) => e.(size := Trunc(e.size as real * scale))
  }

  /** The table after `move(emojiWith:by:)` or `resize(emojiWith:by:)` for id `id`. */
  function Edited(s: seq<Emoji>, id: int, edit: Edit): seq<Emoji> {
    match FirstIndex(s, id)
    case None => s
    case Some(i) => s[i := Apply(s[i], edit)]
  }

  /** The table after the same edit has been made to every emoji whose id is in `ids`. */
  function EditedWhere(s: seq<Emoji>, ids: set<int>, edit: Edit): (r: seq<Emoji>)
    ensures |r| == |s|
  {
    seq(|s|, i requires 0 <= i < |s| => if s[i].id in ids then Apply(s[i], edit) else s[i])
  }

  /** An edit keeps the id and the glyph; a move keeps the size and a resize the position. */
  lemma ApplyKeepsIdentity(e: Emoji, edit: Edit)
    ensures Apply(e, edit).id == e.id && Apply(e, edit).glyph == e.glyph
    ensures edit.MoveBy? ==> Apply(e, edit).size == e.size
    ensures edit.ResizeBy? ==> Apply(e, edit).position == e.position
  {
  }

  /**
   * An edit for an id that is not in the table changes nothing; otherwise
   * it rewrites the first emoji with that id, and only that one.
   */
  lemma EditedTouchesOnlyTarget(s: seq<Emoji>, id: int, edit: Edit)
    ensures id !in Ids(s) ==> Edited(s, id, edit) == s
    ensures |Edited(s, id, edit)| == |s|
    ensures forall j :: 0 <= j < |s| && s[j].id != id ==> Edited(s, id, edit)[j] == s[j]
    ensures id in Ids(s) && IdsDistinct(s) ==>
      forall j :: 0 <= j < |s| ==> Edited(s, id, edit)[j] == (if s[j].id == id then Apply(s[j], edit) else s[j])
  {
    FindIffPresent(s, id);
  }

  /** An edit is the `get` subscript followed by the `set` subscript of the edited value. */
  lemma EditedThroughSubscript(s: seq<Emoji>, emoji: Emoji, edit: Edit)
    ensures Edited(s, emoji.id, edit) == Replaced(s, emoji.id, Apply(Resolve(s, emoji), edit))
    ensures Apply(Resolve(s, emoji), edit).id == emoji.id
  {
  }

  /** A move by the zero translation, and a resize by the factor 1, leave the table as it was. */
  lemma IdentityEditsAreNoops(s: seq<Emoji>, id: int)
    ensures Edited(s, id, MoveBy(ZeroOffset)) == s
    ensures Edited(s, id, ResizeBy(1.0)) == s
  {
    match FirstIndex(s, id)
    case None =>
    case Some(i) =>
      TruncOfInt(s[i].size);
      assert s[i].size as real * 1.0 == s[i].size as real;
  }

  /** Edits keep the table invariant: they never change an id. */
  lemma EditedKeepsInvariant(s: seq<Emoji>, counter: int, id: int, edit: Edit)
    requires TableInvariant(s, counter)
    ensures TableInvariant(Edited(s, id, edit), counter)
  {
    var r := Edited(s, id, edit);
    assert forall j :: 0 <= j < |s| ==> r[j].id == s[j].id;
  }

  /**
   * With a positive factor a resize keeps a non-negative size non-negative;
   * a factor of at least 1 never shrinks it and a factor of at most 1 never
   * grows it.
   */
  lemma ResizeDirection(size: int, scale: real)
    requires 0 <= size && 0.0 < scale
    ensures 0 <= Trunc(size as real * scale)
    ensures 1.0 <= scale ==> size <= Trunc(size as real * scale)
    ensures scale <= 1.0 ==> Trunc(size as real * scale) <= size
  {
    var x := size as real;
    var y := x * scale;
    TruncOfInt(size);
    MulNonNegative(x, scale);
    TruncMonotone(0.0, y);
    if 1.0 <= scale {
      MulNonNegative(x, scale - 1.0);
      assert x * (scale - 1.0) == y - x;
      TruncMonotone(x, y);
    }
    if scale <= 1.0 {
      MulNonNegative(x, 1.0 - scale);
      assert x * (1.0 - scale) == x - y;
      TruncMonotone(y, x);
    }
  }

  /**
   * Making the edit to each selected id in turn, in any order, yields the
   * edit made to all of them at once: the step for one more id.
   */
  lemma EditedWhereStep(s: seq<Emoji>, done: set<int>, id: int, edit: Edit)
    requires IdsDistinct(s) && id !in done
    ensures Edited(EditedWhere(s, done, edit), id, edit) == EditedWhere(s, done + {id}, edit)
  {
    var t := EditedWhere(s, done, edit);
    var u := EditedWhere(s, done + {id}, edit);
    assert forall j :: 0 <= j < |s| ==> t[j].id == s[j].id;
    match FirstIndex(t, id)
    case None =>
      assert Edited(t, id, edit) == t;
      assert forall j :: 0 <= j < |s| ==> t[j] == u[j];
    case Some(i) =>
      assert t[i] == s[i];
      assert Edited(t, id, edit) == t[i := Apply(s[i], edit)];
      forall j | 0 <= j < |s| ensures t[i := Apply(s[i], edit)][j] == u[j] {
        if j != i {
          assert s[j].id != id;
        }
      }
  }

  /** Editing nothing changes nothing. */
  lemma EditedWhereNone(s: seq<Emoji>, edit: Edit)
    ensures EditedWhere(s, {}, edit) == s
  {
  }

  /** An edit made to a set of ids keeps the set of ids held. */
  lemma EditedWhereKeepsIds(s: seq<Emoji>, ids: set<int>, edit: Edit)
    ensures Ids(EditedWhere(s, ids, edit)) == Ids(s)
  {
    var r := EditedWhere(s, ids, edit);
    forall x | x in Ids(r) ensures x in Ids(s) {
      var i :| 0 <= i < |r| && r[i].id == x;
      assert s[i].id == x;
    }
    forall x | x in Ids(s) ensures x in Ids(r) {
      var i :| 0 <= i < |s| && s[i].id == x;
      assert r[i].id == x;
    }
  }

  /** An edit made to a set of ids keeps the table invariant. */
  lemma EditedWhereKeepsInvariant(s: seq<Emoji>, counter: int, ids: set<int>, edit: Edit)
    requires TableInvariant(s, counter)
    ensures TableInvariant(EditedWhere(s, ids, edit), counter)
  {
    var r := EditedWhere(s, ids, edit);
    assert forall j :: 0 <= j < |s| ==> r[j].id == s[j].id;
  }

  /** Adding an emoji at the origin to an empty table and dragging it by (10, -10) on screen puts it at (10, 10). */
  lemma AddThenMoveScenario(glyph: string)
    ensures Edited([Emoji(1, glyph, Position.Zero, 40)], 1, MoveBy(Offset(10.0, -10.0)))
         == [Emoji(1, glyph, Position(10, 10), 40)]
  {
    PlusXMinusYFromOrigin();
  }

  /** A pinch by 2 on a group doubles every selected size and leaves the others alone. */
  lemma GroupResizeByTwoDoubles(s: seq<Emoji>, ids: set<int>)
    ensures forall i :: 0 <= i < |s| ==>
      EditedWhere(s, ids, ResizeBy(2.0))[i].size == if s[i].id in ids then 2 * s[i].size else s[i].size
  {
    forall i | 0 <= i < |s| && s[i].id in ids
      ensures EditedWhere(s, ids, ResizeBy(2.0))[i].size == 2 * s[i].size
    {
      assert s[i].size as real * 2.0 == (2 * s[i].size) as real;
      TruncOfInt(2 * s[i].size);
    }
  }

  // ---------------------------------------------------------------------
  // The view model.
  // ---------------------------------------------------------------------

  class EmojiArtDocument {
    /** The private `emojiArt` value the intents edit. */
    const art: EmojiArt

    ghost predicate Valid()
      reads art
    {
      art.Valid()
    }

    /** `init()` of a document that starts empty (loading from disk is not modelled). */
    constructor ()
      ensures Valid() && fresh(art)
      ensures art.background == None && art.emojis == [] && art.uniqueEmojiId == 0
    {
      art := new EmojiArt();
    }

    /** `setBackground(_:)`: replace the background, nil included; the emojis are untouched. */
    method SetBackground(url: Option<Url>)
      requires Valid()
      modifies art
      ensures Valid()
      ensures art.background == url
      ensures art.emojis == old(art.emojis) && art.uniqueEmojiId == old(art.uniqueEmojiId)
    {
      art.background := url;
    }

    /** `addEmoji(_:at:size:)`: add an emoji whose size is the truncated CGFloat size. */
    method AddEmoji(glyph: string, position: Position, size: real)
      requires Valid()
      modifies art
      ensures Valid()
      ensures art.uniqueEmojiId == old(art.uniqueEmojiId) + 1
      ensures art.emojis == old(art.emojis) + [Emoji(art.uniqueEmojiId, glyph, position, Trunc(size))]
      ensures art.background == old(art.background)
    {
      art.AddEmoji(glyph, position, Trunc(size));
    }

    /** The private `move(_:by:)`: read the stored position through the subscript, write it back moved. */
    method MoveEmoji(emoji: Emoji, offset: Offset)
      requires Valid()
      modifies art
      ensures Valid()
      ensures art.emojis == Edited(old(art.emojis), emoji.id, MoveBy(offset))
      ensures art.uniqueEmojiId == old(art.uniqueEmojiId) && art.background == old(art.background)
    {
      ghost var before := art.emojis;
      EditedThroughSubscript(before, emoji, MoveBy(offset));
      var existing := art.Get(emoji);
      var existingPosition := existing.position;
      var stored := art.Get(emoji);
      var moved := stored.(position := PlusXMinusY(existingPosition, offset));
      assert moved == Apply(Resolve(before, emoji), MoveBy(offset));
      art.Set(emoji, moved);
      assert art.emojis == Edited(before, emoji.id, MoveBy(offset));
    }

    /** `move(emojiWith:by:)`: move the emoji with that id; a missing id is a no-op. */
    method Move(id: int, offset: Offset)
      requires Valid()
      modifies art
      ensures Valid()
      ensures art.emojis == Edited(old(art.emojis), id, MoveBy(offset))
      ensures id !in Ids(old(art.emojis)) ==> art.emojis == old(art.emojis)
      ensures art.uniqueEmojiId == old(art.uniqueEmojiId) && art.background == old(art.background)
    {
      EditedTouchesOnlyTarget(art.emojis, id, MoveBy(offset));
      var found := art.Lookup(id);
      if found.Some? {
        MoveEmoji(found.value, offset);
      }
    }

    /** The private `resize(_:by:)`: overwrite the stored size with `Int(CGFloat(size) * scale)`. */
    method ResizeEmoji(emoji: Emoji, scale: real)
      requires Valid()
      modifies art
      ensures Valid()
      ensures art.emojis == Edited(old(art.emojis), emoji.id, ResizeBy(scale))
      ensures art.uniqueEmojiId == old(art.uniqueEmojiId) && art.background == old(art.background)
    {
      ghost var before := art.emojis;
      EditedThroughSubscript(before, emoji, ResizeBy(scale));
      var current := art.Get(emoji);
      var stored := art.Get(emoji);
      var resized := stored.(size := Trunc(current.size as real * scale));
      assert resized == Apply(Resolve(before, emoji), ResizeBy(scale));
      art.Set(emoji, resized);
      assert art.emojis == Edited(before, emoji.id, ResizeBy(scale));
    }

    /** `resize(emojiWith:by:)`: resize the emoji with that id; a missing id is a no-op. */
    method Resize(id: int, scale: real)
      requires Valid()
      modifies art
      ensures Valid()
      ensures art.emojis == Edited(old(art.emojis), id, ResizeBy(scale))
      ensures id !in Ids(old(art.emojis)) ==> art.emojis == old(art.emojis)
      ensures art.uniqueEmojiId == old(art.uniqueEmojiId) && art.background == old(art.background)
    {
      EditedTouchesOnlyTarget(art.emojis, id, ResizeBy(scale));
      var found := art.Lookup(id);
      if found.Some? {
        ResizeEmoji(found.value, scale);
      }
    }

    /** `remove(emojiWith:)`: forward to the table. */
    method Remove(id: int)
      requires Valid()
      modifies art
      ensures Valid()
      ensures art.emojis == Removed(old(art.emojis), id)
      ensures id !in Ids(art.emojis)
      ensures art.uniqueEmojiId == old(art.uniqueEmojiId) && art.background == old(art.background)
    {
      art.Remove(id);
    }
  }
}
