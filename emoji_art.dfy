/**
 * The emoji-art document value: an optional background, the emojis in
 * paint order (later ones on top), and the counter from which new emoji
 * ids are drawn (EmojiArt/Models/EmojiArt.swift).
 */
module EmojiArtModel {
  import opened Wrappers

  /** A background image reference (Foundation's URL). */
  datatype Url = Url(address: string)

  /** `Emoji.Position`: integer document coordinates, Y pointing up. */
  datatype Position = Position(x: int, y: int)
  {
    static const Zero: Position := Position(0, 0)
  }

  /** `EmojiArt.Emoji`; `glyph` is the Swift field `string`. */
  datatype Emoji = Emoji(id: int, glyph: string, position: Position, size: int)

  // ---------------------------------------------------------------------
  // The table on values: lookup by id, and the three structural edits.
  // ---------------------------------------------------------------------

  /** The ids held by a sequence of emojis. */
  function Ids(s: seq<Emoji>): set<int> {
    set i | 0 <= i < |s| :: s[i].id
  }

  /** No two emojis share an id. */
  predicate IdsDistinct(s: seq<Emoji>) {
    forall i, j :: 0 <= i < j < |s| ==> s[i].id != s[j].id
  }

  /** Every id was handed out by a counter that now stands at `counter`. */
  predicate IdsIssuedBy(s: seq<Emoji>, counter: int) {
    forall i :: 0 <= i < |s| ==> 1 <= s[i].id <= counter
  }

  /** The invariant the table keeps between mutations. */
  predicate TableInvariant(s: seq<Emoji>, counter: int) {
    0 <= counter && IdsDistinct(s) && IdsIssuedBy(s, counter)
  }

  /** `emojis.firstIndex(where: { $0.id == id })`. */
  function FirstIndex(s: seq<Emoji>, id: int): (r: Option<nat>)
    ensures r.Some? ==> r.value < |s| && s[r.value].id == id
    ensures r.Some? ==> forall j :: 0 <= j < r.value ==> s[j].id != id
    ensures r.None? <==> forall j :: 0 <= j < |s| ==> s[j].id != id
  {
    if s == [] then None
    else if s[0].id == id then Some(0)
    else match FirstIndex(s[1..], id)
      case None => None
      case Some(k) => Some(k + 1)
  }

  /** `subscript(_ emojiId:)`: the stored emoji with that id, if any. */
  function Find(s: seq<Emoji>, id: int): Option<Emoji> {
    match FirstIndex(s, id)
    case None => None
    case Some(i) => Some(s[i])
  }

  /** The `get` of `subscript(_ emoji:)`: the stored emoji with the argument's id, else the argument. */
  function Resolve(s: seq<Emoji>, emoji: Emoji): Emoji {
    match FirstIndex(s, emoji.id)
    case None => emoji
    case Some(i) => s[i]
  }

  /** The `set` of `subscript(_ emoji:)`: overwrite the first emoji with id `id`, if any. */
  function Replaced(s: seq<Emoji>, id: int, v: Emoji): seq<Emoji> {
    match FirstIndex(s, id)
    case None => s
    case Some(i) => s[i := v]
  }

  /** `remove(emojiWith:)`: delete the first emoji with id `id`, if any. */
  function Removed(s: seq<Emoji>, id: int): seq<Emoji> {
    match FirstIndex(s, id)
    case None => s
    case Some(i) => s[..i] + s[i + 1..]
  }

  // ---------------------------------------------------------------------
  // Properties of the table operations.
  // ---------------------------------------------------------------------

  /** Lookup by id succeeds exactly for the ids present, and returns an emoji carrying that id. */
  lemma FindIffPresent(s: seq<Emoji>, id: int)
    ensures Find(s, id).None? <==> id !in Ids(s)
    ensures Find(s, id).Some? ==> Find(s, id).value.id == id && Find(s, id).value in s
  {
    if Find(s, id).None? {
      forall x | x in Ids(s) ensures x != id {
        var i :| 0 <= i < |s| && s[i].id == x;
      }
    } else {
      var i := FirstIndex(s, id).value;
      assert s[i].id in Ids(s);
    }
  }

  /** When ids are distinct, lookup by id returns the one emoji holding it. */
  lemma FindUnique(s: seq<Emoji>, j: nat)
    requires IdsDistinct(s) && j < |s|
    ensures Find(s, s[j].id) == Some(s[j])
  {
    var i := FirstIndex(s, s[j].id).value;
    assert !(i < j) && !(j < i);
  }

  /** The `get` subscript never changes the id it was asked about. */
  lemma ResolveKeepsId(s: seq<Emoji>, emoji: Emoji)
    ensures Resolve(s, emoji).id == emoji.id
    ensures FirstIndex(s, emoji.id).None? ==> Resolve(s, emoji) == emoji
  {
  }

  /** Writing back what the `get` subscript returned leaves the table unchanged. */
  lemma ReplaceWithResolvedIsNoop(s: seq<Emoji>, emoji: Emoji)
    ensures Replaced(s, emoji.id, Resolve(s, emoji)) == s
  {
  }

  /** After a write through the `set` subscript, a read sees the written value. */
  lemma FindAfterReplace(s: seq<Emoji>, id: int, v: Emoji)
    requires id in Ids(s) && v.id == id
    ensures Find(Replaced(s, id, v), id) == Some(v)
  {
    FindIffPresent(s, id);
    var i := FirstIndex(s, id).value;
    var t := s[i := v];
    assert t[i].id == id;
    var k := FirstIndex(t, id).value;
    assert !(k < i);
  }

  /** A write through the `set` subscript touches at most one slot. */
  lemma ReplacedTouchesOneSlot(s: seq<Emoji>, id: int, v: Emoji)
    ensures |Replaced(s, id, v)| == |s|
    ensures forall j :: 0 <= j < |s| && s[j].id != id ==> Replaced(s, id, v)[j] == s[j]
    ensures id !in Ids(s) ==> Replaced(s, id, v) == s
  {
    FindIffPresent(s, id);
  }

  /** Appending an emoji with the freshly bumped counter keeps the invariant. */
  lemma AppendFreshKeepsInvariant(s: seq<Emoji>, counter: int, e: Emoji)
    requires TableInvariant(s, counter) && e.id == counter + 1
    ensures TableInvariant(s + [e], counter + 1)
    ensures e.id !in Ids(s)
  {
    forall x | x in Ids(s) ensures x <= counter {
      var i :| 0 <= i < |s| && s[i].id == x;
    }
  }

  /** A write that keeps the id of the slot it overwrites keeps the invariant. */
  lemma ReplaceSameIdKeepsInvariant(s: seq<Emoji>, counter: int, id: int, v: Emoji)
    requires TableInvariant(s, counter) && v.id == id
    ensures TableInvariant(Replaced(s, id, v), counter)
  {
  }

  /** Removal keeps the invariant; the counter is left where it was. */
  lemma RemoveKeepsInvariant(s: seq<Emoji>, counter: int, id: int)
    requires TableInvariant(s, counter)
    ensures TableInvariant(Removed(s, id), counter)
  {
    match FirstIndex(s, id)
    case None =>
    case Some(i) =>
      var r := s[..i] + s[i + 1..];
      forall a, b | 0 <= a < b < |r| ensures r[a].id != r[b].id {
        var a', b' := if a < i then a else a + 1, if b < i then b else b + 1;
        assert r[a] == s[a'] && r[b] == s[b'];
      }
  }

  /** Removal of an absent id is a no-op; removal of a present one shortens the table by one. */
  lemma RemovedDeletesOne(s: seq<Emoji>, id: int)
    ensures id !in Ids(s) ==> Removed(s, id) == s
    ensures id in Ids(s) ==> |Removed(s, id)| == |s| - 1
  {
    FindIffPresent(s, id);
  }

  /** The emojis after the removed slot move down by one; those before it stay put. */
  lemma RemovedAt(s: seq<Emoji>, i: nat, a: nat)
    requires i < |s| && a < |s| - 1
    ensures (s[..i] + s[i + 1..])[a] == s[if a < i then a else a + 1]
  {
  }

  /** With distinct ids, removal takes exactly the removed id out of the set of ids. */
  lemma RemovedDropsId(s: seq<Emoji>, id: int)
    requires IdsDistinct(s)
    ensures Ids(Removed(s, id)) == Ids(s) - {id}
  {
    FindIffPresent(s, id);
    match FirstIndex(s, id)
    case None =>
    case Some(i) =>
      var r := s[..i] + s[i + 1..];
      forall x | x in Ids(r) ensures x in Ids(s) - {id} {
        var a :| 0 <= a < |r| && r[a].id == x;
        RemovedAt(s, i, a);
        var a' := if a < i then a else a + 1;
        assert s[a'].id in Ids(s);
      }
      forall x | x in Ids(s) - {id} ensures x in Ids(r) {
        var a :| 0 <= a < |s| && s[a].id == x;
        var a' := if a < i then a else a - 1;
        RemovedAt(s, i, a');
        assert r[a'].id in Ids(r);
      }
  }

  /**
   * Ids are never reused: after any removal, the id the next addition
   * hands out differs from every id the table has ever issued.
   */
  lemma NextIdIsNeverReused(s: seq<Emoji>, counter: int, removedId: int)
    requires TableInvariant(s, counter) && removedId in Ids(s)
    ensures counter + 1 !in Ids(Removed(s, removedId))
    ensures counter + 1 != removedId
  {
    RemoveKeepsInvariant(s, counter, removedId);
    var r := Removed(s, removedId);
    forall x | x in Ids(r) ensures x <= counter {
      var i :| 0 <= i < |r| && r[i].id == x;
    }
    var k :| 0 <= k < |s| && s[k].id == removedId;
  }

  // ---------------------------------------------------------------------
  // The mutable table, as the Swift struct's mutating members.
  // ---------------------------------------------------------------------

  class EmojiArt {
    var background: Option<Url>
    var emojis: seq<Emoji>
    var uniqueEmojiId: int

    ghost predicate Valid()
      reads this
    {
      TableInvariant(emojis, uniqueEmojiId)
    }

    /** `EmojiArt()`: no background, no emojis, counter at zero. */
    constructor ()
      ensures Valid()
      ensures background == None && emojis == [] && uniqueEmojiId == 0
    {
      background := None;
      emojis := [];
      uniqueEmojiId := 0;
    }

    /** `addEmoji(_:at:size:)`: bump the counter, then append an emoji carrying it. */
    method AddEmoji(glyph: string, position: Position, size: int)
      requires Valid()
      modifies this
      ensures Valid()
      ensures uniqueEmojiId == old(uniqueEmojiId) + 1
      ensures emojis == old(emojis) + [Emoji(uniqueEmojiId, glyph, position, size)]
      ensures uniqueEmojiId !in Ids(old(emojis))
      ensures background == old(background)
    {
      AppendFreshKeepsInvariant(emojis, uniqueEmojiId, Emoji(uniqueEmojiId + 1, glyph, position, size));
      uniqueEmojiId := uniqueEmojiId + 1;
      emojis := emojis + [Emoji(uniqueEmojiId, glyph, position, size)];
    }

    /** `index(of:)`: a linear scan for the first emoji with the id. */
    method IndexOf(id: int) returns (r: Option<nat>)
      ensures r == FirstIndex(emojis, id)
    {
      var i := 0;
      while i < |emojis|
        invariant 0 <= i <= |emojis|
        invariant forall j :: 0 <= j < i ==> emojis[j].id != id
      {
        if emojis[i].id == id {
          return Some(i);
        }
        i := i + 1;
      }
      return None;
    }

    /** `subscript(_ emojiId:)`: the stored emoji with that id, or nil. */
    method Lookup(id: int) returns (r: Option<Emoji>)
      ensures r == Find(emojis, id)
      ensures r.None? <==> id !in Ids(emojis)
    {
      FindIffPresent(emojis, id);
      var index := IndexOf(id);
      if index.Some? {
        r := Some(emojis[index.value]);
      } else {
        r := None;
      }
    }

    /** The `get` of `subscript(_ emoji:)`: the stored emoji with the argument's id, else the argument. */
    method Get(emoji: Emoji) returns (r: Emoji)
      ensures r == Resolve(emojis, emoji)
      ensures r.id == emoji.id
    {
      var index := IndexOf(emoji.id);
      if index.Some? {
        r := emojis[index.value];
      } else {
        r := emoji;
      }
    }

    /** The `set` of `subscript(_ emoji:)`: overwrite the first emoji with the argument's id, if any. */
    method Set(emoji: Emoji, newValue: Emoji)
      modifies this
      ensures emojis == Replaced(old(emojis), emoji.id, newValue)
      ensures old(Valid()) && newValue.id == emoji.id ==> Valid()
      ensures uniqueEmojiId == old(uniqueEmojiId) && background == old(background)
    {
      if old(Valid()) && newValue.id == emoji.id {
        ReplaceSameIdKeepsInvariant(emojis, uniqueEmojiId, emoji.id, newValue);
      }
      var index := IndexOf(emoji.id);
      if index.Some? {
        emojis := emojis[index.value := newValue];
      }
    }

    /** `remove(emojiWith:)`: delete the first emoji with the id; the counter is untouched. */
    method Remove(id: int)
      requires Valid()
      modifies this
      ensures Valid()
      ensures emojis == Removed(old(emojis), id)
      ensures id !in Ids(emojis)
      ensures uniqueEmojiId == old(uniqueEmojiId) && background == old(background)
    {
      RemoveKeepsInvariant(emojis, uniqueEmojiId, id);
      RemovedDropsId(emojis, id);
      var index := IndexOf(id);
      if index.Some? {
        emojis := emojis[..index.value] + emojis[index.value + 1..];
      }
    }
  }
}
