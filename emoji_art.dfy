/**
 * The document value of the editor (`EmojiArt`): an optional background URL, the emojis placed
 * on the canvas in insertion order, and a private counter that hands out emoji ids.
 *
 * Every mutation looks an emoji up by id (the first emoji whose id matches) and changes it, or
 * appends, removes, or clears flags. The specification functions below give each mutation's
 * effect on the `emojis` sequence; the class `EmojiArt` implements the mutations in place and the
 * lemmas state what they promise, including that the id invariant `IdsValid` is kept.
 */
module EmojiArtModel {
  import opened Optional

  type URL = string

  datatype Emoji = Emoji(
    id: int,
    text: string,
    x: int,
    y: int,
    size: int,
    isSelected: bool,
    isReadyToRemove: bool)

  /**
   * The emoji initializer: the emoji carries the given id, text, position and size, and both
   * flags start out false.
   */
  function NewEmoji(text: string, x: int, y: int, size: int, id: int): (e: Emoji)
    ensures e.id == id && e.text == text && e.x == x && e.y == y && e.size == size
    ensures !e.isSelected && !e.isReadyToRemove
  {
    Emoji(id, text, x, y, size, false, false)
  }

  function Ids(es: seq<Emoji>): seq<int> {
    seq(|es|, i requires 0 <= i < |es| => es[i].id)
  }

  ghost predicate UniqueIds(es: seq<Emoji>) {
    forall i, j :: 0 <= i < j < |es| ==> es[i].id != es[j].id
  }

  /**
   * The document's id invariant: ids strictly increase in array order, and each lies between 1
   * and the counter, which never goes below its initial 0.
   */
  ghost predicate IdsValid(es: seq<Emoji>, counter: int) {
    && 0 <= counter
    && (forall i, j :: 0 <= i < j < |es| ==> es[i].id < es[j].id)
    && (forall i :: 0 <= i < |es| ==> 0 < es[i].id <= counter)
  }

  lemma ValidIdsAreUnique(es: seq<Emoji>, counter: int)
    requires IdsValid(es, counter)
    ensures UniqueIds(es)
  {
  }

  /** `firstIndex(matching:)`: the first index whose emoji carries the given id, if any. */
  function FirstIndex(es: seq<Emoji>, id: int): (r: Option<nat>)
    ensures r.Some? ==> r.value < |es| && es[r.value].id == id
    ensures r.Some? ==> forall j :: 0 <= j < r.value ==> es[j].id != id
    ensures r.None? <==> id !in Ids(es)
  {
    if es == [] then None
    else if es[0].id == id then
      assert Ids(es)[0] == id;
      Some(0)
    else
      match FirstIndex(es[1..], id)
      case None =>
        assert Ids(es) == [es[0].id] + Ids(es[1..]);
        None
      case Some(k) =>
        assert Ids(es)[k + 1] == id;
        Some(k + 1)
  }

  /** The lookup only looks at ids, so sequences with the same ids agree on it. */
  lemma {:induction false} FirstIndexFollowsIds(a: seq<Emoji>, b: seq<Emoji>, id: int)
    requires Ids(a) == Ids(b)
    ensures FirstIndex(a, id) == FirstIndex(b, id)
  {
    assert |a| == |Ids(a)| == |Ids(b)| == |b|;
    if a != [] {
      assert a[0].id == Ids(a)[0] == Ids(b)[0] == b[0].id;
      assert Ids(a[1..]) == Ids(a)[1..] == Ids(b)[1..] == Ids(b[1..]);
      FirstIndexFollowsIds(a[1..], b[1..], id);
    }
  }

  /**
   * The shape shared by every lookup-then-update operation:
   * `if let index = emojis.firstIndex(matching: emoji) { emojis[index] = edit(emojis[index]) }`.
   */
  function UpdateMatching(es: seq<Emoji>, id: int, edit: Emoji -> Emoji): seq<Emoji> {
    match FirstIndex(es, id)
    case None => es
    case Some(i) => es[i := edit(es[i])]
  }

  /**
   * With unique ids, exactly the emoji carrying the id is edited and every other emoji is left
   * as it was; when no emoji carries the id, nothing changes.
   */
  lemma UpdateMatchingEffect(es: seq<Emoji>, id: int, edit: Emoji -> Emoji)
    requires UniqueIds(es)
    ensures |UpdateMatching(es, id, edit)| == |es|
    ensures forall j :: 0 <= j < |es| ==>
      UpdateMatching(es, id, edit)[j] == if es[j].id == id then edit(es[j]) else es[j]
    ensures id !in Ids(es) ==> UpdateMatching(es, id, edit) == es
  {
    match FirstIndex(es, id)
    case None =>
      forall j | 0 <= j < |es| ensures es[j].id != id {
        assert Ids(es)[j] == es[j].id;
      }
    case Some(i) =>
      forall j | 0 <= j < |es| && j != i ensures es[j].id != id {
        assert es[i].id == id;
      }
  }

  /** An edit that keeps the id of the emoji it is given keeps every id of the sequence. */
  lemma UpdateMatchingKeepsIds(es: seq<Emoji>, id: int, edit: Emoji -> Emoji)
    requires forall e :: edit(e).id == e.id
    ensures Ids(UpdateMatching(es, id, edit)) == Ids(es)
  {
  }

  /** Sequences with the same ids satisfy the id invariant together. */
  lemma SameIdsKeepValid(a: seq<Emoji>, b: seq<Emoji>, counter: int)
    requires Ids(a) == Ids(b)
    requires IdsValid(a, counter)
    ensures IdsValid(b, counter)
  {
    assert |a| == |Ids(a)| == |Ids(b)| == |b|;
    forall i | 0 <= i < |b| ensures b[i].id == a[i].id {
      assert Ids(a)[i] == Ids(b)[i];
    }
  }

  function ToggleSelection(e: Emoji): Emoji {
    e.(isSelected := !e.isSelected)
  }

  function MarkReadyToRemove(e: Emoji): Emoji {
    e.(isReadyToRemove := true)
  }

  function ClearFlags(e: Emoji): Emoji {
    e.(isSelected := false, isReadyToRemove := false)
  }

  /** The effect of `toggleEmoji`. */
  function Toggled(es: seq<Emoji>, id: int): seq<Emoji> {
    UpdateMatching(es, id, ToggleSelection)
  }

  /** The effect of `readyToDeleteEmoji`. */
  function MarkedReady(es: seq<Emoji>, id: int): seq<Emoji> {
    UpdateMatching(es, id, MarkReadyToRemove)
  }

  /** The effect of `deleteEmoji`. */
  function Removed(es: seq<Emoji>, id: int): seq<Emoji> {
    match FirstIndex(es, id)
    case None => es
    case Some(i) => es[..i] + es[i + 1..]
  }

  /** The effect of `deselectAllEmojis`. */
  function Deselected(es: seq<Emoji>): seq<Emoji> {
    seq(|es|, i requires 0 <= i < |es| => ClearFlags(es[i]))
  }

  /**
   * Toggling flips `isSelected` of the emoji with the id and changes nothing else (no emoji at
   * all when the id is absent).
   */
  lemma ToggledFlipsOnlyMatch(es: seq<Emoji>, id: int)
    requires UniqueIds(es)
    ensures |Toggled(es, id)| == |es|
    ensures forall j :: 0 <= j < |es| ==>
      Toggled(es, id)[j] == if es[j].id == id then es[j].(isSelected := !es[j].isSelected) else es[j]
    ensures id !in Ids(es) ==> Toggled(es, id) == es
  {
    UpdateMatchingEffect(es, id, ToggleSelection);
  }

  /** Toggling the same id twice restores the original emojis. */
  lemma ToggledTwice(es: seq<Emoji>, id: int)
    ensures Toggled(Toggled(es, id), id) == es
  {
    UpdateMatchingKeepsIds(es, id, ToggleSelection);
    FirstIndexFollowsIds(es, Toggled(es, id), id);
  }

  /** Marking sets `isReadyToRemove` of the emoji with the id and changes nothing else. */
  lemma MarkedReadySetsOnlyMatch(es: seq<Emoji>, id: int)
    requires UniqueIds(es)
    ensures |MarkedReady(es, id)| == |es|
    ensures forall j :: 0 <= j < |es| ==>
      MarkedReady(es, id)[j] == if es[j].id == id then es[j].(isReadyToRemove := true) else es[j]
    ensures id !in Ids(es) ==> MarkedReady(es, id) == es
  {
    UpdateMatchingEffect(es, id, MarkReadyToRemove);
  }

  /** Marking is idempotent. */
  lemma MarkedReadyTwice(es: seq<Emoji>, id: int)
    ensures MarkedReady(MarkedReady(es, id), id) == MarkedReady(es, id)
  {
    UpdateMatchingKeepsIds(es, id, MarkReadyToRemove);
    FirstIndexFollowsIds(es, MarkedReady(es, id), id);
  }

  /**
   * With unique ids, deleting a present id drops exactly that emoji, keeping the others in their
   * order; deleting an absent id changes nothing.
   */
  lemma RemovedEffect(es: seq<Emoji>, id: int)
    requires UniqueIds(es)
    ensures id !in Ids(es) ==> Removed(es, id) == es
    ensures id in Ids(es) ==> |Removed(es, id)| == |es| - 1 && id !in Ids(Removed(es, id))
    ensures id in Ids(es) ==>
      exists i :: 0 <= i < |es| && es[i].id == id && Removed(es, id) == es[..i] + es[i + 1..]
    ensures forall e :: e in es && e.id != id ==> e in Removed(es, id)
  {
    match FirstIndex(es, id)
    case None =>
    case Some(i) =>
      var r := es[..i] + es[i + 1..];
      forall k | 0 <= k < |r| ensures r[k].id != id {
        if k < i {
          assert r[k] == es[k];
        } else {
          assert r[k] == es[k + 1];
        }
      }
      assert id !in Ids(r);
      forall e | e in es && e.id != id ensures e in r {
        var k :| 0 <= k < |es| && es[k] == e;
        if k < i {
          assert r[k] == e;
        } else {
          assert k != i;
          assert r[k - 1] == e;
        }
      }
  }

  /** With unique ids, deleting twice is deleting once. */
  lemma RemovedTwice(es: seq<Emoji>, id: int)
    requires UniqueIds(es)
    ensures Removed(Removed(es, id), id) == Removed(es, id)
  {
    RemovedEffect(es, id);
    RemovedEffect(Removed(es, id), id);
  }

  /**
   * Deselecting all clears both flags of every emoji and keeps the count, ids, texts, positions
   * and sizes.
   */
  lemma DeselectedClearsFlags(es: seq<Emoji>)
    ensures |Deselected(es)| == |es|
    ensures forall j :: 0 <= j < |es| ==>
      !Deselected(es)[j].isSelected && !Deselected(es)[j].isReadyToRemove
    ensures forall j :: 0 <= j < |es| ==>
      var d := Deselected(es)[j];
      d.id == es[j].id && d.text == es[j].text && d.x == es[j].x && d.y == es[j].y
      && d.size == es[j].size
  {
  }

  /** Deselecting all is idempotent. */
  lemma DeselectedTwice(es: seq<Emoji>)
    ensures Deselected(Deselected(es)) == Deselected(es)
  {
  }

  /** Appending an emoji whose id is the incremented counter keeps the id invariant. */
  lemma AppendNextIdKeepsValid(es: seq<Emoji>, counter: int, e: Emoji)
    requires IdsValid(es, counter)
    requires e.id == counter + 1
    ensures IdsValid(es + [e], counter + 1)
  {
  }

  /** Toggling keeps the id invariant. */
  lemma ToggledKeepsValid(es: seq<Emoji>, counter: int, id: int)
    requires IdsValid(es, counter)
    ensures IdsValid(Toggled(es, id), counter)
  {
    UpdateMatchingKeepsIds(es, id, ToggleSelection);
    SameIdsKeepValid(es, Toggled(es, id), counter);
  }

  /** Marking keeps the id invariant. */
  lemma MarkedReadyKeepsValid(es: seq<Emoji>, counter: int, id: int)
    requires IdsValid(es, counter)
    ensures IdsValid(MarkedReady(es, id), counter)
  {
    UpdateMatchingKeepsIds(es, id, MarkReadyToRemove);
    SameIdsKeepValid(es, MarkedReady(es, id), counter);
  }

  /** Deleting keeps the id invariant: what remains is still in increasing order. */
  lemma RemovedKeepsValid(es: seq<Emoji>, counter: int, id: int)
    requires IdsValid(es, counter)
    ensures IdsValid(Removed(es, id), counter)
  {
    match FirstIndex(es, id)
    case None =>
    case Some(i) =>
      RemoveAtKeepsValid(es, counter, i);
  }

  /** Dropping the emoji at one index keeps the id invariant. */
  lemma RemoveAtKeepsValid(es: seq<Emoji>, counter: int, i: nat)
    requires IdsValid(es, counter)
    requires i < |es|
    ensures IdsValid(es[..i] + es[i + 1..], counter)
  {
    var r := es[..i] + es[i + 1..];
    forall k | 0 <= k < |r| ensures r[k] == es[if k < i then k else k + 1] {
      if k < i {
        assert r[k] == es[..i][k];
      } else {
        assert r[k] == es[i + 1..][k - i];
      }
    }
    forall k, l | 0 <= k < l < |r| ensures r[k].id < r[l].id {
      var k', l' := if k < i then k else k + 1, if l < i then l else l + 1;
      assert r[k] == es[k'] && r[l] == es[l'] && k' < l';
    }
  }

  /** Deselecting all keeps the id invariant. */
  lemma DeselectedKeepsValid(es: seq<Emoji>, counter: int)
    requires IdsValid(es, counter)
    ensures IdsValid(Deselected(es), counter)
  {
  }

  /** The `EmojiArt` struct; its `mutating` functions become methods that update the fields. */
  class EmojiArt {
    var backgroundURL: Option<URL>
    var emojis: seq<Emoji>
    var uniqueEmojiId: int

    ghost predicate Valid()
      reads this
    {
      IdsValid(emojis, uniqueEmojiId)
    }

    /** `init()`: an empty document with the counter at 0. */
    constructor ()
      ensures Valid()
      ensures backgroundURL == None && emojis == [] && uniqueEmojiId == 0
    {
      backgroundURL := None;
      emojis := [];
      uniqueEmojiId := 0;
    }

    /** Pre-increments the counter and appends a new emoji carrying the new counter value. */
    method AddEmoji(text: string, x: int, y: int, size: int)
      modifies this`emojis, this`uniqueEmojiId
      ensures uniqueEmojiId == old(uniqueEmojiId) + 1
      ensures emojis == old(emojis) + [NewEmoji(text, x, y, size, uniqueEmojiId)]
      ensures old(Valid()) ==> Valid()
    {
      ghost var before := emojis;
      uniqueEmojiId := uniqueEmojiId + 1;
      emojis := emojis + [NewEmoji(text, x, y, size, uniqueEmojiId)];
      if IdsValid(before, uniqueEmojiId - 1) {
        AppendNextIdKeepsValid(before, uniqueEmojiId - 1, NewEmoji(text, x, y, size, uniqueEmojiId));
      }
    }

    method ToggleEmoji(emoji: Emoji)
      modifies this`emojis
      ensures emojis == Toggled(old(emojis), emoji.id)
      ensures old(Valid()) ==> Valid()
    {
      ghost var before := emojis;
      var index := FirstIndex(emojis, emoji.id);
      if index.Some? {
        var i := index.value;
        emojis := emojis[i := emojis[i].(isSelected := !emojis[i].isSelected)];
      }
      if IdsValid(before, uniqueEmojiId) {
        ToggledKeepsValid(before, uniqueEmojiId, emoji.id);
      }
    }

    method ReadyToDeleteEmoji(emoji: Emoji)
      modifies this`emojis
      ensures emojis == MarkedReady(old(emojis), emoji.id)
      ensures old(Valid()) ==> Valid()
    {
      ghost var before := emojis;
      var index := FirstIndex(emojis, emoji.id);
      if index.Some? {
        var i := index.value;
        emojis := emojis[i := emojis[i].(isReadyToRemove := true)];
      }
      if IdsValid(before, uniqueEmojiId) {
        MarkedReadyKeepsValid(before, uniqueEmojiId, emoji.id);
      }
    }

    method DeleteEmoji(emoji: Emoji)
      modifies this`emojis
      ensures emojis == Removed(old(emojis), emoji.id)
      ensures old(Valid()) ==> Valid()
    {
      ghost var before := emojis;
      var index := FirstIndex(emojis, emoji.id);
      if index.Some? {
        var i := index.value;
        emojis := emojis[..i] + emojis[i + 1..];
      }
      if IdsValid(before, uniqueEmojiId) {
        RemovedKeepsValid(before, uniqueEmojiId, emoji.id);
      }
    }

    /** Walks the indices, clearing both flags of each emoji in turn. */
    method DeselectAllEmojis()
      modifies this`emojis
      ensures emojis == Deselected(old(emojis))
      ensures old(Valid()) ==> Valid()
    {
      ghost var before := emojis;
      var count := |emojis|;
      for index := 0 to count
        invariant |emojis| == count
        invariant forall k :: 0 <= k < index ==> emojis[k] == ClearFlags(before[k])
        invariant forall k :: index <= k < count ==> emojis[k] == before[k]
      {
        emojis := emojis[index := emojis[index].(isSelected := false)];
        emojis := emojis[index := emojis[index].(isReadyToRemove := false)];
      }
      if IdsValid(before, uniqueEmojiId) {
        DeselectedKeepsValid(before, uniqueEmojiId);
      }
    }
  }
}
