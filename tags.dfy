/** core/tags.go: editing an item's tag list. Each edit that changes the
    list goes through `item_update`; the Go functions change the `*Item` they
    are given, which the model returns as `updated`. */
module Tags {

  import opened Common
  import opened Items
  import opened StoreFs
  import opened ItemUpdates

  /** `tags` with every occurrence of `tag` removed, the rest in order. */
  function Without(tags: seq<string>, tag: string): (r: seq<string>)
    ensures |r| <= |tags|
    ensures tag !in r
    ensures forall t :: t in r <==> t in tags && t != tag
  {
    if tags == [] then []
    else
      var rest := Without(tags[..|tags| - 1], tag);
      if tags[|tags| - 1] == tag then rest else rest + [tags[|tags| - 1]]
  }

  /** Removal distributes over concatenation, so the order of the remaining
      tags is kept. */
  lemma {:induction false} WithoutAppend(a: seq<string>, b: seq<string>, tag: string)
    ensures Without(a + b, tag) == Without(a, tag) + Without(b, tag)
    decreases |b|
  {
    if b == [] {
      assert a + b == a;
    } else {
      var ab := a + b;
      assert ab[..|ab| - 1] == a + b[..|b| - 1];
      WithoutAppend(a, b[..|b| - 1], tag);
    }
  }

  /** Removal shortens the list exactly when the tag was present. */
  lemma {:induction false} WithoutKeepsLengthIffAbsent(tags: seq<string>, tag: string)
    ensures |Without(tags, tag)| == |tags| <==> tag !in tags
    decreases |tags|
  {
    if tags != [] {
      var init := tags[..|tags| - 1];
      WithoutKeepsLengthIffAbsent(init, tag);
      assert tags == init + [tags[|tags| - 1]];
    }
  }

  /** A list without the tag is left as it is. */
  lemma {:induction false} WithoutAbsent(tags: seq<string>, tag: string)
    requires tag !in tags
    ensures Without(tags, tag) == tags
    decreases |tags|
  {
    if tags != [] {
      var init := tags[..|tags| - 1];
      WithoutAbsent(init, tag);
      assert tags == init + [tags[|tags| - 1]];
    }
  }

  /** `SetItemTags`: the list becomes exactly `tags`, then `item_update`. */
  method SetItemTags(s: Service, item: Item, tags: seq<string>) returns (updated: Item, err: Option<Error>)
    requires |item.Hash| >= 9
    modifies s.fs, s.index
    ensures updated == item.(Tags := tags)
    ensures old(CanUpdate(s, item.Hash)) ==>
              s.fs.files == old(s.fs.files)[MetaPath(s.root, item.Hash) := s.codec.encode(updated)] &&
              s.index.calls == old(s.index.calls) + [updated] && (err.None? <==> s.index.reachable)
    ensures !old(CanUpdate(s, item.Hash)) ==>
              err.Some? && s.fs.files == old(s.fs.files) && s.index.calls == old(s.index.calls)
  {
    updated := item.(Tags := tags);
    err := ItemUpdate(s, updated);
  }

  /** `AddTagToItem`: a present tag changes nothing and writes nothing;
      otherwise it is appended and the item goes through `item_update`. */
  method AddTagToItem(s: Service, item: Item, tag: string) returns (updated: Item, err: Option<Error>)
    requires |item.Hash| >= 9
    modifies s.fs, s.index
    ensures tag in item.Tags ==>
              updated == item && err.None? && unchanged(s.fs) && unchanged(s.index)
    ensures tag !in item.Tags ==> updated == item.(Tags := item.Tags + [tag])
    ensures tag !in item.Tags && old(CanUpdate(s, item.Hash)) ==>
              s.fs.files == old(s.fs.files)[MetaPath(s.root, item.Hash) := s.codec.encode(updated)] &&
              s.index.calls == old(s.index.calls) + [updated] && (err.None? <==> s.index.reachable)
    ensures tag !in item.Tags && !old(CanUpdate(s, item.Hash)) ==>
              err.Some? && s.fs.files == old(s.fs.files) && s.index.calls == old(s.index.calls)
  {
    var i := 0;
    while i < |item.Tags|
      invariant 0 <= i <= |item.Tags|
      invariant tag !in item.Tags[..i]
    {
      if item.Tags[i] == tag {
        return item, None;
      }
      i := i + 1;
    }
    assert item.Tags[..i] == item.Tags;
    updated := item.(Tags := item.Tags + [tag]);
    err := ItemUpdate(s, updated);
  }

  /** `RemoveTagFromItem`: an empty list or an absent tag changes nothing and
      writes nothing; otherwise every occurrence is removed and the item goes
      through `item_update`. */
  method RemoveTagFromItem(s: Service, item: Item, tag: string) returns (updated: Item, err: Option<Error>)
    requires |item.Hash| >= 9
    modifies s.fs, s.index
    ensures tag !in item.Tags ==>
              updated == item && err.None? && unchanged(s.fs) && unchanged(s.index)
    ensures tag in item.Tags ==> updated == item.(Tags := Without(item.Tags, tag))
    ensures tag in item.Tags && old(CanUpdate(s, item.Hash)) ==>
              s.fs.files == old(s.fs.files)[MetaPath(s.root, item.Hash) := s.codec.encode(updated)] &&
              s.index.calls == old(s.index.calls) + [updated] && (err.None? <==> s.index.reachable)
    ensures tag in item.Tags && !old(CanUpdate(s, item.Hash)) ==>
              err.Some? && s.fs.files == old(s.fs.files) && s.index.calls == old(s.index.calls)
  {
    if |item.Tags| == 0 {
      return item, None;
    }
    var newTags: seq<string> := [];
    var i := 0;
    while i < |item.Tags|
      invariant 0 <= i <= |item.Tags|
      invariant newTags == Without(item.Tags[..i], tag)
    {
      assert item.Tags[..i + 1][..i] == item.Tags[..i];
      if item.Tags[i] != tag {
        newTags := newTags + [item.Tags[i]];
      }
      i := i + 1;
    }
    assert item.Tags[..i] == item.Tags;
    WithoutKeepsLengthIffAbsent(item.Tags, tag);
    if |newTags| == |item.Tags| {
      return item, None;
    }
    updated := item.(Tags := newTags);
    err := ItemUpdate(s, updated);
  }
}
