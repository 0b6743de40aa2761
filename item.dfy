/** The item record of core/item.go and core/new_item_interface.go: the
    item-type text codec, `Inspect` with the defaults it fills in, the
    content-hash format and the metadata merge used on re-import. */
module Items {

  import opened Common
  import opened Times

  // ---------------------------------------------------------------------------
  // ItemType

  /** `ItemType` is a Go `uint16`. */
  type ItemType = x: int | 0 <= x < 0x1_0000

  const ItemTypeUnknown: ItemType := 0
  const ItemTypePhoto: ItemType := 1
  const ItemTypeVideo: ItemType := 2
  const ItemTypeTag: ItemType := 3

  const UnknownName: string := "<unknown>"

  function String(i: ItemType): (s: string)
  {
    if i == ItemTypePhoto then "Photo"
    else if i == ItemTypeVideo then "Video"
    else if i == ItemTypeTag then "Tag"
    else UnknownName
  }

  /** `String` names exactly the three known types; every other value,
      Unknown (0) included, prints as "<unknown>". */
  lemma StringNames(i: ItemType)
    ensures i == ItemTypePhoto <==> String(i) == "Photo"
    ensures i == ItemTypeVideo <==> String(i) == "Video"
    ensures i == ItemTypeTag <==> String(i) == "Tag"
    ensures String(i) == UnknownName <==> !(1 <= i <= 3)
  {
  }

  function MarshalText(i: ItemType): (r: Result<string>)
    ensures r.Err? <==> String(i) == UnknownName
    ensures r.Err? ==> r.error == UnknownItemType
    ensures r.Ok? ==> r.value == String(i) && 1 <= i <= 3
  {
    var s := String(i);
    if s == UnknownName then Err(UnknownItemType) else Ok(s)
  }

  /** `(*ItemType).UnmarshalText`: the receiver's new value and the error.
      On unknown text the receiver keeps its value. */
  function UnmarshalText(b: string, receiver: ItemType): (r: (ItemType, Option<Error>))
    ensures r.1.None? <==> b in {"Photo", "Video", "Tag"}
    ensures r.1.Some? ==> r.1.value == UnknownItemType && r.0 == receiver
    ensures r.1.None? ==> String(r.0) == b
  {
    if b == "Photo" then (ItemTypePhoto, None)
    else if b == "Video" then (ItemTypeVideo, None)
    else if b == "Tag" then (ItemTypeTag, None)
    else (receiver, Some(UnknownItemType))
  }

  /** The text codec round-trips for every type `MarshalText` accepts. */
  lemma TextRoundTrip(i: ItemType, receiver: ItemType)
    requires MarshalText(i).Ok?
    ensures UnmarshalText(MarshalText(i).value, receiver) == (i, None)
  {
  }

  // ---------------------------------------------------------------------------
  // Item

  /** `LatLon`; the floats are modelled as reals. */
  datatype LatLon = LatLon(Lat: real, Lon: real)

  predicate LocationIsZero(l: LatLon) {
    l.Lat == 0.0 && l.Lon == 0.0
  }

  /** `Item`. `Deleted` and `Location` are Go pointers: `None` is nil. */
  datatype Item = Item(
    Type: ItemType,
    Mime: string,
    Hash: string,
    Name: string,
    Added: Time,
    Created: Time,
    Deleted: Option<Time>,
    Location: Option<LatLon>,
    Description: string,
    Tags: seq<string>,
    Meta: Bytes)

  /** An `io.ReadSeeker` as the data it delivers from offset 0, followed by
      clean end of file (`failure == None`) or by a read error. */
  datatype Stream = Stream(data: Bytes, failure: Option<Error>)

  /** An `Inspecter`'s `Inspect` as a function of the stream. */
  type Inspecter = Stream -> Result<Item>

  /** A SHA-1 digest is 20 bytes. */
  type Digest = b: Bytes | |b| == 20 witness seq(20, _ => 0)

  // ---------------------------------------------------------------------------
  // Content hash

  predicate IsLowerHex(c: char) {
    '0' <= c <= '9' || 'a' <= c <= 'f'
  }

  /** One lower-case hex digit. */
  function HexDigit(d: nat): (c: char)
    requires d < 16
    ensures IsLowerHex(c)
  {
    if d < 10 then ('0' as int + d) as char else ('a' as int + d - 10) as char
  }

  function HexByte(b: Byte): (s: string)
    ensures |s| == 2 && IsLowerHex(s[0]) && IsLowerHex(s[1])
  {
    [HexDigit(b / 16), HexDigit(b % 16)]
  }

  /** `fmt.Sprintf("%x", b)` of a byte slice. */
  function Hex(b: Bytes): (s: string)
    ensures |s| == 2 * |b|
    ensures forall i :: 0 <= i < |s| ==> IsLowerHex(s[i])
  {
    if b == [] then "" else HexByte(b[0]) + Hex(b[1..])
  }

  lemma HexByteInjective(x: Byte, y: Byte)
    requires HexByte(x) == HexByte(y)
    ensures x == y
  {
    assert HexDigit(x / 16) == HexDigit(y / 16);
    assert HexDigit(x % 16) == HexDigit(y % 16);
  }

  /** Different digests give different hex strings. */
  lemma {:induction false} HexInjective(a: Bytes, b: Bytes)
    requires |a| == |b|
    requires Hex(a) == Hex(b)
    ensures a == b
  {
    if a != [] {
      assert Hex(a)[..2] == HexByte(a[0]);
      assert Hex(b)[..2] == HexByte(b[0]);
      HexByteInjective(a[0], b[0]);
      assert Hex(a)[2..] == Hex(a[1..]);
      assert Hex(b)[2..] == Hex(b[1..]);
      HexInjective(a[1..], b[1..]);
      assert a == [a[0]] + a[1..];
      assert b == [b[0]] + b[1..];
    }
  }

  const HashPrefix: string := "sha1-"

  /** `generateHash`: the digest of the whole stream, read from offset 0. */
  function GenerateHash(r: Stream, sha1: Bytes -> Digest): (h: Result<string>)
    ensures h.Err? <==> r.failure.Some?
    ensures h.Err? ==> h.error == r.failure.value
  {
    if r.failure.Some? then Err(r.failure.value) else Ok(HashPrefix + Hex(sha1(r.data)))
  }

  /** The shape of every hash the importer produces: "sha1-" and then 40
      lower-case hex digits. */
  predicate WellFormedHash(h: string) {
    |h| == 45 && h[..5] == HashPrefix && forall i :: 5 <= i < 45 ==> IsLowerHex(h[i])
  }

  lemma GenerateHashFormat(r: Stream, sha1: Bytes -> Digest)
    requires GenerateHash(r, sha1).Ok?
    ensures WellFormedHash(GenerateHash(r, sha1).value)
  {
    var h := GenerateHash(r, sha1).value;
    assert h[..5] == HashPrefix;
    assert forall i :: 5 <= i < 45 ==> h[i] == Hex(sha1(r.data))[i - 5];
  }

  /** Two streams get the same hash exactly when their digests agree. */
  lemma GenerateHashIdentifiesDigest(r1: Stream, r2: Stream, sha1: Bytes -> Digest)
    requires GenerateHash(r1, sha1).Ok? && GenerateHash(r2, sha1).Ok?
    ensures GenerateHash(r1, sha1) == GenerateHash(r2, sha1) <==> sha1(r1.data) == sha1(r2.data)
  {
    if GenerateHash(r1, sha1) == GenerateHash(r2, sha1) {
      var h1, h2 := Hex(sha1(r1.data)), Hex(sha1(r2.data));
      assert (HashPrefix + h1)[5..] == h1;
      assert (HashPrefix + h2)[5..] == h2;
      HexInjective(sha1(r1.data), sha1(r2.data));
    }
  }

  // ---------------------------------------------------------------------------
  // Inspect

  /** `Inspect`: run the inspecter registered for the MIME type, hash the
      stream, then fill in the defaults. The two clock readings are
      `AdjustTime(time.Now())` at the two places the Go code reads the clock. */
  function Inspect(mime: string, name: string, rd: Stream,
                   registry: map<string, Inspecter>, sha1: Bytes -> Digest,
                   createdNow: Clock, addedNow: Clock): (r: Result<Item>)
    ensures mime !in registry ==> r == Err(UnknownMimeType)
    ensures mime in registry && registry[mime](rd).Err? ==> r == Err(registry[mime](rd).error)
    ensures mime in registry && registry[mime](rd).Ok? && rd.failure.Some? ==> r == Err(rd.failure.value)
    ensures r.Ok? <==> mime in registry && registry[mime](rd).Ok? && rd.failure.None?
    ensures r.Ok? ==>
      var found := registry[mime](rd).value;
      && r.value.Mime == mime
      && r.value.Name == name
      && r.value.Hash == GenerateHash(rd, sha1).value
      && r.value.Added == addedNow
      && r.value.Location.Some?
      && !IsZero(r.value.Created)
      && (found.Location.Some? ==> r.value.Location == found.Location)
      && (!IsZero(found.Created) ==> r.value.Created == found.Created)
      && r.value.Type == found.Type && r.value.Meta == found.Meta
      && r.value.Tags == found.Tags && r.value.Description == found.Description
      && r.value.Deleted == found.Deleted
  {
    if mime !in registry then Err(UnknownMimeType)
    else
      var inspected := registry[mime](rd);
      var hash := if inspected.Ok? then GenerateHash(rd, sha1) else Err(inspected.error);
      if inspected.Err? then Err(inspected.error)
      else if hash.Err? then Err(hash.error)
      else
        var item := inspected.value;
        Ok(item.(
          Hash := hash.value,
          Mime := mime,
          Name := name,
          Created := if IsZero(item.Created) then createdNow else item.Created,
          Location := if item.Location.None? then Some(LatLon(0.0, 0.0)) else item.Location,
          Added := addedNow))
  }

  /** Every item `Inspect` produces carries a well-formed hash. */
  lemma InspectHashFormat(mime: string, name: string, rd: Stream,
                          registry: map<string, Inspecter>, sha1: Bytes -> Digest,
                          createdNow: Clock, addedNow: Clock)
    requires Inspect(mime, name, rd, registry, sha1, createdNow, addedNow).Ok?
    ensures WellFormedHash(Inspect(mime, name, rd, registry, sha1, createdNow, addedNow).value.Hash)
  {
    GenerateHashFormat(rd, sha1);
  }

  // ---------------------------------------------------------------------------
  // mergeItemData

  /** What `mergeItemData` demands: it calls `IsZero` through the new item's
      Location pointer, and through the previous one's when the new one is zero. */
  predicate MergeReady(newItem: Item, prevItem: Item) {
    newItem.Location.Some? &&
    (LocationIsZero(newItem.Location.value) ==> prevItem.Location.Some?)
  }

  /** `mergeItemData(newItem, prevItem)`: the new item after the merge. */
  function MergeItemData(newItem: Item, prevItem: Item): (r: Item)
    requires MergeReady(newItem, prevItem)
    // user-owned fields always come from the stored record
    ensures r.Added == prevItem.Added
    ensures r.Description == prevItem.Description
    ensures r.Name == prevItem.Name
    // capture data falls back to the stored record only when the new one is empty
    ensures r.Created == (if IsZero(newItem.Created) then prevItem.Created else newItem.Created)
    ensures !LocationIsZero(newItem.Location.value) ==> r.Location == newItem.Location
    ensures LocationIsZero(newItem.Location.value) ==>
              r.Location == (if LocationIsZero(prevItem.Location.value) then newItem.Location else prevItem.Location)
    // tags: previous first, then new, nothing removed and nothing deduplicated
    ensures r.Tags == prevItem.Tags + newItem.Tags
    // everything the inspection found about the content is kept
    ensures r.Type == newItem.Type && r.Mime == newItem.Mime && r.Hash == newItem.Hash
    ensures r.Deleted == newItem.Deleted && r.Meta == newItem.Meta
  {
    var created := if IsZero(newItem.Created) && !IsZero(prevItem.Created) then prevItem.Created else newItem.Created;
    var location :=
      if LocationIsZero(newItem.Location.value) && !LocationIsZero(prevItem.Location.value)
      then prevItem.Location else newItem.Location;
    var tags :=
      if |prevItem.Tags| > 0 then
        (if |newItem.Tags| > 0 then prevItem.Tags + newItem.Tags else prevItem.Tags)
      else newItem.Tags;
    newItem.(Added := prevItem.Added, Created := created, Location := location,
             Description := prevItem.Description, Tags := tags, Name := prevItem.Name)
  }

  /** Merging again against the same stored record changes nothing but the
      tags, which repeat the stored ones: the merge does not deduplicate. */
  lemma {:induction false} MergeTwiceRepeatsTags(newItem: Item, prevItem: Item)
    requires MergeReady(newItem, prevItem)
    ensures MergeReady(MergeItemData(newItem, prevItem), prevItem)
    ensures MergeItemData(MergeItemData(newItem, prevItem), prevItem).Tags
            == prevItem.Tags + prevItem.Tags + newItem.Tags
    ensures MergeItemData(MergeItemData(newItem, prevItem), prevItem)
            == MergeItemData(newItem, prevItem).(Tags := prevItem.Tags + prevItem.Tags + newItem.Tags)
  {
    var once := MergeItemData(newItem, prevItem);
    assert once.Location.Some?;
  }
}
