/** types/tag/tag.go: the inspecter for tag items, whose content is the tag's
    slug on its first line, read through a 512-byte `bufio.Reader`. */
module TagType {

  import opened Common
  import opened Items

  /** `TAG_SIZE_MAX`: the size of the read buffer, and so of the longest slug. */
  const TagSizeMax: nat := 512

  const LF: Byte := 10
  const CR: Byte := 13

  function Min(a: int, b: int): int {
    if a <= b then a else b
  }

  /** The offset of the first line feed. */
  function NewlineIndex(b: Bytes): (r: Option<nat>)
    ensures r.Some? ==> r.value < |b| && b[r.value] == LF && LF !in b[..r.value]
    ensures r.None? ==> LF !in b
  {
    if b == [] then None
    else if b[0] == LF then Some(0)
    else
      match NewlineIndex(b[1..])
      case None => None
      case Some(k) =>
        assert b[..k + 1] == [b[0]] + b[1..][..k];
        Some(k + 1)
  }

  /** A line feed after a run without one is found there. */
  lemma {:induction false} NewlineIndexAfter(line: Bytes, rest: Bytes)
    requires LF !in line
    ensures NewlineIndex(line + [LF] + rest) == Some(|line|)
    decreases |line|
  {
    if line != [] {
      assert (line + [LF] + rest)[1..] == line[1..] + [LF] + rest;
      NewlineIndexAfter(line[1..], rest);
    }
  }

  /** `bufio.Reader.ReadLine` on a fresh reader of this size: the bytes
      before the first line feed within the buffer, without the line
      terminator ("\n" or "\r\n"). A full buffer with no line feed gives the
      whole buffer (less a final "\r", kept back for the next call); the
      prefix flag is not looked at. At the end of the data without a line
      feed, what was read is the line and the read error is dropped, unless
      nothing was read. */
  function ReadLine(s: Stream): (r: Result<Bytes>)
    ensures s.data == [] ==> r == Err(if s.failure.Some? then s.failure.value else Eof)
    ensures r.Ok? ==> |r.value| <= TagSizeMax && LF !in r.value && r.value <= s.data
  {
    var window := s.data[..Min(|s.data|, TagSizeMax)];
    match NewlineIndex(window)
    case Some(k) =>
      if k > 0 && window[k - 1] == CR then Ok(window[..k - 1]) else Ok(window[..k])
    case None =>
      if |s.data| >= TagSizeMax then
        if window[TagSizeMax - 1] == CR then Ok(window[..TagSizeMax - 1]) else Ok(window)
      else if |s.data| == 0 then Err(if s.failure.Some? then s.failure.value else Eof)
      else Ok(s.data)
  }

  /** A slug written on its own line, with "\n" or "\r\n", reads back. */
  lemma SlugRoundTrip(slug: Bytes, rest: Bytes, failure: Option<Error>)
    requires |slug| < TagSizeMax && LF !in slug
    requires slug == [] || slug[|slug| - 1] != CR
    ensures ReadLine(Stream(slug + [LF] + rest, failure)) == Ok(slug)
    ensures |slug| + 1 < TagSizeMax ==> ReadLine(Stream(slug + [CR, LF] + rest, failure)) == Ok(slug)
  {
    var data := slug + [LF] + rest;
    var window := data[..Min(|data|, TagSizeMax)];
    assert window == slug + [LF] + window[|slug| + 1..];
    NewlineIndexAfter(slug, window[|slug| + 1..]);
    assert window[..|slug|] == slug;
    if |slug| + 1 < TagSizeMax {
      var crlf := slug + [CR, LF] + rest;
      var w := crlf[..Min(|crlf|, TagSizeMax)];
      assert w == (slug + [CR]) + [LF] + w[|slug| + 2..];
      assert LF !in slug + [CR];
      NewlineIndexAfter(slug + [CR], w[|slug| + 2..]);
      assert w[|slug|] == CR;
      assert w[..|slug|] == slug;
    }
  }

  /** A first line longer than the buffer is cut to its first 512 bytes. */
  lemma LongLineIsCut(data: Bytes, failure: Option<Error>)
    requires |data| >= TagSizeMax && LF !in data[..TagSizeMax] && data[TagSizeMax - 1] != CR
    ensures ReadLine(Stream(data, failure)) == Ok(data[..TagSizeMax])
  {
  }

  /** A last line without a line feed is read whole, even when the stream
      then fails. */
  lemma LastLineIgnoresFailure(data: Bytes, failure: Option<Error>)
    requires 0 < |data| < TagSizeMax && LF !in data
    ensures ReadLine(Stream(data, failure)) == Ok(data)
  {
    assert data[..Min(|data|, TagSizeMax)] == data;
  }

  /** `Tag.Inspect`: an item of type Tag whose Meta holds the slug. */
  function InspectTag(s: Stream, encode: string -> Bytes): (r: Result<Item>)
    ensures r.Err? <==> ReadLine(s).Err?
    ensures r.Err? ==> r.error == ReadLine(s).error
    ensures r.Ok? ==> r.value.Type == ItemTypeTag && r.value.Meta == encode(BytesToString(ReadLine(s).value))
  {
    match ReadLine(s)
    case Err(e) => Err(e)
    case Ok(line) =>
      Ok(Item(ItemTypeTag, "", "", "", 0, 0, None, None, "", [], encode(BytesToString(line))))
  }

  /** `Tag`: the inspecter's record. */
  class Tag {
    var Slug: string

    constructor ()
      ensures Slug == ""
    {
      Slug := "";
    }

    /** `Inspect`: the slug is kept on the record only when a line was read. */
    method Inspect(s: Stream, encode: string -> Bytes) returns (item: Result<Item>)
      modifies this
      ensures item == InspectTag(s, encode)
      ensures item.Ok? ==> Slug == BytesToString(ReadLine(s).value)
      ensures item.Err? ==> Slug == old(Slug)
    {
      var name := ReadLine(s);
      if name.Err? {
        return Err(name.error);
      }
      Slug := BytesToString(name.value);
      item := Ok(Item(ItemTypeTag, "", "", "", 0, 0, None, None, "", [], encode(Slug)));
    }

    /** `EnsureMeta`: the record is decoded from the item's Meta only when
        there is no slug yet. */
    method EnsureMeta(i: Item, decode: Bytes -> Result<string>) returns (err: Option<Error>)
      modifies this
      ensures old(Slug) != "" ==> err.None? && Slug == old(Slug)
      ensures old(Slug) == "" && decode(i.Meta).Ok? ==> err.None? && Slug == decode(i.Meta).value
      ensures old(Slug) == "" && decode(i.Meta).Err? ==> err == Some(decode(i.Meta).error) && Slug == old(Slug)
    {
      if Slug != "" {
        return None;
      }
      var m := decode(i.Meta);
      if m.Err? {
        return Some(m.error);
      }
      Slug := m.value;
      err := None;
    }
  }
}
