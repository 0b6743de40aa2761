/** types/video/mp4.go: walking the top-level atoms of an MP4 file and
    decoding the fields of the "mvhd" atom, over a reader with a cursor. */
module Mp4 {

  import opened Common
  import opened Times
  import opened Items
  import opened Errors

  function Min(a: int, b: int): int {
    if a <= b then a else b
  }

  /** A big-endian unsigned integer (`binary.BigEndian.Uint32/Uint64`). */
  function BigEndian(b: seq<Byte>): (n: nat)
  {
    if b == [] then 0 else BigEndian(b[..|b| - 1]) * 256 + b[|b| - 1]
  }

  function Zeros(n: nat): (z: seq<Byte>)
    ensures |z| == n && forall i :: 0 <= i < n ==> z[i] == 0
  {
    seq(n, _ => 0)
  }

  // ---------------------------------------------------------------------------
  // the reader

  /** What a `Read` into a buffer of `k` bytes copies at `pos`. */
  function ReadCount(data: Bytes, pos: nat, k: nat): (n: nat)
    ensures pos < |data| ==> n == Min(k, |data| - pos)
    ensures pos >= |data| ==> n == 0
    ensures pos + n <= |data| || n == 0
  {
    if pos >= |data| then 0 else Min(k, |data| - pos)
  }

  /** What a buffer holding `prev` holds after a `Read` at `pos`, and how
      many bytes were copied; none at the end of the file. */
  function ReadAt(data: Bytes, pos: nat, prev: seq<Byte>): (r: Option<(seq<Byte>, nat)>)
    ensures r.None? <==> pos >= |data|
    ensures r.Some? ==> |r.value.0| == |prev| && r.value.1 == ReadCount(data, pos, |prev|)
  {
    if pos >= |data| then None
    else
      var n := Min(|prev|, |data| - pos);
      Some((data[pos..pos + n] + prev[n..], n))
  }

  /** The position a `Seek` is relative to: the start, the cursor or the end. */
  function SeekBase(whence: int, pos: nat, size: nat): nat {
    if whence == 0 then 0 else if whence == 1 then pos else size
  }

  /** An `io.ReadSeeker` over the file's bytes, as `*os.File` behaves: `Read`
      copies what is left up to the buffer's size (a short read is no error)
      and reports EOF only when nothing is left; a `Seek` to a negative
      position fails and leaves the cursor where it was; the cursor may pass
      the end. */
  class ReadSeeker {
    const data: Bytes
    var pos: nat

    constructor (data: Bytes)
      ensures this.data == data && pos == 0
    {
      this.data := data;
      pos := 0;
    }

    /** `Read` into a non-empty buffer (every buffer here is). */
    method Read(buff: array<Byte>) returns (n: nat, err: Option<Error>)
      requires buff.Length > 0
      modifies this, buff
      ensures n == ReadCount(data, old(pos), buff.Length)
      ensures err.Some? <==> old(pos) >= |data|
      ensures err.Some? ==> err.value == Eof
      ensures pos == old(pos) + n
      ensures old(pos) < |data| ==> buff[..n] == data[old(pos)..old(pos) + n]
      ensures buff[n..] == old(buff[n..])
      ensures old(pos) < |data| ==> ReadAt(data, old(pos), old(buff[..])) == Some((buff[..], n))
    {
      if pos >= |data| {
        return 0, Some(Eof);
      }
      n := Min(buff.Length, |data| - pos);
      forall i | 0 <= i < n {
        buff[i] := data[pos + i];
      }
      assert buff[..n] == data[pos..pos + n];
      assert buff[..] == buff[..n] + buff[n..];
      pos := pos + n;
      err := None;
    }

    /** `io.ReadFull` over this reader: nothing left is EOF; part of the
        buffer is an unexpected EOF with the cursor at the end (a second
        `Read` there would find nothing). */
    method ReadFull(buff: array<Byte>) returns (err: Option<Error>)
      requires buff.Length > 0
      modifies this, buff
      ensures old(pos) >= |data| ==> err == Some(Eof) && pos == old(pos)
      ensures old(pos) < |data| < old(pos) + buff.Length ==>
                err == Some(UnexpectedEof) && pos == |data|
      ensures old(pos) + buff.Length <= |data| ==>
                err.None? && pos == old(pos) + buff.Length && buff[..] == data[old(pos)..pos]
    {
      var n, e := Read(buff);
      if e.Some? {
        return e;
      }
      if n < buff.Length {
        return Some(UnexpectedEof);
      }
      assert buff[..] == buff[..n];
      err := None;
    }

    /** `Seek(offset, whence)` with whence 0 (start), 1 (cursor) or 2 (end). */
    method Seek(offset: int, whence: int) returns (abs: int, err: Option<Error>)
      modifies this
      ensures err.None? <==> 0 <= whence <= 2 && SeekBase(whence, old(pos), |data|) + offset >= 0
      ensures err.None? ==> pos == SeekBase(whence, old(pos), |data|) + offset && abs == pos
      ensures err.Some? ==> pos == old(pos) && abs == 0
    {
      var base := SeekBase(whence, pos, |data|);
      if !(0 <= whence <= 2) {
        return 0, Some(Message("Seek: invalid whence"));
      }
      if base + offset < 0 {
        return 0, Some(Message("Seek: negative position"));
      }
      pos := base + offset;
      abs := pos;
      err := None;
    }
  }

  // ---------------------------------------------------------------------------
  // mp4FindAtom

  /** What the search for an atom gives: its length and header size, an
      error, or, for the code as written, a search that never ends. */
  datatype FindOutcome = Found(length: nat, headerSize: nat) | Failed(err: Error) | Hung

  /** One round of the search loop: go on at a new cursor, or stop. */
  datatype Step = Continue(next: nat) | Stop(outcome: FindOutcome, cursor: nat)

  function AtomNotFound(atom: seq<Byte>): Error {
    Message("atom not found: " + BytesToString(atom))
  }

  /** `binary.BigEndian.Uint32` of four bytes, written out. */
  lemma BigEndian4(b: seq<Byte>)
    requires |b| == 4
    ensures BigEndian(b) == ((b[0] as int * 256 + b[1] as int) * 256 + b[2] as int) * 256 + b[3] as int
  {
    var b3 := b[..3];
    var b2 := b3[..2];
    var b1 := b2[..1];
    assert b1[..0] == [];
    assert BigEndian(b1) == b[0];
    assert BigEndian(b2) == b[0] as int * 256 + b[1] as int;
    assert BigEndian(b3) == (b[0] as int * 256 + b[1] as int) * 256 + b[2] as int;
  }

  lemma {:induction false} ZerosAreZero(n: nat)
    ensures BigEndian(Zeros(n)) == 0
  {
    if n > 0 {
      assert Zeros(n)[..n - 1] == Zeros(n - 1);
      ZerosAreZero(n - 1);
    }
  }

  /** One round of `mp4FindAtom` as written. The two 4-byte `Read`s into the
      same buffer may be short near the end of the file, leaving bytes of the
      length field in the name; the cursor is moved back by the full header
      size whatever was read (a move before the start fails and is ignored);
      an extended (64-bit) length is never read, so length 1 becomes length 0
      with a 16-byte header. */
  function StepAsWritten(data: Bytes, pos: nat, atom: seq<Byte>): Step {
    match HeaderAsWritten(data, pos)
    // the first read takes what is left (or fails), the second meets the end
    case None => Stop(Failed(Eof), if pos >= |data| then pos else |data|)
    case Some(h) => DecideAsWritten(h.0, h.1, h.2, atom)
  }

  /** The two reads of a round as written: the length, the name as the
      buffer holds it after the second read, and the cursor after it; none
      when a read fails. */
  function HeaderAsWritten(data: Bytes, pos: nat): (r: Option<(nat, seq<Byte>, nat)>)
    ensures r.None? <==> pos + 4 >= |data|
    ensures r.Some? ==> |r.value.1| == 4 && pos + 4 < r.value.2 <= |data|
  {
    if pos + 4 >= |data| then None
    else
      var lenBytes := data[pos..pos + 4];
      var n2 := Min(4, |data| - (pos + 4));
      Some((BigEndian(lenBytes), data[pos + 4..pos + 4 + n2] + lenBytes[n2..], pos + 4 + n2))
  }

  /** The rest of a round as written, once the header is read. */
  function DecideAsWritten(l: nat, name: seq<Byte>, afterHeader: nat, atom: seq<Byte>): Step {
    var headerSize := if l == 1 then 16 else 8;
    var length := if l == 1 then 0 else l;
    var cursor := if afterHeader - headerSize >= 0 then afterHeader - headerSize else afterHeader;
    if name == atom then Stop(Found(length, headerSize), cursor)
    else if length == 0 then Stop(Failed(AtomNotFound(atom)), cursor)
    else Continue(cursor + length)
  }

  /** `mp4FindAtom` as written, run for at most `fuel` rounds: the outcome and
      where the cursor is left. */
  function FindAsWritten(data: Bytes, pos: nat, atom: seq<Byte>, fuel: nat): (FindOutcome, nat)
    decreases fuel
  {
    if fuel == 0 then (Hung, pos)
    else
      match StepAsWritten(data, pos, atom)
      case Stop(o, c) => (o, c)
      case Continue(next) => FindAsWritten(data, next, atom, fuel - 1)
  }

  /** One round of the corrected search: the header is read in full, an
      extended length is read from the 8 bytes after the name, and the
      cursor is put back at the atom's start. */
  function StepFixed(data: Bytes, pos: nat, atom: seq<Byte>): (s: Step)
    ensures s.Continue? ==> pos + 8 <= |data| && s.next > pos
    ensures s.Stop? && s.outcome.Found? ==>
              && s.cursor == pos && pos + s.outcome.headerSize <= |data|
              && s.outcome.headerSize >= 8 && data[pos + 4..pos + 8] == atom
  {
    if pos >= |data| then Stop(Failed(Eof), pos)
    else if pos + 8 > |data| then Stop(Failed(UnexpectedEof), |data|)
    else
      var l := BigEndian(data[pos..pos + 4]);
      var name := data[pos + 4..pos + 8];
      if l == 1 && pos + 8 >= |data| then Stop(Failed(Eof), |data|)
      else if l == 1 && pos + 16 > |data| then Stop(Failed(UnexpectedEof), |data|)
      else
        var length := if l == 1 then BigEndian(data[pos + 8..pos + 16]) else l;
        var headerSize := if l == 1 then 16 else 8;
        if name == atom then Stop(Found(length, headerSize), pos)
        else if length == 0 then Stop(Failed(AtomNotFound(atom)), pos)
        else Continue(pos + length)
  }

  function Remaining(data: Bytes, pos: nat): nat {
    if pos <= |data| then |data| - pos + 1 else 0
  }

  /** The corrected `mp4FindAtom`: the outcome and where the cursor is left.
      It always ends, and what it finds is an atom of that name whose whole
      header lies in the file. */
  function FindAtomFrom(data: Bytes, pos: nat, atom: seq<Byte>): (r: (FindOutcome, nat))
    ensures !r.0.Hung?
    ensures r.0.Found? ==>
              && r.1 >= pos && r.1 + r.0.headerSize <= |data| && r.0.headerSize >= 8
              && data[r.1 + 4..r.1 + 8] == atom
    decreases Remaining(data, pos)
  {
    match StepFixed(data, pos, atom)
    case Stop(o, c) => (o, c)
    case Continue(next) => FindAtomFrom(data, next, atom)
  }

  /** Found at the cursor: a matching atom is returned even when its length
      is 0, since the name is checked before the length. */
  lemma FindMatchingAtom(data: Bytes, pos: nat, atom: seq<Byte>)
    requires pos + 8 <= |data| && data[pos + 4..pos + 8] == atom
    requires BigEndian(data[pos..pos + 4]) != 1
    ensures FindAtomFrom(data, pos, atom) == (Found(BigEndian(data[pos..pos + 4]), 8), pos)
  {
  }

  /** A non-matching atom is skipped by exactly its length, measured from its
      start; one of length 0 ends the search. */
  lemma FindSkipsOtherAtom(data: Bytes, pos: nat, atom: seq<Byte>)
    requires pos + 8 <= |data| && data[pos + 4..pos + 8] != atom
    requires BigEndian(data[pos..pos + 4]) != 1
    ensures BigEndian(data[pos..pos + 4]) == 0 ==> FindAtomFrom(data, pos, atom) == (Failed(AtomNotFound(atom)), pos)
    ensures BigEndian(data[pos..pos + 4]) > 1 ==>
              FindAtomFrom(data, pos, atom) == FindAtomFrom(data, pos + BigEndian(data[pos..pos + 4]), atom)
  {
  }

  /** At the end of the file the search fails with EOF. */
  lemma FindAtEnd(data: Bytes, pos: nat, atom: seq<Byte>)
    requires pos >= |data|
    ensures FindAtomFrom(data, pos, atom) == (Failed(Eof), pos)
    ensures FindAsWritten(data, pos, atom, 1) == (Failed(Eof), pos)
  {
  }

  /** The two agree on every atom with a full 8-byte header and an ordinary
      length: the corrections only concern truncated headers and extended
      lengths. */
  lemma StepsAgreeOnOrdinaryAtoms(data: Bytes, pos: nat, atom: seq<Byte>)
    requires pos + 8 <= |data| && BigEndian(data[pos..pos + 4]) != 1
    ensures StepAsWritten(data, pos, atom) == StepFixed(data, pos, atom)
  {
    var lenBytes := data[pos..pos + 4];
    assert Min(4, |data| - (pos + 4)) == 4;
    assert data[pos + 4..pos + 4 + 4] + lenBytes[4..] == data[pos + 4..pos + 8];
  }

  const Moov: seq<Byte> := [109, 111, 111, 118]
  const Mvhd: seq<Byte> := [109, 118, 104, 100]

  /** A 16-byte "free" atom followed by a truncated header `00 00 00 02 'a'
      'b'`. The search as written comes back to offset 16 after every round:
      the second read stops short at the end, the cursor goes back 8, then
      forward by the length 2. */
  const TruncatedFile: Bytes :=
    [0, 0, 0, 16, 102, 114, 101, 101, 0, 0, 0, 0, 0, 0, 0, 0,
     0, 0, 0, 2, 97, 98]

  lemma TruncatedFileSteps()
    ensures StepAsWritten(TruncatedFile, 0, Moov) == Continue(16)
    ensures StepAsWritten(TruncatedFile, 16, Moov) == Continue(16)
    ensures StepFixed(TruncatedFile, 0, Moov) == Continue(16)
  {
    var d := TruncatedFile;
    BigEndian4(d[0..4]);
    assert d[4..8] != Moov by { assert d[4..8][0] == 102; }
    var lenBytes := d[16..20];
    BigEndian4(lenBytes);
    var name := d[20..22] + lenBytes[2..];
    assert name[0] == 97;
  }

  /** The search as written never ends on this file: however many rounds it
      is given, it is still at offset 16. */
  lemma {:induction false} FindAsWrittenHangs(fuel: nat)
    ensures FindAsWritten(TruncatedFile, 16, Moov, fuel) == (Hung, 16)
    ensures FindAsWritten(TruncatedFile, 0, Moov, fuel + 1) == (Hung, 16)
    decreases fuel
  {
    TruncatedFileSteps();
    if fuel > 0 {
      FindAsWrittenHangs(fuel - 1);
    }
  }

  /** The corrected search stops on the same file with an unexpected EOF. */
  lemma FindFixedStopsOnTruncatedFile()
    ensures FindAtomFrom(TruncatedFile, 0, Moov) == (Failed(UnexpectedEof), |TruncatedFile|)
  {
    TruncatedFileSteps();
    assert StepFixed(TruncatedFile, 16, Moov) == Stop(Failed(UnexpectedEof), 22);
  }

  /** A file whose first atom uses an extended length: `00 00 00 01 'm' 'd'
      'a' 't'` and a 64-bit length of 16, followed by a "moov" atom. */
  const ExtendedFile: Bytes :=
    [0, 0, 0, 1, 109, 100, 97, 116, 0, 0, 0, 0, 0, 0, 0, 16,
     0, 0, 0, 8, 109, 111, 111, 118]

  /** As written, the extended length reads as 0, so the "moov" atom after
      the first atom is never reached. */
  lemma ExtendedLengthIsLost()
    ensures FindAsWritten(ExtendedFile, 0, Moov, 1) == (Failed(AtomNotFound(Moov)), 8)
  {
    var d := ExtendedFile;
    BigEndian4(d[0..4]);
    assert d[4..8] != Moov by { assert d[4..8][1] == 100; }
    assert Min(4, |d| - (0 + 4)) == 4;
    assert d[0 + 4..0 + 4 + 4] + d[0..0 + 4][4..] == d[4..8];
    assert StepAsWritten(d, 0, Moov) == Stop(Failed(AtomNotFound(Moov)), 8);
  }

  /** The corrected search reads the extended length and finds the "moov"
      atom at offset 16. */
  lemma ExtendedLengthIsRead()
    ensures FindAtomFrom(ExtendedFile, 0, Moov) == (Found(8, 8), 16)
  {
    ExtendedFirstStep();
    ExtendedSecondStep();
  }

  /** The first atom's 64-bit length, 16, is read and skipped. */
  lemma ExtendedFirstStep()
    ensures StepFixed(ExtendedFile, 0, Moov) == Continue(16)
  {
    var d := ExtendedFile;
    BigEndian4(d[0..4]);
    assert BigEndian(d[0..4]) == 1;
    assert d[4..8] != Moov by { assert d[4..8][1] == 100; }
    var ext := d[8..16];
    assert ext[..7] == Zeros(7) by {
      forall i | 0 <= i < 7 ensures ext[..7][i] == 0 { assert ext[..7][i] == d[8 + i]; }
    }
    ZerosAreZero(7);
    assert ext[7] == 16;
    assert BigEndian(ext) == BigEndian(ext[..7]) * 256 + 16;
  }

  /** The second atom is "moov" with an 8-byte header. */
  lemma ExtendedSecondStep()
    ensures StepFixed(ExtendedFile, 16, Moov) == Stop(Found(8, 8), 16)
  {
    var d := ExtendedFile;
    BigEndian4(d[16..20]);
    assert d[20..24] == Moov;
  }


  /** The two 4-byte reads of a round as written, into the same buffer. */
  method ReadHeaderAsWritten(f: ReadSeeker, buff: array<Byte>) returns (l: nat, err: Option<Error>)
    requires buff.Length == 4
    modifies f, buff
    ensures err.Some? <==> HeaderAsWritten(f.data, old(f.pos)).None?
    ensures err.Some? ==> err.value == Eof && f.pos == (if old(f.pos) >= |f.data| then old(f.pos) else |f.data|)
    ensures err.None? ==> var h := HeaderAsWritten(f.data, old(f.pos)).value;
                          l == h.0 && buff[..] == h.1 && f.pos == h.2
  {
    var start := f.pos;
    var n, e := f.Read(buff);
    if e.Some? {
      return 0, e;
    }
    var lenBytes := buff[..];
    l := BigEndian(lenBytes);
    n, e := f.Read(buff);
    if e.Some? {
      return 0, e;
    }
    assert lenBytes == f.data[start..start + 4];
    assert buff[..] == f.data[start + 4..start + 4 + n] + lenBytes[n..] by {
      assert buff[..] == buff[..n] + buff[n..];
    }
    err := None;
  }

  /** One round of `mp4FindAtom` as written, on the reader. */
  method RoundAsWritten(f: ReadSeeker, buff: array<Byte>, atom: seq<Byte>) returns (stop: Option<FindOutcome>)
    requires buff.Length == 4
    modifies f, buff
    ensures match StepAsWritten(f.data, old(f.pos), atom)
            case Stop(o, c) => stop == Some(o) && f.pos == c
            case Continue(next) => stop.None? && f.pos == next
  {
    var l, err := ReadHeaderAsWritten(f, buff);
    if err.Some? {
      return Some(Failed(err.value));
    }
    ghost var afterHeader := f.pos;
    var headerSize := 8;
    if l == 1 {
      // the extended length buffer is never filled
      var buff64 := new Byte[8](_ => 0);
      assert buff64[..] == Zeros(8);
      ZerosAreZero(8);
      l := BigEndian(buff64[..]);
      headerSize := 16;
    }
    var _, _ := f.Seek(-headerSize, 1);
    if buff[..] == atom {
      return Some(Found(l, headerSize));
    }
    if l == 0 {
      return Some(Failed(AtomNotFound(atom)));
    }
    // a forward move from a valid offset cannot fail
    var _, _ := f.Seek(l, 1);
    stop := None;
  }

  /** `mp4FindAtom` as written, for at most `fuel` rounds. */
  method FindAtomAsWritten(f: ReadSeeker, atom: seq<Byte>, fuel: nat) returns (r: FindOutcome)
    modifies f
    ensures (r, f.pos) == FindAsWritten(f.data, old(f.pos), atom, fuel)
  {
    var buff := new Byte[4](_ => 0);
    var left := fuel;
    while left > 0
      invariant FindAsWritten(f.data, f.pos, atom, left) == FindAsWritten(f.data, old(f.pos), atom, fuel)
      decreases left
    {
      var stop := RoundAsWritten(f, buff, atom);
      if stop.Some? {
        return stop.value;
      }
      left := left - 1;
    }
    r := Hung;
  }

  /** One round of the corrected search, on the reader. */
  method RoundFixed(f: ReadSeeker, header: array<Byte>, atom: seq<Byte>) returns (stop: Option<FindOutcome>)
    requires header.Length == 8
    modifies f, header
    ensures match StepFixed(f.data, old(f.pos), atom)
            case Stop(o, c) => stop == Some(o) && f.pos == c
            case Continue(next) => stop.None? && f.pos == next
  {
    var start := f.pos;
    var err := f.ReadFull(header);
    if err.Some? {
      return Some(Failed(err.value));
    }
    assert header[..4] == f.data[start..start + 4];
    assert header[4..] == f.data[start + 4..start + 8];
    var l := BigEndian(header[..4]);
    var name := header[4..];
    var headerSize := 8;
    if l == 1 {
      var ext := new Byte[8](_ => 0);
      err := f.ReadFull(ext);
      if err.Some? {
        return Some(Failed(err.value));
      }
      l := BigEndian(ext[..]);
      headerSize := 16;
    }
    var _, _ := f.Seek(-headerSize, 1);
    if name == atom {
      return Some(Found(l, headerSize));
    }
    if l == 0 {
      return Some(Failed(AtomNotFound(atom)));
    }
    var _, _ := f.Seek(l, 1);
    stop := None;
  }

  /** The corrected `mp4FindAtom`. */
  method FindAtom(f: ReadSeeker, atom: seq<Byte>) returns (r: FindOutcome)
    modifies f
    ensures (r, f.pos) == FindAtomFrom(f.data, old(f.pos), atom)
  {
    var header := new Byte[8](_ => 0);
    while true
      invariant FindAtomFrom(f.data, f.pos, atom) == FindAtomFrom(f.data, old(f.pos), atom)
      decreases Remaining(f.data, f.pos)
    {
      var stop := RoundFixed(f, header, atom);
      if stop.Some? {
        return stop.value;
      }
    }
  }

  // ---------------------------------------------------------------------------
  // the mvhd atom

  /** Where the cursor is left after finding an atom and moving past its
      header. */
  function SkipPast(data: Bytes, pos: nat, atom: seq<Byte>): (r: Result<nat>)
    ensures r.Ok? ==> pos + 8 <= r.value <= |data|
  {
    var found := FindAtomFrom(data, pos, atom);
    if found.0.Failed? then Err(found.0.err) else Ok(found.1 + found.0.headerSize)
  }

  /** Where `getMp4MvhdAtom` leaves the cursor: just past the header of the
      "mvhd" atom found after the header of the first top-level "moov" atom. */
  function MvhdOffset(data: Bytes): (r: Result<nat>)
    ensures r.Ok? ==> 16 <= r.value <= |data|
  {
    match SkipPast(data, 0, Moov)
    case Err(e) => Err(e)
    case Ok(inMoov) => SkipPast(data, inMoov, Mvhd)
  }

  /** `mp4FindAtom` followed by a move past the header of the atom found. */
  method FindAndSkip(f: ReadSeeker, atom: seq<Byte>) returns (err: Option<Error>)
    modifies f
    ensures err.None? <==> SkipPast(f.data, old(f.pos), atom).Ok?
    ensures err.Some? ==> err.value == SkipPast(f.data, old(f.pos), atom).error
    ensures err.None? ==> f.pos == SkipPast(f.data, old(f.pos), atom).value
  {
    var found := FindAtom(f, atom);
    if found.Failed? {
      return Some(found.err);
    }
    var _, _ := f.Seek(found.headerSize, 1);
    err := None;
  }

  /** `getMp4MvhdAtom`. */
  method GetMvhdAtom(f: ReadSeeker) returns (offset: nat, err: Option<Error>)
    modifies f
    ensures err.None? <==> MvhdOffset(f.data).Ok?
    ensures err.None? ==> offset == MvhdOffset(f.data).value && f.pos == offset
    ensures err.Some? ==> offset == 0 && err.value == MvhdOffset(f.data).error
  {
    var _, _ := f.Seek(0, 0);
    err := FindAndSkip(f, Moov);
    if err.Some? {
      return 0, err;
    }
    err := FindAndSkip(f, Mvhd);
    if err.Some? {
      return 0, err;
    }
    offset := f.pos;
  }

  /** The 4 bytes a `Read` into a fresh zeroed buffer sees at `pos`: a short
      read leaves zeros at the end. */
  function Read4(data: Bytes, pos: nat): (r: Result<nat>)
    ensures r.Ok? <==> pos < |data|
  {
    if pos >= |data| then Err(Eof)
    else
      var n := Min(4, |data| - pos);
      Ok(BigEndian(data[pos..pos + n] + Zeros(4 - n)))
  }

  /** `getMp4CreationTimeFromMvhdAtom` with the cursor at `mvhd`: the
      big-endian seconds 4 bytes on, counted from 1904-01-01. */
  function CreationAt(data: Bytes, mvhd: nat): (r: Result<Time>)
    ensures r.Ok? <==> mvhd + 4 < |data|
    ensures r.Ok? ==> r.value >= Mp4Epoch
    ensures mvhd + 8 <= |data| ==> r == Ok(Mp4Epoch + BigEndian(data[mvhd + 4..mvhd + 8]))
  {
    match Read4(data, mvhd + 4)
    case Err(e) => Err(e)
    case Ok(secs) =>
      assert mvhd + 8 <= |data| ==> data[mvhd + 4..mvhd + 4 + 4] + Zeros(0) == data[mvhd + 4..mvhd + 8];
      Ok(Mp4Epoch + secs)
  }

  method GetCreationTime(f: ReadSeeker) returns (created: Time, err: Option<Error>)
    modifies f
    ensures err.None? <==> CreationAt(f.data, old(f.pos)).Ok?
    ensures err.None? ==> created == CreationAt(f.data, old(f.pos)).value
    ensures err.Some? ==> created == 0 && err.value == CreationAt(f.data, old(f.pos)).error
  {
    var start := f.pos;
    var _, _ := f.Seek(4, 1);
    var buff := new Byte[4](_ => 0);
    var n, e := f.Read(buff);
    if e.Some? {
      return 0, e;
    }
    assert buff[..] == f.data[start + 4..start + 4 + n] + Zeros(4 - n);
    created := Mp4Epoch + BigEndian(buff[..]);
    err := None;
  }

  /** A duration in timescale units, rounded half up to whole seconds (the
      conversion of the quotient plus 0.5 to an integer, which truncates, as
      the floor does for a quotient that is never negative): never negative,
      and within half a second of the exact value. */
  function RoundedSeconds(raw: nat, timescale: nat): (d: int)
    requires timescale > 0
    ensures d >= 0
    ensures d as real - 0.5 <= (raw as real) / (timescale as real) < d as real + 0.5
  {
    var q := (raw as real) / (timescale as real);
    assert q >= 0.0;
    var d := (q + 0.5).Floor;
    assert d as real <= q + 0.5 < d as real + 1.0;
    d
  }

  /** `getMp4DurationFromMvhdAtom` with the cursor at `mvhd`: the timescale 12
      bytes on, which must not be zero, then the raw duration, rounded to
      whole seconds. The second read reuses the timescale's buffer. */
  function DurationAt(data: Bytes, mvhd: nat): (r: Result<int>)
    ensures mvhd + 12 >= |data| ==> r == Err(Eof)
    ensures mvhd + 16 <= |data| && BigEndian(data[mvhd + 12..mvhd + 16]) == 0 ==>
              r == Err(Message("invalid timescale in mp4"))
    ensures r.Ok? ==> r.value >= 0
  {
    var p := mvhd + 12;
    match ReadAt(data, p, Zeros(4))
    case None => Err(Eof)
    case Some((tsBytes, n)) =>
      var timescale := BigEndian(tsBytes);
      if timescale == 0 then
        assert p + 4 <= |data| ==> tsBytes == data[p..p + 4];
        Err(Message("invalid timescale in mp4"))
      else
        match ReadAt(data, p + n, tsBytes)
        case None => Err(Eof)
        case Some((rawBytes, _)) => Ok(RoundedSeconds(BigEndian(rawBytes), timescale))
  }



  /** A read with room for the whole buffer fills it from the file. */
  lemma ReadAtFull(data: Bytes, pos: nat, prev: seq<Byte>)
    requires pos < |data| && pos + |prev| <= |data|
    ensures ReadAt(data, pos, prev) == Some((data[pos..pos + |prev|], |prev|))
  {
    assert Min(|prev|, |data| - pos) == |prev|;
    assert data[pos..pos + |prev|] + prev[|prev|..] == data[pos..pos + |prev|];
  }

  /** When the whole timescale and duration words are in the file and the
      timescale is not zero, the duration is the raw duration over the
      timescale, rounded to whole seconds. */
  lemma DurationOfFullMvhd(data: Bytes, mvhd: nat)
    requires mvhd + 20 <= |data| && BigEndian(data[mvhd + 12..mvhd + 16]) != 0
    ensures DurationAt(data, mvhd) == Ok(RoundedSeconds(BigEndian(data[mvhd + 16..mvhd + 20]), BigEndian(data[mvhd + 12..mvhd + 16])))
  {
    ReadAtFull(data, mvhd + 12, Zeros(4));
    ReadAtFull(data, mvhd + 16, data[mvhd + 12..mvhd + 16]);
  }

  method GetDuration(f: ReadSeeker) returns (duration: int, err: Option<Error>)
    modifies f
    ensures err.None? <==> DurationAt(f.data, old(f.pos)).Ok?
    ensures err.None? ==> duration == DurationAt(f.data, old(f.pos)).value
    ensures err.Some? ==> duration == 0 && err.value == DurationAt(f.data, old(f.pos)).error
  {
    var _, _ := f.Seek(12, 1);
    var buff := new Byte[4](_ => 0);
    assert buff[..] == Zeros(4);
    var n, e := f.Read(buff);
    if e.Some? {
      return 0, e;
    }
    var timescale := BigEndian(buff[..]);
    if timescale == 0 {
      return 0, Some(Message("invalid timescale in mp4"));
    }
    n, e := f.Read(buff);
    if e.Some? {
      return 0, e;
    }
    var raw := BigEndian(buff[..]);
    duration := RoundedSeconds(raw, timescale);
    err := None;
  }

  // ---------------------------------------------------------------------------
  // Inspect

  /** `Mp4Video`, the record kept in the item's Meta. */
  datatype Mp4Video = Mp4Video(Size: int, Width: int, Height: int, Orientation: int, Duration: int)

  /** What `Inspect` gets from the parts outside this model: the track
      dimensions and rotation, and the ISO 6709 location. */
  datatype Extras = Extras(dims: Result<(int, int, int)>, location: Result<LatLon>)

  /** The record `Inspect` keeps: the file's size, the dimensions when
      found, and the duration when it could be read. */
  function Record(data: Bytes, mvhd: nat, extras: Extras): (v: Mp4Video)
    ensures v.Size == |data|
    ensures extras.dims.Err? ==> v.Width == 0 && v.Height == 0 && v.Orientation == 0
    ensures extras.dims.Ok? ==> (v.Width, v.Height, v.Orientation) == extras.dims.value
    ensures DurationAt(data, mvhd).Ok? ==> v.Duration == DurationAt(data, mvhd).value
    ensures DurationAt(data, mvhd).Err? ==> v.Duration == 0
  {
    var duration := DurationAt(data, mvhd);
    Mp4Video(
      |data|,
      if extras.dims.Ok? then extras.dims.value.0 else 0,
      if extras.dims.Ok? then extras.dims.value.1 else 0,
      if extras.dims.Ok? then extras.dims.value.2 else 0,
      if duration.Ok? then duration.value else 0)
  }

  /** `Mp4Video.Inspect`: a missing mvhd atom or creation time is an error;
      the duration, dimensions and location are only taken when found. */
  function Inspect(data: Bytes, extras: Extras, encode: Mp4Video -> Bytes): (r: Result<Item>)
    ensures MvhdOffset(data).Err? ==>
              r == Err(Message("cannot find mvhd: " + ErrorText(MvhdOffset(data).error)))
    ensures MvhdOffset(data).Ok? && CreationAt(data, MvhdOffset(data).value).Err? ==>
              r == Err(Message("cannot get creation time: " + ErrorText(CreationAt(data, MvhdOffset(data).value).error)))
    ensures r.Ok? <==> MvhdOffset(data).Ok? && CreationAt(data, MvhdOffset(data).value).Ok?
    ensures r.Ok? ==>
              && r.value.Type == ItemTypeVideo
              && r.value.Created == CreationAt(data, MvhdOffset(data).value).value
              && (extras.location.Ok? <==> r.value.Location.Some?)
              && (extras.location.Ok? ==> r.value.Location == Some(extras.location.value))
              && r.value.Meta == encode(Record(data, MvhdOffset(data).value, extras))
  {
    match MvhdOffset(data)
    case Err(e) => Err(Message("cannot find mvhd: " + ErrorText(e)))
    case Ok(mvhd) =>
      match CreationAt(data, mvhd)
      case Err(e) => Err(Message("cannot get creation time: " + ErrorText(e)))
      case Ok(created) =>
        Ok(Item(ItemTypeVideo, "", "", "", 0, AdjustTime(Instant(created, 0)), None,
                if extras.location.Ok? then Some(extras.location.value) else None,
                "", [], encode(Record(data, mvhd, extras))))
  }

  /** `Mp4Video.Inspect` on the reader: find the mvhd atom, read the creation
      time there, go back to it for the duration, and take the size by
      seeking to the end. */
  method InspectReader(f: ReadSeeker, extras: Extras, encode: Mp4Video -> Bytes) returns (r: Result<Item>)
    modifies f
    ensures r == Inspect(f.data, extras, encode)
  {
    var mvhd, err := GetMvhdAtom(f);
    if err.Some? {
      return Err(Message("cannot find mvhd: " + ErrorText(err.value)));
    }
    var created, err2 := GetCreationTime(f);
    if err2.Some? {
      return Err(Message("cannot get creation time: " + ErrorText(err2.value)));
    }
    var v := ReadRecord(f, mvhd, extras);
    var location: Option<LatLon> := None;
    if extras.location.Ok? {
      location := Some(extras.location.value);
    }
    r := Ok(Item(ItemTypeVideo, "", "", "", 0, AdjustTime(Instant(created, 0)), None, location, "", [], encode(v)));
  }

  /** The record part of `Inspect`: the duration read back at the mvhd
      atom, the dimensions, and the size found by seeking to the end. */
  method ReadRecord(f: ReadSeeker, mvhd: nat, extras: Extras) returns (v: Mp4Video)
    modifies f
    ensures v == Record(f.data, mvhd, extras)
  {
    var _, _ := f.Seek(mvhd, 0);
    var duration, err := GetDuration(f);
    v := Mp4Video(0, 0, 0, 0, 0);
    if err.None? {
      v := v.(Duration := duration);
    }
    if extras.dims.Ok? {
      v := v.(Width := extras.dims.value.0, Height := extras.dims.value.1, Orientation := extras.dims.value.2);
    }
    var size, _ := f.Seek(0, 2);
    v := v.(Size := size);
  }


  /** A file whose "moov" atom holds an "mvhd" atom gets a creation time no
      earlier than 1904. */
  lemma InspectCreatedAfterEpoch(data: Bytes, extras: Extras, encode: Mp4Video -> Bytes)
    requires Inspect(data, extras, encode).Ok?
    ensures Inspect(data, extras, encode).value.Created >= Mp4Epoch
  {
  }

  /** `EnsureMeta`: the record is decoded from the item's Meta only when the
      video has no size yet. */
  function EnsureMeta(v: Mp4Video, item: Item, decode: Bytes -> Result<Mp4Video>): (r: Result<Mp4Video>)
    ensures v.Size != 0 ==> r == Ok(v)
    ensures v.Size == 0 ==> r == decode(item.Meta)
  {
    if v.Size == 0 then decode(item.Meta) else Ok(v)
  }
}
