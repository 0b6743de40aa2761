/** types/photo/jpeg.go: the JPEG inspecter. The image header and the EXIF
    block are decoded by libraries outside this model; what is modelled is
    how `Inspect` picks the creation date, orientation, dimensions, device
    and GPS position from the decoded tags. */
module Jpeg {

  import opened Common
  import opened Times
  import opened Items

  /** `ExifOrientation`: an unsigned EXIF orientation flag, 0 to 8 when valid. */
  type ExifOrientation = nat

  const OrientedUndefined: ExifOrientation := 0
  const OrientedNormal: ExifOrientation := 1
  const OrientedMirror: ExifOrientation := 2
  const OrientedNormal180: ExifOrientation := 3
  const OrientedMirror180: ExifOrientation := 4
  const OrientedMirror270: ExifOrientation := 5
  const OrientedNormal270: ExifOrientation := 6
  const OrientedMirror90: ExifOrientation := 7
  const OrientedNormal90: ExifOrientation := 8

  /** Orientations that turn the picture a quarter turn, so that the stored
      width is the displayed height. */
  predicate QuarterTurn(o: ExifOrientation) {
    o == OrientedMirror270 || o == OrientedNormal270 || o == OrientedNormal90 || o == OrientedMirror90
  }

  /** A rational as the EXIF RATIONAL type stores it. */
  datatype Rat = Rat(num: int, den: int)

  /** A decoded EXIF tag, by the category of its values. */
  datatype Tag =
    | StringVal(s: string)
    | RatVal(rats: seq<Rat>)
    | IntVal(ints: seq<int>)
    | OtherVal

  type FieldName = string

  /** The decoded EXIF block: `Get` fails for a field that is not present. */
  type Exif = map<FieldName, Tag>

  const DateTimeDigitized: FieldName := "DateTimeDigitized"
  const DateTime: FieldName := "DateTime"
  const DateTimeOriginal: FieldName := "DateTimeOriginal"
  const OrientationField: FieldName := "Orientation"
  const Make: FieldName := "Make"
  const Model: FieldName := "Model"
  const GPSLatitude: FieldName := "GPSLatitude"
  const GPSLongitude: FieldName := "GPSLongitude"

  /** The fields that may hold the date, most likely to be right first. */
  const DateFields: seq<FieldName> := [DateTimeDigitized, DateTime, DateTimeOriginal]

  /** `time.Parse` with the layout "2006:01:02 15:04:05". */
  type DateParser = string -> Option<Instant>

  /** The record kept in the item's Meta. */
  datatype JpegMeta = JpegMeta(Size: int, Width: int, Height: int, Orientation: ExifOrientation, Device: string)

  /** What the image decoder reports: width and height. */
  type Config = Result<(int, int)>

  const NoDate: Error := Message("Could not get date photo taken")

  // ---------------------------------------------------------------------------
  // the creation date

  /** A field gives a date when it is present, holds a string, parses, and
      is not the date some cameras write by mistake. */
  predicate Usable(x: Exif, f: FieldName, parse: DateParser) {
    f in x && x[f].StringVal? && parse(x[f].s).Some? && parse(x[f].s).value != ExifDateBug
  }

  /** The dates the fields give, in field order (`createds`). */
  function Candidates(x: Exif, fields: seq<FieldName>, parse: DateParser): (r: seq<Instant>)
    ensures |r| <= |fields|
    ensures ExifDateBug !in r
    ensures r == [] <==> forall i :: 0 <= i < |fields| ==> !Usable(x, fields[i], parse)
    decreases |fields|
  {
    if fields == [] then []
    else
      var f := fields[|fields| - 1];
      var rest := Candidates(x, fields[..|fields| - 1], parse);
      if Usable(x, f, parse) then rest + [parse(x[f].s).value] else rest
  }

  /** The first date comes from the first usable field. */
  lemma {:induction false} FirstCandidate(x: Exif, fields: seq<FieldName>, parse: DateParser, i: nat)
    requires i < |fields| && Usable(x, fields[i], parse)
    requires forall j :: 0 <= j < i ==> !Usable(x, fields[j], parse)
    ensures Candidates(x, fields, parse) != []
    ensures Candidates(x, fields, parse)[0] == parse(x[fields[i]].s).value
    decreases |fields|
  {
    var init := fields[..|fields| - 1];
    if i < |fields| - 1 {
      assert init[i] == fields[i];
      FirstCandidate(x, init, parse, i);
    } else {
      assert forall j :: 0 <= j < |init| ==> init[j] == fields[j];
      assert Candidates(x, init, parse) == [];
    }
  }

  /** The creation time: the first candidate, unless there is none or it is
      the zero time. */
  function CreatedOf(x: Exif, parse: DateParser): (r: Result<Time>)
    ensures r.Err? ==> r.error == NoDate
    ensures r.Ok? <==> Candidates(x, DateFields, parse) != [] && !InstantIsZero(Candidates(x, DateFields, parse)[0])
  {
    var createds := Candidates(x, DateFields, parse);
    if |createds| == 0 || InstantIsZero(createds[0]) then Err(NoDate)
    else Ok(AdjustTime(createds[0]))
  }

  /** DateTimeDigitized wins when usable; otherwise DateTime, then
      DateTimeOriginal. */
  lemma CreatedPrefersDigitized(x: Exif, parse: DateParser)
    requires Usable(x, DateTimeDigitized, parse)
    requires !InstantIsZero(parse(x[DateTimeDigitized].s).value)
    ensures CreatedOf(x, parse) == Ok(AdjustTime(parse(x[DateTimeDigitized].s).value))
  {
    FirstCandidate(x, DateFields, parse, 0);
  }

  lemma CreatedFallsBack(x: Exif, parse: DateParser)
    requires !Usable(x, DateTimeDigitized, parse) && Usable(x, DateTime, parse)
    requires !InstantIsZero(parse(x[DateTime].s).value)
    ensures CreatedOf(x, parse) == Ok(AdjustTime(parse(x[DateTime].s).value))
  {
    FirstCandidate(x, DateFields, parse, 1);
  }

  // ---------------------------------------------------------------------------
  // orientation, device and position

  /** The orientation tag's first integer converted to the unsigned flag;
      Normal when the tag is absent. goexif panics on a tag that does not
      hold integers. */
  function OrientationOf(x: Exif): (r: Result<ExifOrientation>)
    ensures OrientationField !in x ==> r == Ok(OrientedNormal)
    ensures OrientationField in x ==>
              (r.Ok? <==> x[OrientationField].IntVal? && |x[OrientationField].ints| > 0)
    ensures r.Ok? && OrientationField in x ==>
              r.value < 0x1_0000_0000_0000_0000 && (r.value - x[OrientationField].ints[0]) % 0x1_0000_0000_0000_0000 == 0
    ensures r.Err? ==> r.error.Panic?
  {
    if OrientationField !in x then Ok(OrientedNormal)
    else
      match x[OrientationField]
      case IntVal(v) =>
        if |v| == 0 then Err(Panic("index out of range")) else Ok(v[0] % 0x1_0000_0000_0000_0000)
      case _ => Err(Panic("tag is not an integer"))
  }

  /** Width and height as displayed. */
  function Oriented(width: int, height: int, o: ExifOrientation): (r: (int, int))
    ensures QuarterTurn(o) ==> r == (height, width)
    ensures !QuarterTurn(o) ==> r == (width, height)
  {
    if QuarterTurn(o) then (height, width) else (width, height)
  }

  /** Turning twice gives the stored dimensions back. */
  lemma OrientedTwice(width: int, height: int, o: ExifOrientation)
    ensures var r := Oriented(width, height, o); Oriented(r.0, r.1, o) == (width, height)
  {
  }

  /** A string-valued tag, or nothing. */
  function StringTag(x: Exif, f: FieldName): (r: Option<string>)
    ensures r.Some? <==> f in x && x[f].StringVal?
  {
    if f in x && x[f].StringVal? then Some(x[f].s) else None
  }

  /** `Device`: Make, Model, or both joined by one space. */
  function DeviceOf(x: Exif): (d: string)
  {
    var mk := if StringTag(x, Make).Some? then StringTag(x, Make).value else "";
    match StringTag(x, Model)
    case None => mk
    case Some(model) => if mk == "" then model else mk + " " + model
  }

  /** The Device string takes Make and Model apart again: it is empty
      exactly when neither gives any text, a lone Make or Model is the whole
      string, and with both the Make comes first, then one space, then the
      Model. */
  lemma DeviceParts(x: Exif)
    ensures var mk := StringTag(x, Make); var md := StringTag(x, Model);
            && (DeviceOf(x) == "" <==> (mk.None? || mk.value == "") && (md.None? || md.value == ""))
            && (md.None? && mk.Some? ==> DeviceOf(x) == mk.value)
            && ((mk.None? || mk.value == "") && md.Some? ==> DeviceOf(x) == md.value)
            && (mk.Some? && mk.value != "" && md.Some? ==>
                  var d := DeviceOf(x);
                  |d| == |mk.value| + 1 + |md.value| && d[..|mk.value|] == mk.value &&
                  d[|mk.value|] == ' ' && d[|mk.value| + 1..] == md.value)
  {
    var mk := StringTag(x, Make);
    var md := StringTag(x, Model);
    if mk.Some? && mk.value != "" && md.Some? {
      var d := DeviceOf(x);
      assert d == mk.value + " " + md.value;
      assert d[..|mk.value|] == mk.value;
      assert d[|mk.value| + 1..] == md.value;
    }
  }

  /** `toDecimalDegreesFromRat` before the conversion to float: degrees plus
      minutes plus seconds, in exact rational arithmetic. */
  function DecimalDegrees(deg: real, min: real, sec: real): (r: real)
    ensures 0.0 <= min <= 59.0 && 0.0 <= sec < 60.0 ==> deg <= r < deg + 1.0
  {
    deg + (min + sec / 60.0) / 60.0
  }

  /** Whole degrees and minutes with no seconds give back the minutes. */
  lemma DecimalDegreesMinutes(deg: int, min: real)
    ensures (DecimalDegrees(deg as real, min, 0.0) - deg as real) * 60.0 == min
  {
  }

  /** A GPS tag that passes the guard: three rationals. */
  predicate GpsTag(x: Exif, f: FieldName) {
    f in x && x[f].RatVal? && |x[f].rats| == 3
  }

  /** `setLocationFromExif`: both coordinates must be three rationals, or the
      position stays zero; a zero denominator makes `big.NewRat` panic. */
  function LocationOf(x: Exif): (r: Result<LatLon>)
    ensures !(GpsTag(x, GPSLatitude) && GpsTag(x, GPSLongitude)) ==> r == Ok(LatLon(0.0, 0.0))
    ensures r.Err? ==> r == Err(Panic("division by zero"))
    ensures GpsTag(x, GPSLatitude) && GpsTag(x, GPSLongitude) ==>
              (r.Ok? <==> forall k :: 0 <= k < 3 ==> x[GPSLatitude].rats[k].den != 0 && x[GPSLongitude].rats[k].den != 0)
  {
    if !(GpsTag(x, GPSLatitude) && GpsTag(x, GPSLongitude)) then Ok(LatLon(0.0, 0.0))
    else
      var lat := x[GPSLatitude].rats;
      var lon := x[GPSLongitude].rats;
      if exists k :: 0 <= k < 3 && (lat[k].den == 0 || lon[k].den == 0) then Err(Panic("division by zero"))
      else
        Ok(LatLon(DecimalDegrees(RatValue(lat[0]), RatValue(lat[1]), RatValue(lat[2])),
                  DecimalDegrees(RatValue(lon[0]), RatValue(lon[1]), RatValue(lon[2]))))
  }

  function RatValue(q: Rat): real
    requires q.den != 0
  {
    q.num as real / q.den as real
  }

  // ---------------------------------------------------------------------------
  // Inspect

  /** What `Inspect` stores in Meta after a successful inspection. */
  function MetaOf(size: int, cfg: (int, int), x: Exif): (m: JpegMeta)
    requires OrientationOf(x).Ok?
    ensures m.Size == size && m.Orientation == OrientationOf(x).value && m.Device == DeviceOf(x)
    ensures (m.Width, m.Height) == Oriented(cfg.0, cfg.1, m.Orientation)
  {
    var o := OrientationOf(x).value;
    var dims := Oriented(cfg.0, cfg.1, o);
    JpegMeta(size, dims.0, dims.1, o, DeviceOf(x))
  }

  /** `JpegPhoto.Inspect`: the image header, the EXIF block and a date are
      required; orientation, device and position are optional. */
  function InspectJpeg(data: Bytes, cfg: Config, exif: Result<Exif>, parse: DateParser,
                       encode: JpegMeta -> Bytes): (r: Result<Item>)
    ensures cfg.Err? ==> r == Err(cfg.error)
    ensures cfg.Ok? && exif.Err? ==> r == Err(exif.error)
    ensures cfg.Ok? && exif.Ok? && CreatedOf(exif.value, parse).Err? ==> r == Err(NoDate)
    ensures r.Ok? <==> cfg.Ok? && exif.Ok? && CreatedOf(exif.value, parse).Ok? &&
                       OrientationOf(exif.value).Ok? && LocationOf(exif.value).Ok?
    ensures r.Ok? ==>
              && r.value.Type == ItemTypePhoto
              && r.value.Created == CreatedOf(exif.value, parse).value
              && r.value.Location == Some(LocationOf(exif.value).value)
              && r.value.Meta == encode(MetaOf(|data|, cfg.value, exif.value))
  {
    if cfg.Err? then Err(cfg.error)
    else if exif.Err? then Err(exif.error)
    else
      var x := exif.value;
      match CreatedOf(x, parse)
      case Err(e) => Err(e)
      case Ok(created) =>
        if OrientationOf(x).Err? then Err(OrientationOf(x).error)
        else if LocationOf(x).Err? then Err(LocationOf(x).error)
        else
          Ok(Item(ItemTypePhoto, "", "", "", 0, created, None, Some(LocationOf(x).value), "", [],
                  encode(MetaOf(|data|, cfg.value, x))))
  }

  /** The loop over the date fields in `Inspect`: the dates the usable
      fields give, in field order. */
  method CollectDates(x: Exif, parse: DateParser) returns (createds: seq<Instant>)
    ensures ExifDateBug !in createds
    ensures createds == Candidates(x, DateFields, parse)
  {
    createds := [];
    var i := 0;
    while i < |DateFields|
      invariant 0 <= i <= |DateFields|
      invariant createds == Candidates(x, DateFields[..i], parse)
    {
      assert DateFields[..i + 1][..i] == DateFields[..i];
      var field := DateFields[i];
      if field in x && x[field].StringVal? {
        var parsed := parse(x[field].s);
        if parsed.Some? && parsed.value != ExifDateBug {
          createds := createds + [parsed.value];
        }
      }
      i := i + 1;
    }
    assert DateFields[..i] == DateFields;
  }

  /** `JpegPhoto`: the inspecter's record, filled in by `Inspect`. */
  class JpegPhoto {
    var Size: int
    var Width: int
    var Height: int
    var Orientation: ExifOrientation
    var Device: string

    function Meta(): JpegMeta
      reads this
    {
      JpegMeta(Size, Width, Height, Orientation, Device)
    }

    constructor ()
      ensures Meta() == JpegMeta(0, 0, 0, OrientedUndefined, "")
    {
      Size, Width, Height, Orientation, Device := 0, 0, 0, OrientedUndefined, "";
    }

    /** `Inspect`: the record is reset, then filled in step by step; the
        size is only taken once everything else succeeded. */
    method Inspect(data: Bytes, cfg: Config, exif: Result<Exif>, parse: DateParser,
                   encode: JpegMeta -> Bytes) returns (item: Result<Item>)
      modifies this
      ensures item == InspectJpeg(data, cfg, exif, parse, encode)
      ensures item.Ok? ==> Meta() == MetaOf(|data|, cfg.value, exif.value)
      ensures item.Err? ==> Size == old(Size)
    {
      Width := 0;
      Height := 0;
      Orientation := OrientedNormal;
      Device := "";
      if cfg.Err? {
        return Err(cfg.error);
      }
      Width, Height := cfg.value.0, cfg.value.1;
      if exif.Err? {
        return Err(exif.error);
      }
      var x := exif.value;
      var createds := CollectDates(x, parse);
      if |createds| == 0 || InstantIsZero(createds[0]) {
        return Err(NoDate);
      }
      var created := AdjustTime(createds[0]);
      var err := SetOrientation(x);
      if err.Some? {
        return Err(err.value);
      }
      SetDevice(x);
      var location := LocationOf(x);
      if location.Err? {
        return Err(location.error);
      }
      Size := |data|;
      item := Ok(Item(ItemTypePhoto, "", "", "", 0, created, None, Some(location.value), "", [], encode(Meta())));
    }

    /** The orientation step of `Inspect`: the flag is read from the tag,
        and a quarter turn swaps the dimensions. */
    method SetOrientation(x: Exif) returns (err: Option<Error>)
      modifies this
      ensures err.None? <==> OrientationOf(x).Ok?
      ensures err.Some? ==> err.value == OrientationOf(x).error
      ensures err.None? ==> Orientation == OrientationOf(x).value &&
                            (Width, Height) == Oriented(old(Width), old(Height), Orientation)
      ensures Size == old(Size) && Device == old(Device)
    {
      if OrientationField in x {
        var tag := x[OrientationField];
        if !tag.IntVal? {
          return Some(Panic("tag is not an integer"));
        }
        if |tag.ints| == 0 {
          return Some(Panic("index out of range"));
        }
        Orientation := tag.ints[0] % 0x1_0000_0000_0000_0000;
        if QuarterTurn(Orientation) {
          Width, Height := Height, Width;
        }
      } else {
        Orientation := OrientedNormal;
      }
      err := None;
    }

    /** The device step of `Inspect`. */
    method SetDevice(x: Exif)
      modifies this
      ensures Device == DeviceOf(x)
      ensures Size == old(Size) && Width == old(Width) && Height == old(Height) && Orientation == old(Orientation)
    {
      Device := "";
      if Make in x && x[Make].StringVal? {
        Device := x[Make].s;
      }
      if Model in x && x[Model].StringVal? {
        if Device == "" {
          Device := x[Model].s;
        } else {
          Device := Device + " " + x[Model].s;
        }
      }
    }

    /** `EnsureMeta`: the record is decoded from the item's Meta only when it
        has no size yet. */
    method EnsureMeta(i: Item, decode: Bytes -> Result<JpegMeta>) returns (err: Option<Error>)
      modifies this
      ensures old(Size) != 0 ==> err.None? && Meta() == old(Meta())
      ensures old(Size) == 0 && decode(i.Meta).Ok? ==> err.None? && Meta() == decode(i.Meta).value
      ensures old(Size) == 0 && decode(i.Meta).Err? ==> err == Some(decode(i.Meta).error) && Meta() == old(Meta())
    {
      if Size != 0 {
        return None;
      }
      var m := decode(i.Meta);
      if m.Err? {
        return Some(m.error);
      }
      Size, Width, Height, Orientation, Device := m.value.Size, m.value.Width, m.value.Height, m.value.Orientation, m.value.Device;
      err := None;
    }
  }
}
