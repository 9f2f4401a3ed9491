/**
 * Upload naming and thumbnail bookkeeping for wine images: the per-user upload path, the
 * search for the EXIF orientation tag and the rotation it calls for, and the file name of
 * the derived thumbnail. Pixels, resizing and the file system are not part of this model.
 */
module WineUtils {
  import opened Common

  /** The height `make_thumbnail` scales to when the caller gives none. */
  const DefaultThumbnailHeight: nat := 225

  // ---------------------------------------------------------------------------------------
  // Decimal form of a primary key, as an f-string renders an int
  // ---------------------------------------------------------------------------------------

  predicate IsDigit(c: char)
  {
    '0' <= c <= '9'
  }

  predicate AllDigits(s: string)
  {
    forall i :: 0 <= i < |s| ==> IsDigit(s[i])
  }

  function DigitChar(d: nat): (c: char)
    requires d < 10
    ensures IsDigit(c) && c as int - '0' as int == d
  {
    "0123456789"[d]
  }

  /** `str(n)` for a non-negative integer. */
  function DecimalString(n: nat): (s: string)
    ensures |s| > 0 && AllDigits(s)
    decreases n
  {
    if n < 10 then [DigitChar(n)] else DecimalString(n / 10) + [DigitChar(n % 10)]
  }

  /** `int(s)` for a string of decimal digits. */
  function ParseDecimal(s: string): nat
    requires AllDigits(s)
  {
    if s == [] then 0 else ParseDecimal(s[..|s| - 1]) * 10 + (s[|s| - 1] as int - '0' as int)
  }

  lemma {:induction false} DecimalRoundTrip(n: nat)
    ensures ParseDecimal(DecimalString(n)) == n
    decreases n
  {
    if n >= 10 {
      DecimalRoundTrip(n / 10);
      var s := DecimalString(n);
      assert s[..|s| - 1] == DecimalString(n / 10);
    }
  }

  // ---------------------------------------------------------------------------------------
  // user_directory_path
  // ---------------------------------------------------------------------------------------

  /** Why an upload path cannot be formed: the image has no user, so `user.pk` raises. */
  datatype UploadError = NoOwner

  /** `user_directory_path`: uploads go to `user_<pk>/<filename>`. */
  function UserDirectoryPath(userPk: Option<nat>, filename: string): (r: Result<string, UploadError>)
    ensures r.Err? <==> userPk.None?
    ensures r.Ok? ==> |r.value| > 6 + |filename| && r.value[..5] == "user_" && r.value[|r.value| - |filename|..] == filename
  {
    match userPk
    case None => Err(NoOwner)
    case Some(pk) => Ok("user_" + DecimalString(pk) + "/" + filename)
  }

  /** The first position of `c` in `s`. */
  function IndexOf(s: string, c: char): (r: Option<nat>)
    ensures r.Some? ==> r.value < |s| && s[r.value] == c && c !in s[..r.value]
    ensures r.None? ==> c !in s
  {
    if s == [] then None
    else if s[0] == c then Some(0)
    else
      match IndexOf(s[1..], c)
      case None => None
      case Some(k) =>
        assert s[..k + 1] == [s[0]] + s[1..][..k];
        Some(k + 1)
  }

  /** Reads an upload path back into the owner's key and the file name. */
  function ParseUploadPath(path: string): Option<(nat, string)>
  {
    if |path| < 5 || path[..5] != "user_" then None
    else
      var rest := path[5..];
      match IndexOf(rest, '/')
      case None => None
      case Some(k) =>
        if k == 0 || !AllDigits(rest[..k]) then None else Some((ParseDecimal(rest[..k]), rest[k + 1..]))
  }

  /** Distinct owners or distinct file names give distinct upload paths: the path can be read back. */
  lemma UploadPathRoundTrip(pk: nat, filename: string)
    ensures UserDirectoryPath(Some(pk), filename).Ok?
    ensures ParseUploadPath(UserDirectoryPath(Some(pk), filename).value) == Some((pk, filename))
  {
    var digits := DecimalString(pk);
    var path := UserDirectoryPath(Some(pk), filename).value;
    var rest := digits + "/" + filename;
    assert path[..5] == "user_";
    assert path[5..] == rest;
    assert forall i :: 0 <= i < |digits| ==> IsDigit(digits[i]);
    assert rest[..|digits|] == digits;
    assert rest[|digits|] == '/';
    var k := IndexOf(rest, '/');
    assert k == Some(|digits|);
    assert rest[|digits| + 1..] == filename;
    DecimalRoundTrip(pk);
  }

  // ---------------------------------------------------------------------------------------
  // os.path.splitext and the thumbnail name
  // ---------------------------------------------------------------------------------------

  /** `s.rfind(c)`: the last position of `c`, or -1. */
  function RFind(s: string, c: char): (r: int)
    ensures -1 <= r < |s|
    ensures r >= 0 ==> s[r] == c
    ensures forall k :: r < k < |s| ==> s[k] != c
  {
    if s == [] then -1
    else if s[|s| - 1] == c then |s| - 1
    else RFind(s[..|s| - 1], c)
  }

  lemma {:induction false} RFindAppend(a: string, b: string, c: char)
    ensures RFind(a + b, c) == if c in b then |a| + RFind(b, c) else RFind(a, c)
    decreases |b|
  {
    if b == [] {
      assert a + b == a;
    } else {
      var ab := a + b;
      assert ab[..|ab| - 1] == a + b[..|b| - 1];
      if b[|b| - 1] != c {
        RFindAppend(a, b[..|b| - 1], c);
        assert c in b <==> c in b[..|b| - 1] by {
          if c in b {
            var i :| 0 <= i < |b| && b[i] == c;
            assert b[..|b| - 1][i] == c;
          }
        }
      }
    }
  }

  /** Some position in `[lo, hi)` of `p` holds a character other than a dot. */
  predicate HasNonDot(p: string, lo: int, hi: int)
    requires 0 <= lo && hi <= |p|
  {
    exists k :: lo <= k < hi && p[k] != '.'
  }

  /**
   * `os.path.splitext` on a POSIX path: the extension starts at the last dot of the last path
   * component, unless everything before that dot in the component is dots (a hidden file).
   */
  function SplitExt(p: string): (r: (string, string))
    ensures r.0 + r.1 == p
    ensures r.1 == "" || r.1[0] == '.'
  {
    var sep := RFind(p, '/');
    var dot := RFind(p, '.');
    if dot > sep && HasNonDot(p, sep + 1, dot) then (p[..dot], p[dot..]) else (p, "")
  }

  /** The two halves rebuild the path; the extension is empty or one dot and no separator. */
  lemma SplitExtShape(p: string)
    ensures SplitExt(p).0 + SplitExt(p).1 == p
    ensures var ext := SplitExt(p).1;
            ext == "" || (ext[0] == '.' && '.' !in ext[1..] && '/' !in ext)
    ensures SplitExt(p).1 != "" ==> exists k :: 0 <= k < |SplitExt(p).0| && SplitExt(p).0[k] != '.'
  {
    var sep := RFind(p, '/');
    var dot := RFind(p, '.');
    if dot > sep && HasNonDot(p, sep + 1, dot) {
      var ext := p[dot..];
      assert forall i :: 0 <= i < |ext| ==> ext[i] == p[dot + i];
      assert forall i :: 1 <= i < |ext| ==> ext[i] != '.';
      var k :| sep + 1 <= k < dot && p[k] != '.';
      assert p[..dot][k] != '.';
    }
  }

  /** The thumbnail's file name: `_thumb` goes between the base and the extension. */
  function ThumbnailName(imagePath: string): (name: string)
    ensures |name| == |imagePath| + 6
  {
    SplitExtShape(imagePath);
    var (base, ext) := SplitExt(imagePath);
    base + "_thumb" + ext
  }

  /** A path without an extension: appending `_thumb` adds none. */
  lemma ThumbnailNameWithoutExtension(p: string)
    requires SplitExt(p).1 == ""
    ensures SplitExt(p + "_thumb") == (p + "_thumb", "")
  {
    var thumb := "_thumb";
    var n := p + thumb;
    var sep := RFind(p, '/');
    var dot := RFind(p, '.');
    assert '.' !in thumb && '/' !in thumb;
    RFindAppend(p, thumb, '.');
    RFindAppend(p, thumb, '/');
    assert forall k :: 0 <= k < |p| ==> n[k] == p[k];
    assert HasNonDot(n, sep + 1, dot) <==> HasNonDot(p, sep + 1, dot);
  }

  /** A path with an extension: `_thumb` goes in front of the same extension. */
  lemma ThumbnailNameWithExtension(p: string)
    requires SplitExt(p).1 != ""
    ensures var (base, ext) := SplitExt(p);
            SplitExt(base + "_thumb" + ext) == (base + "_thumb", ext)
  {
    var (base, ext) := SplitExt(p);
    SplitExtShape(p);
    var thumb := "_thumb";
    var sep := RFind(p, '/');
    var dot := RFind(p, '.');
    assert dot > sep && base == p[..dot] && ext == p[dot..];
    var tail := thumb + ext;
    var n := base + tail;
    assert base + thumb + ext == n;
    assert '/' !in tail by {
      assert forall i :: 0 <= i < |tail| ==> tail[i] == (if i < 6 then thumb[i] else ext[i - 6]);
    }
    assert RFind(tail, '.') == 6 by {
      assert tail[6] == '.';
      assert forall k :: 6 < k < |tail| ==> tail[k] == ext[k - 6];
    }
    RFindAppend(base, tail, '.');
    RFindAppend(base, tail, '/');
    assert '/' !in ext;
    RFindAppend(base, ext, '/');
    assert RFind(n, '/') == sep;
    assert RFind(n, '.') == |base| + 6;
    assert n[|base|] == '_';
    assert HasNonDot(n, sep + 1, |base| + 6);
    assert n[..|base| + 6] == base + thumb;
    assert n[|base| + 6..] == ext;
  }

  /** The thumbnail keeps the image's extension, its base gains `_thumb`, and it never overwrites the image. */
  lemma ThumbnailKeepsExtension(p: string)
    ensures SplitExt(ThumbnailName(p)) == (SplitExt(p).0 + "_thumb", SplitExt(p).1)
    ensures |ThumbnailName(p)| == |p| + 6 && ThumbnailName(p) != p
  {
    SplitExtShape(p);
    if SplitExt(p).1 == "" {
      ThumbnailNameWithoutExtension(p);
      assert ThumbnailName(p) == p + "_thumb";
    } else {
      ThumbnailNameWithExtension(p);
    }
  }

  // ---------------------------------------------------------------------------------------
  // EXIF orientation in make_thumbnail
  // ---------------------------------------------------------------------------------------

  /** The name PIL gives the orientation tag in its tag table. */
  const OrientationTagName: string := "Orientation"

  /** `img._getexif()`: absent for formats without EXIF support, else `None` or a tag dictionary. */
  datatype ExifRead = NoExifSupport | ExifData(data: Option<map<int, int>>)

  /** What escapes the `try`: the loop variable was never bound because the tag table is empty. */
  datatype ThumbnailError = OrientationUnbound

  /** The position of the first tag table entry carrying `name`. */
  function FirstNamed(tags: seq<(int, string)>, name: string): (r: Option<nat>)
    ensures r.Some? ==> r.value < |tags| && tags[r.value].1 == name && forall j :: 0 <= j < r.value ==> tags[j].1 != name
    ensures r.None? ==> forall j :: 0 <= j < |tags| ==> tags[j].1 != name
  {
    if tags == [] then None
    else if tags[0].1 == name then Some(0)
    else
      match FirstNamed(tags[1..], name)
      case None => None
      case Some(k) => Some(k + 1)
  }

  /**
   * `for orientation in ExifTags.TAGS.keys(): if ... == "Orientation": break`. The loop variable
   * keeps the key it stopped at: the first one named "Orientation", else the last key, and it is
   * unbound when the table is empty.
   */
  method FindOrientationTag(tags: seq<(int, string)>) returns (orientation: Option<int>)
    ensures tags == [] ==> orientation.None?
    ensures FirstNamed(tags, OrientationTagName).Some? ==> orientation == Some(tags[FirstNamed(tags, OrientationTagName).value].0)
    ensures FirstNamed(tags, OrientationTagName).None? && tags != [] ==> orientation == Some(tags[|tags| - 1].0)
  {
    orientation := None;
    var i := 0;
    while i < |tags|
      invariant 0 <= i <= |tags|
      invariant forall j :: 0 <= j < i ==> tags[j].1 != OrientationTagName
      invariant orientation == if i == 0 then None else Some(tags[i - 1].0)
    {
      orientation := Some(tags[i].0);
      if tags[i].1 == OrientationTagName {
        return;
      }
      i := i + 1;
    }
  }

  /** The counter-clockwise angle `img.rotate` is given for an orientation value: 3, 6 and 8 only. */
  function RotationFor(value: Option<int>): (angle: nat)
    ensures angle < 360 && angle % 90 == 0
    ensures angle == 0 <==> value !in {Some(3), Some(6), Some(8)}
  {
    match value
    case Some(3) => 180
    case Some(6) => 270
    case Some(8) => 90
    case _ => 0
  }

  /**
   * The clockwise rotation the EXIF standard (tag 0x0112) says a viewer applies to show an image
   * upright, for the values that are pure rotations: 1 upright, 3 upside down, 6 and 8 on their side.
   */
  function ExifClockwiseCorrection(value: int): Option<nat>
  {
    if value == 1 then Some(0)
    else if value == 3 then Some(180)
    else if value == 6 then Some(90)
    else if value == 8 then Some(270)
    else None
  }

  /** Rotating counter-clockwise by `RotationFor` is the standard's clockwise correction. */
  lemma RotationMatchesExif(value: int)
    requires ExifClockwiseCorrection(value).Some?
    ensures (360 - RotationFor(Some(value))) % 360 == ExifClockwiseCorrection(value).value
  {
  }

  /**
   * The orientation part of `make_thumbnail`: the angle the image is rotated by. An image
   * without EXIF support, an empty or missing EXIF dictionary and an unknown value all leave it
   * upright; the one failure that escapes is the unbound loop variable.
   */
  method OrientationAngle(tags: seq<(int, string)>, exif: ExifRead) returns (r: Result<nat, ThumbnailError>)
    ensures exif.NoExifSupport? ==> r == Ok(0)
    ensures exif.ExifData? && (exif.data.None? || exif.data.value == map[]) ==> r == Ok(0)
    ensures exif.ExifData? && exif.data.Some? && exif.data.value != map[] ==>
              (tags == [] ==> r == Err(OrientationUnbound))
    ensures exif.ExifData? && exif.data.Some? && exif.data.value != map[] && FirstNamed(tags, OrientationTagName).Some? ==>
              r == Ok(RotationFor(Lookup(exif.data.value, tags[FirstNamed(tags, OrientationTagName).value].0)))
    ensures exif.ExifData? && exif.data.Some? && exif.data.value != map[] && FirstNamed(tags, OrientationTagName).None? && tags != [] ==>
              r == Ok(RotationFor(Lookup(exif.data.value, tags[|tags| - 1].0)))
    ensures r.Ok? ==> r.value in {0, 90, 180, 270}
  {
    var orientation := FindOrientationTag(tags);
    match exif
    case NoExifSupport =>
      r := Ok(0);
    case ExifData(data) =>
      if data.Some? && data.value != map[] {
        if orientation.None? {
          r := Err(OrientationUnbound);
        } else {
          var value := Lookup(data.value, orientation.value);
          r := Ok(RotationFor(value));
        }
      } else {
        r := Ok(0);
      }
  }

  /** What `make_thumbnail` decides: the rotation applied, the target height and the returned name. */
  datatype ThumbnailPlan = ThumbnailPlan(rotation: nat, height: nat, name: string)

  /** `make_thumbnail` without the pixels: the thumbnail is stored under `ThumbnailName` of the image. */
  method MakeThumbnail(imagePath: string, tags: seq<(int, string)>, exif: ExifRead, height: nat := DefaultThumbnailHeight)
    returns (r: Result<ThumbnailPlan, ThumbnailError>)
    ensures r.Err? <==> exif.ExifData? && exif.data.Some? && exif.data.value != map[] && tags == []
    ensures r.Ok? ==> r.value.name == ThumbnailName(imagePath) && r.value.name != imagePath && r.value.height == height
    ensures r.Ok? ==> SplitExt(r.value.name).1 == SplitExt(imagePath).1
    ensures r.Ok? ==> r.value.rotation in {0, 90, 180, 270}
    ensures exif.NoExifSupport? ==> r.Ok? && r.value.rotation == 0
    ensures exif.ExifData? && (exif.data.None? || exif.data.value == map[]) ==> r.Ok? && r.value.rotation == 0
    ensures exif.ExifData? && exif.data.Some? && exif.data.value != map[] && FirstNamed(tags, OrientationTagName).Some? ==>
              r.Ok? && r.value.rotation == RotationFor(Lookup(exif.data.value, tags[FirstNamed(tags, OrientationTagName).value].0))
    ensures exif.ExifData? && exif.data.Some? && exif.data.value != map[] && FirstNamed(tags, OrientationTagName).None? && tags != [] ==>
              r.Ok? && r.value.rotation == RotationFor(Lookup(exif.data.value, tags[|tags| - 1].0))
  {
    var angle := OrientationAngle(tags, exif);
    if angle.Err? {
      return Err(angle.error);
    }
    ThumbnailKeepsExtension(imagePath);
    r := Ok(ThumbnailPlan(angle.value, height, ThumbnailName(imagePath)));
  }
}
