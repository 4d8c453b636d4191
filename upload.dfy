/** The upload middleware (backend/src/middlewares/upload.middleware.ts):
    multer's disk storage with a fixed destination, a generated file name,
    an image-only filter and a 5 MiB ceiling. `Date.now()` and the rounded
    random number are parameters. */
module Upload {
  import opened Common

  /** `destination`: every upload is written under this directory. */
  const Destination := "uploads/"

  /** `limits.fileSize`: 5 * 1024 * 1024 bytes. */
  const MaxFileSize: nat := 5 * 1024 * 1024

  /** The multipart field name the photo route accepts (`upload.single('photo')`). */
  const FieldName := "photo"

  const OnlyImages := "Apenas arquivos de imagem são permitidos!"
  const UnexpectedField := "Unexpected field"
  const FileTooLarge := "File too large"

  /** A file part as multer sees it before storing it. */
  datatype IncomingFile = IncomingFile(fieldname: string, originalname: string, mimetype: string, size: nat)

  /** `req.file` after the disk storage has written it. */
  datatype StoredFile = StoredFile(fieldname: string, originalname: string, mimetype: string, size: nat,
                                   destination: string, filename: string)

  /** Either the request proceeds (with or without a stored file) or multer
      hands an error to `next(err)`. */
  datatype UploadResult = Passed(file: Option<StoredFile>) | Failed(error: string)

  // ------------------------------------------------------------ file filter

  /** `fileFilter`: accept exactly the MIME types that start with `image/`,
      compared case-sensitively. */
  predicate IsImage(mimetype: string) {
    "image/" <= mimetype
  }

  lemma FilterIsCaseSensitive()
    ensures IsImage("image/png")
    ensures !IsImage("IMAGE/PNG") && !IsImage("Image/png")
    ensures !IsImage("text/plain") && !IsImage("image")
  {
    assert "IMAGE/PNG"[0] != "image/"[0];
    assert "Image/png"[0] != "image/"[0];
    assert "text/plain"[0] != "image/"[0];
  }

  // ------------------------------------------------------- decimal numerals

  predicate IsDigit(c: char) {
    '0' <= c <= '9'
  }

  function DigitChar(d: nat): (c: char)
    requires d < 10
    ensures IsDigit(c)
  {
    (48 + d) as char
  }

  function DigitValue(c: char): nat
    requires IsDigit(c)
  {
    (c as int) - 48
  }

  /** `String(n)` for a non-negative integer: its decimal digits, no leading zeros. */
  function Decimal(n: nat): (s: string)
    ensures |s| >= 1
    ensures forall c :: c in s ==> IsDigit(c)
  {
    if n < 10 then [DigitChar(n)] else Decimal(n / 10) + [DigitChar(n % 10)]
  }

  /** The value of a string of decimal digits. */
  function ParseDecimal(s: string): nat
    requires forall c :: c in s ==> IsDigit(c)
  {
    if s == [] then 0
    else
      assert s[|s| - 1] in s;
      10 * ParseDecimal(s[..|s| - 1]) + DigitValue(s[|s| - 1])
  }

  lemma {:induction false} DecimalRoundTrip(n: nat)
    ensures ParseDecimal(Decimal(n)) == n
  {
    if n >= 10 {
      DecimalRoundTrip(n / 10);
      var s := Decimal(n);
      assert s[..|s| - 1] == Decimal(n / 10);
    }
  }

  lemma DecimalHasNoDash(n: nat)
    ensures '-' !in Decimal(n)
  {
  }

  lemma DecimalInjective(a: nat, b: nat)
    requires Decimal(a) == Decimal(b)
    ensures a == b
  {
    DecimalRoundTrip(a);
    DecimalRoundTrip(b);
  }

  // --------------------------------------------------------------- extname

  function StripTrailingSlashes(s: string): (r: string)
    ensures r <= s
    ensures r == [] || r[|r| - 1] != '/'
  {
    if s != [] && s[|s| - 1] == '/' then StripTrailingSlashes(s[..|s| - 1]) else s
  }

  /** The last path portion: what follows the last `/`. */
  function AfterLastSlash(s: string): (r: string)
    ensures IsSuffix(r, s) && '/' !in r
  {
    if s == [] then []
    else if s[|s| - 1] == '/' then []
    else
      var r := AfterLastSlash(s[..|s| - 1]) + [s[|s| - 1]];
      assert s == s[..|s| - 1] + [s[|s| - 1]];
      r
  }

  /** The index of the last `.` in `s`, if any. */
  function LastDot(s: string): (k: Option<nat>)
    ensures k.Some? ==> k.value < |s| && s[k.value] == '.' && '.' !in s[k.value + 1..]
    ensures k.None? ==> '.' !in s
  {
    if s == [] then None
    else if s[|s| - 1] == '.' then Some(|s| - 1)
    else
      var k := LastDot(s[..|s| - 1]);
      assert s == s[..|s| - 1] + [s[|s| - 1]];
      k
  }

  /** Node's `path.extname` (POSIX): from the last `.` of the last path
      portion to its end; empty when the portion has no `.`, when its only
      `.` that counts is its first character, and for `..`. */
  function Extname(path: string): (ext: string)
    ensures ext == [] || (ext[0] == '.' && '.' !in ext[1..] && '/' !in ext)
    ensures IsSuffix(ext, StripTrailingSlashes(path))
  {
    var trimmed := StripTrailingSlashes(path);
    var base := AfterLastSlash(trimmed);
    match LastDot(base)
    case None => []
    case Some(k) =>
      if k == 0 || base == ".." then []
      else
        assert IsSuffix(base[k..], base);
        base[k..]
  }

  lemma {:induction false} BasenameWithoutSlash(s: string)
    requires '/' !in s
    ensures AfterLastSlash(s) == s
  {
    if s != [] {
      BasenameWithoutSlash(s[..|s| - 1]);
      assert s == s[..|s| - 1] + [s[|s| - 1]];
    }
  }

  /** A file's extension keeps its case and only the last suffix counts. */
  lemma ExtnameOfPhoto()
    ensures Extname("foto.JPG") == ".JPG"
    ensures Extname("a.tar.gz") == ".gz"
  {
    BasenameWithoutSlash("foto.JPG");
    assert LastDot("foto.JPG") == Some(4);
    BasenameWithoutSlash("a.tar.gz");
    assert LastDot("a.tar.gz") == Some(5);
  }

  /** A leading dot does not start an extension. */
  lemma ExtnameOfDotFile()
    ensures Extname(".env") == ""
  {
    BasenameWithoutSlash(".env");
    assert LastDot(".env") == Some(0);
  }

  // -------------------------------------------------------------- filename

  /** `filename`: `fieldname-<Date.now()>-<random>` followed by the original
      file's extension. */
  function Filename(fieldname: string, timestamp: nat, random: nat, originalname: string): (name: string)
    ensures fieldname + "-" <= name
    ensures IsSuffix(Extname(originalname), name)
  {
    var name := fieldname + "-" + Decimal(timestamp) + "-" + Decimal(random) + Extname(originalname);
    assert (fieldname + "-") + (Decimal(timestamp) + "-" + Decimal(random) + Extname(originalname)) == name;
    name
  }

  /** Splitting at the first occurrence of a separator is unique. */
  lemma SplitAtSeparator(a1: string, b1: string, a2: string, b2: string, sep: char)
    requires sep !in a1 && sep !in a2
    requires a1 + [sep] + b1 == a2 + [sep] + b2
    ensures a1 == a2 && b1 == b2
  {
    var s := a1 + [sep] + b1;
    assert forall k :: 0 <= k < |a1| ==> s[k] == a1[k];
    assert forall k :: 0 <= k < |a2| ==> s[k] == a2[k];
    assert s[|a1|] == sep && s[|a2|] == sep;
    assert |a1| == |a2|;
    assert a1 == s[..|a1|] == a2;
    assert b1 == s[|a1| + 1..] == b2;
  }

  /** A common prefix and a common suffix cancel. */
  lemma CancelAffixes(p: string, m1: string, m2: string, e: string)
    requires p + m1 + e == p + m2 + e
    ensures m1 == m2
  {
    var s := p + m1 + e;
    assert m1 == s[|p|..|p| + |m1|];
    assert m2 == (p + m2 + e)[|p|..|p| + |m2|];
  }

  /** Two uploads of the same file under the same field get different
      names unless both the timestamp and the random number coincide. */
  lemma FilenameInjective(fieldname: string, originalname: string, t1: nat, r1: nat, t2: nat, r2: nat)
    requires Filename(fieldname, t1, r1, originalname) == Filename(fieldname, t2, r2, originalname)
    ensures t1 == t2 && r1 == r2
  {
    var m1 := Decimal(t1) + "-" + Decimal(r1);
    var m2 := Decimal(t2) + "-" + Decimal(r2);
    FilenameParts(fieldname, t1, r1, originalname);
    FilenameParts(fieldname, t2, r2, originalname);
    CancelAffixes(fieldname + "-", m1, m2, Extname(originalname));
    DecimalHasNoDash(t1);
    DecimalHasNoDash(t2);
    SplitAtSeparator(Decimal(t1), Decimal(r1), Decimal(t2), Decimal(r2), '-');
    DecimalInjective(t1, t2);
    DecimalInjective(r1, r2);
  }

  lemma FilenameParts(fieldname: string, t: nat, r: nat, originalname: string)
    ensures Filename(fieldname, t, r, originalname) ==
              (fieldname + "-") + (Decimal(t) + "-" + Decimal(r)) + Extname(originalname)
  {
    Regroup(fieldname + "-", Decimal(t), Decimal(r), Extname(originalname));
  }

  lemma Regroup(p: string, d1: string, d2: string, e: string)
    ensures p + d1 + "-" + d2 + e == p + (d1 + "-" + d2) + e
  {
  }

  // ------------------------------------------------------ the middleware

  /** `upload.single('photo')` on a request carrying at most one file part:
      a part under another field name, a non-image and an oversized file are
      refused in that order; a request without a file passes with none. */
  function SingleUpload(file: Option<IncomingFile>, timestamp: nat, random: nat): (r: UploadResult)
    ensures r.Passed? <==>
              file.None? ||
              (file.value.fieldname == FieldName && IsImage(file.value.mimetype) && file.value.size <= MaxFileSize)
    ensures file.None? ==> r == Passed(None)
    ensures file.Some? && file.value.fieldname == FieldName && !IsImage(file.value.mimetype) ==>
              r == Failed(OnlyImages)
    ensures r.Passed? && file.Some? ==>
              r.file.Some? &&
              r.file.value.destination == Destination &&
              r.file.value.filename == Filename(file.value.fieldname, timestamp, random, file.value.originalname) &&
              r.file.value.mimetype == file.value.mimetype
  {
    match file
    case None => Passed(None)
    case Some(f) =>
      if f.fieldname != FieldName then Failed(UnexpectedField)
      else if !IsImage(f.mimetype) then Failed(OnlyImages)
      else if f.size > MaxFileSize then Failed(FileTooLarge)
      else Passed(Some(StoredFile(f.fieldname, f.originalname, f.mimetype, f.size, Destination,
                                  Filename(f.fieldname, timestamp, random, f.originalname))))
  }

  /** The ceiling in bytes: 5 MiB is 5242880; a file of exactly that size is
      kept and one byte more is refused. */
  lemma SizeCeiling(f: IncomingFile, timestamp: nat, random: nat)
    requires f.fieldname == FieldName && IsImage(f.mimetype)
    ensures MaxFileSize == 5242880
    ensures SingleUpload(Some(f), timestamp, random).Passed? <==> f.size <= 5242880
  {
  }
}
