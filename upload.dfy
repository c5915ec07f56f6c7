/** The image upload endpoint (POST /api/upload-image): the ordered
    validation chain, the sanitised and time-stamped file name, and the URL
    it answers with.  The clock and the outcome of reading the form and
    writing the file are inputs. */
module UploadImage {
  import opened Options

  /** 5 MiB */
  const MAX_SIZE: nat := 5 * 1024 * 1024

  const NO_FILE: string := "No image file provided"
  const BAD_TYPE: string := "Invalid file type. Only images are allowed."
  const TOO_LARGE: string := "File size exceeds 5MB limit."
  const FAILED: string := "Failed to upload image"
  const IMAGE_PREFIX: string := "image/"
  const URL_PREFIX: string := "/images/"

  datatype ImageFile = ImageFile(mimeType: string, size: nat, name: string)

  /** The multipart form as read: unreadable, or read with or without an "image" entry. */
  datatype Form = UnreadableForm | ReadForm(image: Option<ImageFile>)

  datatype Body = ErrorBody(error: string) | UrlBody(imageUrl: string)
  datatype Response = Response(status: nat, body: Body)

  // ---- file name sanitising: /[^a-zA-Z0-9.-]/g -> "_" ----

  predicate Allowed(c: char)
  {
    ('a' <= c <= 'z') || ('A' <= c <= 'Z') || ('0' <= c <= '9') || c == '.' || c == '-'
  }

  function SanitizeChar(c: char): char { if Allowed(c) then c else '_' }

  /** Every character outside [a-zA-Z0-9.-] becomes "_": the result has the
      same length, keeps every allowed character where it was, and holds
      nothing but allowed characters and "_". */
  function Sanitize(name: string): (r: string)
    ensures |r| == |name|
    ensures forall i | 0 <= i < |r| :: Allowed(r[i]) || r[i] == '_'
    ensures forall i | 0 <= i < |r| :: Allowed(name[i]) ==> r[i] == name[i]
    ensures forall i | 0 <= i < |r| :: !Allowed(name[i]) ==> r[i] == '_'
  {
    seq(|name|, i requires 0 <= i < |name| => SanitizeChar(name[i]))
  }

  /** Sanitising is idempotent, and it leaves a name unchanged exactly when
      the name is already made of allowed characters and "_". */
  lemma SanitizeLaws(name: string)
    ensures Sanitize(Sanitize(name)) == Sanitize(name)
    ensures Sanitize(name) == name <==> forall i | 0 <= i < |name| :: Allowed(name[i]) || name[i] == '_'
  {
    if forall i | 0 <= i < |name| :: Allowed(name[i]) || name[i] == '_' {
      assert forall i | 0 <= i < |name| :: Sanitize(name)[i] == name[i];
    }
  }

  // ---- the time stamp: String(n).padStart(2, "0") ----

  predicate IsDigit(c: char) { '0' <= c <= '9' }

  function DigitChar(d: nat): char
    requires d < 10
  {
    ('0' as int + d) as char
  }

  function DigitValue(c: char): int { c as int - '0' as int }

  /** String(n) for a natural number. */
  function Decimal(n: nat): (s: string)
    ensures |s| >= 1
    ensures n < 10 <==> |s| == 1
    ensures n < 100 ==> |s| <= 2
    decreases n
  {
    if n < 10 then [DigitChar(n)] else Decimal(n / 10) + [DigitChar(n % 10)]
  }

  /** The value a string of decimal digits denotes. */
  function DigitsValue(s: string): int
    decreases |s|
  {
    if s == [] then 0 else 10 * DigitsValue(s[..|s| - 1]) + DigitValue(s[|s| - 1])
  }

  /** String(n) is made of digits and reads back as n. */
  lemma {:induction false} DecimalRoundTrip(n: nat)
    ensures forall i | 0 <= i < |Decimal(n)| :: IsDigit(Decimal(n)[i])
    ensures DigitsValue(Decimal(n)) == n
    decreases n
  {
    if n >= 10 {
      DecimalRoundTrip(n / 10);
      var s := Decimal(n);
      assert s[..|s| - 1] == Decimal(n / 10);
    } else {
      assert Decimal(n)[..0] == [];
    }
  }

  /** padStart(2, "0"): a one-digit string gets a leading zero, longer ones stay. */
  function PadTwo(s: string): (r: string)
    ensures |s| >= 2 ==> r == s
    ensures |s| < 2 ==> |r| == 2 && r[2 - |s|..] == s
  {
    if |s| >= 2 then s else seq(2 - |s|, _ => '0') + s
  }

  /** For an hour or a minute (below 100), the padded form is two digits that
      read back as the number. */
  lemma TwoDigits(n: nat)
    requires n < 100
    ensures var r := PadTwo(Decimal(n));
            |r| == 2 && IsDigit(r[0]) && IsDigit(r[1]) && DigitsValue(r) == n
  {
    DecimalRoundTrip(n);
    var s := Decimal(n);
    var r := PadTwo(s);
    if |s| == 1 {
      assert r == ['0'] + s;
      assert r[..1] == ['0'];
      assert DigitsValue(['0']) == 0 by { assert ['0'][..0] == []; }
      assert s[..0] == [];
    } else {
      assert r == s;
    }
  }

  /** `${hours}${minutes}_${sanitised name}` */
  function FileName(hours: nat, minutes: nat, name: string): (r: string)
    ensures |r| >= 5 + |name|
    ensures r[|r| - |name| - 1..] == "_" + Sanitize(name)
  {
    PadTwo(Decimal(hours)) + PadTwo(Decimal(minutes)) + "_" + Sanitize(name)
  }

  /** With a clock reading (hours below 24, minutes below 60) the file name is
      four digits that give back the time, "_", and the sanitised name; it
      never contains a path separator, so the file stays in the images
      directory. */
  lemma FileNameShape(hours: nat, minutes: nat, name: string)
    requires hours < 24 && minutes < 60
    ensures var f := FileName(hours, minutes, name);
            && |f| == |name| + 5
            && (forall i | 0 <= i < 4 :: IsDigit(f[i]))
            && DigitsValue(f[..2]) == hours && DigitsValue(f[2..4]) == minutes
            && f[4] == '_' && f[5..] == Sanitize(name)
            && '/' !in f && '\\' !in f
  {
    TwoDigits(hours);
    TwoDigits(minutes);
    var f := FileName(hours, minutes, name);
    var h, m := PadTwo(Decimal(hours)), PadTwo(Decimal(minutes));
    assert f == h + m + "_" + Sanitize(name);
    assert f[..2] == h && f[2..4] == m;
    assert forall i | 0 <= i < |f| :: IsDigit(f[i]) || f[i] == '_' || Allowed(f[i]) by {
      forall i | 0 <= i < |f| ensures IsDigit(f[i]) || f[i] == '_' || Allowed(f[i]) {
        if i >= 5 { assert f[i] == Sanitize(name)[i - 5]; }
      }
    }
  }

  // ---- the handler ----

  /** The early returns in order: a missing file, then a non-image type,
      then a size above MAX_SIZE. */
  function Rejection(image: Option<ImageFile>): (r: Option<Response>)
    ensures image.None? ==> r == Some(Response(400, ErrorBody(NO_FILE)))
    ensures image.Some? && !(IMAGE_PREFIX <= image.value.mimeType) ==> r == Some(Response(400, ErrorBody(BAD_TYPE)))
    ensures image.Some? && IMAGE_PREFIX <= image.value.mimeType && image.value.size > MAX_SIZE ==>
              r == Some(Response(400, ErrorBody(TOO_LARGE)))
    ensures r.None? <==> image.Some? && IMAGE_PREFIX <= image.value.mimeType && image.value.size <= MAX_SIZE
    ensures r.Some? ==> r.value.status == 400
  {
    match image
    case None => Some(Response(400, ErrorBody(NO_FILE)))
    case Some(file) =>
      if !(IMAGE_PREFIX <= file.mimeType) then Some(Response(400, ErrorBody(BAD_TYPE)))
      else if file.size > MAX_SIZE then Some(Response(400, ErrorBody(TOO_LARGE)))
      else None
  }

  /** POST: an unreadable form or a failed write answers 500; a rejected file
      answers 400 without anything written; otherwise 200 with the public URL
      of the stored file. */
  function Post(form: Form, hours: nat, minutes: nat, stored: bool): (r: Response)
    ensures form.UnreadableForm? ==> r == Response(500, ErrorBody(FAILED))
    ensures form.ReadForm? && Rejection(form.image).Some? ==> r == Rejection(form.image).value
    ensures form.ReadForm? && Rejection(form.image).None? && !stored ==> r == Response(500, ErrorBody(FAILED))
    ensures r.status == 200 <==> form.ReadForm? && Rejection(form.image).None? && stored
    ensures r.status == 200 ==> r.body == UrlBody(URL_PREFIX + FileName(hours, minutes, form.image.value.name))
  {
    match form
    case UnreadableForm => Response(500, ErrorBody(FAILED))
    case ReadForm(image) =>
      match Rejection(image)
      case Some(rejected) => rejected
      case None =>
        if !stored then Response(500, ErrorBody(FAILED))
        else Response(200, UrlBody(URL_PREFIX + FileName(hours, minutes, image.value.name)))
  }

  /** The size limit is inclusive: a 5 MiB image is accepted and one byte
      more is refused. */
  lemma SizeBoundary(mimeType: string, name: string)
    requires IMAGE_PREFIX <= mimeType
    ensures Rejection(Some(ImageFile(mimeType, MAX_SIZE, name))).None?
    ensures Rejection(Some(ImageFile(mimeType, MAX_SIZE + 1, name))) == Some(Response(400, ErrorBody(TOO_LARGE)))
  {
  }

  /** The URL of a stored image is "/images/" followed by a name with no
      further "/", so it always points directly into the images directory. */
  lemma UrlStaysInImages(form: Form, hours: nat, minutes: nat, stored: bool)
    requires hours < 24 && minutes < 60
    requires Post(form, hours, minutes, stored).status == 200
    ensures var url := Post(form, hours, minutes, stored).body.imageUrl;
            URL_PREFIX <= url && '/' !in url[|URL_PREFIX|..]
  {
    var f := FileName(hours, minutes, form.image.value.name);
    FileNameShape(hours, minutes, form.image.value.name);
    assert (URL_PREFIX + f)[|URL_PREFIX|..] == f;
  }
}
