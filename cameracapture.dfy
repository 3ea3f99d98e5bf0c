/** The capture path of the camera component: the canvas's JPEG data URL
    is split into the payload handed to `onCapture` and a blob whose bytes
    are the decoded payload. The camera, the canvas and `atob` are
    parameters. */
module CameraCapture {
  import opened Web
  import opened DataUrl

  /** A `Blob`: its bytes and its recorded type. */
  datatype Blob = Blob(bytes: seq<byte>, mimeType: string)

  /** What `dataURItoBlob` can throw: `atob`'s `InvalidCharacterError`, or
      the `TypeError` of calling `split` on `undefined` when the header has
      no colon. */
  datatype BlobError = DecodeError | HeaderTypeError

  /** What `capturePhoto` does: nothing (an element or the 2-D context is
      missing), one `onCapture(base64, file)` call, or an exception. */
  datatype Capture = NotCaptured | Captured(base64: Option<string>, file: File) | Threw(error: BlobError)

  /** The name and type `capturePhoto` gives the captured file. */
  const CaptureName := "camera-capture.jpg"
  const CaptureType := "image/jpeg"

  /** `atob` converts its argument to a string: an `undefined` payload is
      decoded as the text "undefined". */
  function AtobArgument(payload: Option<string>): string {
    match payload
    case Some(p) => p
    case None => "undefined"
  }

  /** `ia[i] = byteString.charCodeAt(i)`: a `Uint8Array` keeps the code
      modulo 256. */
  function StoredByte(c: char): (b: byte)
    ensures (c as int) < 256 ==> b as int == c as int
    ensures StoredByte(((c as int) % 256) as char) == b
  {
    ((c as int) % 256) as byte
  }

  /** `bytes` is the byte-for-byte copy of `byteString`. */
  predicate CopiedFrom(bytes: seq<byte>, byteString: string) {
    && |bytes| == |byteString|
    && forall i :: 0 <= i < |byteString| ==> bytes[i] == StoredByte(byteString[i])
  }

  /** Every character is one byte, as in what `atob` produces. */
  predicate Latin1(s: string) {
    forall i :: 0 <= i < |s| ==> (s[i] as int) < 256
  }

  /** A character the `Blob` constructor accepts in a type: U+0020 to
      U+007E. */
  predicate Printable(c: char) {
    ' ' <= c <= '~'
  }

  /** ASCII lowercase of one character; other characters unchanged. */
  function AsciiLower(c: char): char {
    if 'A' <= c <= 'Z' then (c as int + 32) as char else c
  }

  /** The type a `Blob` records for `{ type: t }` (section 3.1 of the W3C
      File API): the empty string when `t` holds a character outside
      U+0020 to U+007E, otherwise `t` in ASCII lowercase. */
  function BlobType(t: string): (r: string)
    ensures (exists i :: 0 <= i < |t| && !Printable(t[i])) ==> r == ""
    ensures (forall i :: 0 <= i < |t| ==> Printable(t[i])) ==>
              |r| == |t| && forall i :: 0 <= i < |t| ==> r[i] == AsciiLower(t[i])
    ensures forall i :: 0 <= i < |r| ==> Printable(r[i]) && !('A' <= r[i] <= 'Z')
  {
    if forall i :: 0 <= i < |t| ==> Printable(t[i])
    then seq(|t|, i requires 0 <= i < |t| => AsciiLower(t[i]))
    else ""
  }

  /** Normalising a type twice is normalising it once. */
  lemma BlobTypeIdempotent(t: string)
    ensures BlobType(BlobType(t)) == BlobType(t)
  {
    var r := BlobType(t);
    assert forall i :: 0 <= i < |r| ==> Printable(r[i]) && AsciiLower(r[i]) == r[i];
  }

  /** A printable type without capitals is kept as given. */
  lemma BlobTypeKeepsLowercase(t: string)
    requires forall i :: 0 <= i < |t| ==> Printable(t[i]) && !('A' <= t[i] <= 'Z')
    ensures BlobType(t) == t
  {
    assert forall i :: 0 <= i < |t| ==> AsciiLower(t[i]) == t[i];
  }

  /** `dataURItoBlob`: decode the payload, take the MIME type from the
      header, copy the decoded characters into a fresh byte array. */
  method DataUriToBlob(dataUri: string, atob: string -> Option<string>) returns (r: Result<Blob, BlobError>)
    ensures atob(AtobArgument(Payload(dataUri))).None? ==> r == Failure(DecodeError)
    ensures atob(AtobArgument(Payload(dataUri))).Some? && MimeType(dataUri).None? ==>
              r == Failure(HeaderTypeError)
    ensures r.Success? <==> atob(AtobArgument(Payload(dataUri))).Some? && MimeType(dataUri).Some?
    ensures r.Success? ==>
              && CopiedFrom(r.value.bytes, atob(AtobArgument(Payload(dataUri))).value)
              && r.value.mimeType == BlobType(MimeType(dataUri).value)
    ensures r.Success? && Latin1(atob(AtobArgument(Payload(dataUri))).value) ==>
              forall i :: 0 <= i < |r.value.bytes| ==>
                r.value.bytes[i] as int == atob(AtobArgument(Payload(dataUri))).value[i] as int
  {
    var decoded := atob(AtobArgument(Payload(dataUri)));
    if decoded.None? {
      return Failure(DecodeError);
    }
    var byteString := decoded.value;
    var mimeString := MimeType(dataUri);
    if mimeString.None? {
      return Failure(HeaderTypeError);
    }
    var ia := new byte[|byteString|];
    for i := 0 to |byteString|
      invariant forall k :: 0 <= k < i ==> ia[k] == StoredByte(byteString[k])
    {
      ia[i] := StoredByte(byteString[i]);
    }
    return Success(Blob(ia[..], BlobType(mimeString.value)));
  }

  /** `capturePhoto`, with `dataUrl` standing for the canvas's
      `toDataURL('image/jpeg', 0.8)`. When it calls `onCapture`, the
      payload it passes and the bytes of the file come from the same
      data URL, and the file is always `camera-capture.jpg` of type
      `image/jpeg`, whatever type the header names. */
  method CapturePhoto(elementsMounted: bool, hasContext: bool, dataUrl: string, atob: string -> Option<string>)
    returns (r: Capture)
    ensures !(elementsMounted && hasContext) ==> r == NotCaptured
    ensures r.Captured? <==>
              elementsMounted && hasContext &&
              atob(AtobArgument(Payload(dataUrl))).Some? && MimeType(dataUrl).Some?
    ensures r.Captured? ==>
              && r.base64 == Payload(dataUrl)
              && r.file.name == CaptureName
              && r.file.mimeType == CaptureType
              && CopiedFrom(r.file.content, atob(AtobArgument(Payload(dataUrl))).value)
    ensures elementsMounted && hasContext && !r.Captured? ==>
              r == Threw(if atob(AtobArgument(Payload(dataUrl))).None? then DecodeError else HeaderTypeError)
    ensures r.Captured? && atob("undefined").None? ==> r.base64.Some?
  {
    if !elementsMounted || !hasContext {
      return NotCaptured;
    }
    var base64 := Payload(dataUrl);
    var blob := DataUriToBlob(dataUrl, atob);
    if blob.Failure? {
      return Threw(blob.error);
    }
    var file := File(CaptureName, CaptureType, blob.value.bytes);
    return Captured(base64, file);
  }
}
