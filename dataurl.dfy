/** The two pieces the components cut out of a data URL of the form
    `data:<mediatype>[;base64],<data>` (section 3 of RFC 2397), with the
    same chains of `split` calls the source uses. */
module DataUrl {
  import opened Web
  import opened JsString

  /** `dataUrl.split(',')[1]`: the encoded payload, `None` (undefined) when
      the URL has no comma. */
  function Payload(dataUrl: string): (r: Option<string>)
    ensures r.None? <==> ',' !in dataUrl
    ensures r.Some? ==> ',' !in r.value
  {
    Field(dataUrl, ',', 1)
  }

  /** `dataUrl.split(',')[0]`: the header before the first comma. */
  function Header(dataUrl: string): (h: string)
    ensures ',' !in h
  {
    Split(dataUrl, ',')[0]
  }

  /** `dataUrl.split(',')[0].split(':')[1].split(';')[0]`. `None` is the
      `TypeError` thrown when the header has no colon, so that the middle
      `split` yields `undefined` and the last one is called on it. */
  function MimeType(dataUrl: string): (r: Option<string>)
    ensures r.None? <==> ':' !in Header(dataUrl)
    ensures r.Some? ==> ',' !in r.value && ':' !in r.value && ';' !in r.value
  {
    match Field(Header(dataUrl), ':', 1)
    case None => None
    case Some(afterColon) =>
      // A piece of the comma-free header, so it holds no comma either.
      assert afterColon == Split(Header(dataUrl), ':')[1];
      Some(Split(afterColon, ';')[0])
  }

  /** The payload is exactly the text between the first and the second
      comma: for a well-formed data URL, everything after the comma. */
  lemma PayloadBetweenCommas(header: string, data: string, post: string)
    requires ',' !in header && ',' !in data
    requires post == [] || post[0] == ','
    ensures Payload(header + [','] + data + post) == Some(data)
  {
    SecondField(header, ',', data, post);
  }

  /** The MIME type is the text between the first `:` and the next `;` of
      the header, whatever parameters follow it (`;charset=…`, `;base64`). */
  lemma MimeTypeOfHeader(scheme: string, mime: string, params: string, rest: string)
    requires ',' !in scheme && ':' !in scheme
    requires ',' !in mime && ':' !in mime && ';' !in mime
    requires ',' !in params && (params == [] || params[0] == ';')
    ensures MimeType(scheme + [':'] + mime + params + [','] + rest) == Some(mime)
  {
    var header := scheme + [':'] + mime + params;
    HeaderOf(header, rest);
    var colonRest := ColonPrefix(params);
    var field := mime + colonRest;
    assert colonRest == [] || colonRest[0] == ';';
    assert header == scheme + [':'] + field + params[|colonRest|..];
    SecondField(scheme, ':', field, params[|colonRest|..]);
    FirstField(mime, ';', colonRest);
  }

  /** The header of `header + "," + rest` is `header` when it has no comma. */
  lemma HeaderOf(header: string, rest: string)
    requires ',' !in header
    ensures Header(header + [','] + rest) == header
  {
    SplitAfterPrefix(header, ',', rest);
  }

  /** The longest colon-free prefix of `s`. */
  function ColonPrefix(s: string): (p: string)
    ensures |p| <= |s| && p == s[..|p|] && ':' !in p
    ensures |p| < |s| ==> s[|p|] == ':'
  {
    if s == [] || s[0] == ':' then [] else
      var p := [s[0]] + ColonPrefix(s[1..]);
      assert s[..|p|] == [s[0]] + s[1..][..|p| - 1];
      p
  }

  /** The URL a canvas produces for `toDataURL('image/jpeg')` yields the
      JPEG MIME type and its payload. */
  lemma JpegDataUrl(data: string)
    requires ',' !in data
    ensures Payload("data:image/jpeg;base64," + data) == Some(data)
    ensures MimeType("data:image/jpeg;base64," + data) == Some("image/jpeg")
  {
    JpegUrlParts(data);
    PayloadBetweenCommas("data:image/jpeg;base64", data, []);
    MimeTypeOfHeader("data", "image/jpeg", ";base64", data);
  }

  /** The pieces of a JPEG data URL, for the lemma above. */
  lemma JpegUrlParts(data: string)
    ensures "data:image/jpeg;base64," + data == "data:image/jpeg;base64" + [','] + data + []
    ensures "data:image/jpeg;base64," + data == "data" + [':'] + "image/jpeg" + ";base64" + [','] + data
    ensures ',' !in "data:image/jpeg;base64"
  {
    assert "data" + [':'] + "image/jpeg" + ";base64" + [','] == "data:image/jpeg;base64,";
    assert "data:image/jpeg;base64" + [','] == "data:image/jpeg;base64,";
  }


}
