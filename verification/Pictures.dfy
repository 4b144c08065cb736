/** The picture a brief or an announcement may carry (packages/civic.brief/service.ts, packages/civic.announcement/service.ts). */
module Pictures {
  import opened Wrappers
  import opened Text

  const IMAGE_URL_MAX: nat := 1000
  const IMAGE_ALT_MAX: nat := 200

  datatype Picture = Picture(url: Option<string>, alt: Option<string>)

  datatype PictureError = UrlTooLong | NotHttp | AltTooLong

  predicate Letter(c: char, lower: char, upper: char) {
    c == lower || c == upper
  }

  /** `^https?:\/\/`, ignoring case. */
  predicate HttpUrl(s: string) {
    && |s| >= 7
    && Letter(s[0], 'h', 'H') && Letter(s[1], 't', 'T') && Letter(s[2], 't', 'T') && Letter(s[3], 'p', 'P')
    && (s[4..7] == "://" || (|s| >= 8 && Letter(s[4], 's', 'S') && s[5..8] == "://"))
  }

  function TrimmedOr(s: Option<string>): string {
    if s.Some? then Trim(s.value) else ""
  }

  /** No picture without an address; a description of no picture is dropped. */
  function SanitizeImage(raw: Picture): Result<Picture, PictureError> {
    var url, alt := TrimmedOr(raw.url), TrimmedOr(raw.alt);
    if url == "" then Ok(Picture(None, None))
    else if Length(url) > IMAGE_URL_MAX then Err(UrlTooLong)
    else if !HttpUrl(url) then Err(NotHttp)
    else if Length(alt) > IMAGE_ALT_MAX then Err(AltTooLong)
    else Ok(Picture(Some(url), if alt == "" then None else Some(alt)))
  }

  /** A picture that was accepted is accepted again as it is. */
  lemma SanitizeImageSettles(raw: Picture)
    requires SanitizeImage(raw).Ok?
    ensures SanitizeImage(SanitizeImage(raw).value) == SanitizeImage(raw)
    ensures SanitizeImage(raw).value.alt.Some? ==> SanitizeImage(raw).value.url.Some?
  {
    var url, alt := TrimmedOr(raw.url), TrimmedOr(raw.alt);
    hide Trim, Length, HttpUrl;
    TrimAgain(raw.url);
    TrimAgain(raw.alt);
  }

  /** What a picture becomes: nothing without an address, else its address and its description, trimmed; and when it is refused. */
  lemma PictureIff(raw: Picture)
    ensures var r, url, alt := SanitizeImage(raw), TrimmedOr(raw.url), TrimmedOr(raw.alt);
            && (url == "" ==> r == Ok(Picture(None, None)))
            && (url != "" ==>
                  && (r.Ok? <==> Length(url) <= 1000 && HttpUrl(url) && Length(alt) <= 200)
                  && (r.Ok? ==> r.value.url == Some(url) && r.value.alt == if alt == "" then None else Some(alt))
                  && (r == Err(UrlTooLong) <==> Length(url) > 1000)
                  && (r == Err(NotHttp) <==> Length(url) <= 1000 && !HttpUrl(url)))
  {
    hide Trim, Length, HttpUrl;
  }

  /** An address is of the web when it starts so, in whatever case; not when another letter stands there. */
  lemma HttpUrlStarts(rest: string)
    ensures HttpUrl("http://" + rest) && HttpUrl("https://" + rest) && HttpUrl("HTTPS://" + rest)
    ensures !HttpUrl("javascript:" + rest) && !HttpUrl("http:" + "x" + rest) && !HttpUrl("ftp://" + rest)
  {
    assert ("http://" + rest)[4..7] == "://" && ("https://" + rest)[5..8] == "://" && ("HTTPS://" + rest)[5..8] == "://";
    assert ("javascript:" + rest)[0] == 'j' && ("ftp://" + rest)[0] == 'f';
    var s := "http:" + "x" + rest;
    assert s[4] == ':' && s[5] == 'x';
    assert |s| >= 7 ==> s[4..7][1] == 'x';
  }

  lemma TrimAgain(s: Option<string>)
    ensures Trim(TrimmedOr(s)) == TrimmedOr(s)
  {
    TrimTwice(if s.Some? then s.value else "");
  }
}
