/** The API's Base64 image field: it accepts a data URI
    `data:image/<ext>;base64,<payload>`, decodes the payload and hands an
    uploaded file named `image.<ext>` to the framework's own image field.

    The source's pattern requires the payload to end in exactly `==`. The
    corrected field admits zero to two pad characters, as a standard Base64
    encoding has. */
module ImageField {
  import opened Wrappers
  import opened Text
  import opened Base64

  const DataPrefix := "data:image/"
  const Base64Marker := ";base64,"

  /** How many trailing `=` the payload pattern admits: `==` as written,
      `={0,2}` as corrected. */
  datatype PadRule = ExactlyTwo | UpToTwo

  predicate AllowedPads(rule: PadRule, pads: nat) {
    match rule
    case ExactlyTwo => pads == 2
    case UpToTwo => pads <= 2
  }

  predicate IsPad(c: char) { c == '=' }

  /** The groups of a matched data URI: the extension, the payload's data
      characters and the number of pad characters after them. */
  datatype DataUri = DataUri(extension: string, data: string, pads: nat)

  /** What `$` admits after the last group: nothing, or one final newline. */
  predicate IsEnd(tail: string) { tail == "" || tail == "\n" }

  function Compose(m: DataUri, tail: string): (s: string) {
    DataPrefix + (m.extension + (Base64Marker + (m.data + (PadString(m.pads) + tail))))
  }

  /** The part after `;base64,`: a non-empty run of Base64 data characters
      and an admitted number of pads, then the end. */
  ghost predicate IsPayload(w: string, rule: PadRule, data: string, pads: nat) {
    && |data| > 0 && AllBase64(data)
    && AllowedPads(rule, pads)
    && exists tail :: IsEnd(tail) && w == data + (PadString(pads) + tail)
  }

  /** `s` is the data URI `m` in full: a non-empty lower-case extension and
      a payload as above. */
  ghost predicate IsDataUri(s: string, rule: PadRule, m: DataUri) {
    && |m.extension| > 0 && (forall i :: 0 <= i < |m.extension| ==> IsAsciiLower(m.extension[i]))
    && |m.data| > 0 && AllBase64(m.data)
    && AllowedPads(rule, m.pads)
    && exists tail :: IsEnd(tail) && s == Compose(m, tail)
  }

  /** The payload groups, matched greedily. */
  function MatchPayload(w: string, rule: PadRule): (r: Option<(string, nat)>)
    ensures r.Some? ==> IsPayload(w, rule, r.value.0, r.value.1)
  {
    var d := RunLength(w, IsBase64Char);
    var x := w[d..];
    var k := Min(RunLength(x, IsPad), 2);
    if d == 0 || !AllowedPads(rule, k) || !IsEnd(x[k..]) then None
    else
      assert x[..k] == PadString(k);
      assert w == w[..d] + (PadString(k) + x[k..]);
      Some((w[..d], k))
  }

  lemma MatchPayloadComplete(w: string, rule: PadRule, data: string, pads: nat)
    requires IsPayload(w, rule, data, pads)
    ensures MatchPayload(w, rule) == Some((data, pads))
  {
    var tail :| IsEnd(tail) && w == data + (PadString(pads) + tail);
    var x := PadString(pads) + tail;
    assert |x| == 0 || !IsBase64Char(x[0]) by {
      if pads > 0 { assert x[0] == PadString(pads)[0]; }
      else { assert x == tail; }
    }
    RunLengthOfConcat(data, x, IsBase64Char);
    assert w[|data|..] == x && w[..|data|] == data;
    RunLengthOfConcat(PadString(pads), tail, IsPad);
    assert x[pads..] == tail;
  }

  /** `re.match` of the data-URI pattern, read left to right. Every class
      run is followed by a character outside its class, so the greedy reading
      is the only one. */
  function MatchDataUri(s: string, rule: PadRule): (r: Option<DataUri>)
    ensures r.Some? ==> IsDataUri(s, rule, r.value)
  {
    if !StartsWith(s, DataPrefix) then None
    else
      var t := s[|DataPrefix|..];
      var e := RunLength(t, IsAsciiLower);
      var u := t[e..];
      if e == 0 || !StartsWith(u, Base64Marker) then None
      else
        var w := u[|Base64Marker|..];
        match MatchPayload(w, rule)
        case None => None
        case Some((data, pads)) =>
          var m := DataUri(t[..e], data, pads);
          DataUriParts(s, t, u, w, m, rule);
          Some(m)
  }

  /** The pieces `MatchDataUri` cuts `s` into compose back to `s`. */
  lemma DataUriParts(s: string, t: string, u: string, w: string, m: DataUri, rule: PadRule)
    requires StartsWith(s, DataPrefix) && t == s[|DataPrefix|..]
    requires 0 < |m.extension| <= |t| && m.extension == t[..|m.extension|] && u == t[|m.extension|..]
    requires forall i :: 0 <= i < |m.extension| ==> IsAsciiLower(t[i])
    requires StartsWith(u, Base64Marker) && w == u[|Base64Marker|..]
    requires IsPayload(w, rule, m.data, m.pads)
    ensures IsDataUri(s, rule, m)
  {
    var tail :| IsEnd(tail) && w == m.data + (PadString(m.pads) + tail);
    assert forall i :: 0 <= i < |m.extension| ==> m.extension[i] == t[i];
    assert s == DataPrefix + t;
    assert t == m.extension + u;
    assert u == Base64Marker + w;
    assert s == Compose(m, tail);
  }

  /** Every data URI is matched, with exactly its own groups. */
  lemma MatchDataUriComplete(s: string, rule: PadRule, m: DataUri)
    requires IsDataUri(s, rule, m)
    ensures MatchDataUri(s, rule) == Some(m)
  {
    var tail :| IsEnd(tail) && s == Compose(m, tail);
    var w := m.data + (PadString(m.pads) + tail);
    assert IsPayload(w, rule, m.data, m.pads);
    MatchPayloadComplete(w, rule, m.data, m.pads);
    var u := Base64Marker + w;
    var t := m.extension + u;
    ComposeSplits(s, m, t, u, w, tail);
    RunLengthOfConcat(m.extension, u, IsAsciiLower);
  }

  lemma ComposeSplits(s: string, m: DataUri, t: string, u: string, w: string, tail: string)
    requires s == Compose(m, tail)
    requires w == m.data + (PadString(m.pads) + tail) && u == Base64Marker + w && t == m.extension + u
    ensures StartsWith(s, DataPrefix) && s[|DataPrefix|..] == t
    ensures t[|m.extension|..] == u && t[..|m.extension|] == m.extension
    ensures StartsWith(u, Base64Marker) && u[|Base64Marker|..] == w
  {
  }

  /** SimpleUploadedFile(name, content, content_type) */
  datatype UploadedFile = UploadedFile(name: string, content: seq<Byte>, contentType: string)

  /** `self.fail('invalid')` */
  datatype FieldError = Invalid

  function FileName(extension: string): (name: string) { "image." + extension }

  function ContentType(extension: string): (contentType: string) { "image/" + extension }

  /** `to_internal_value(data)` up to the call of the parent field, which
      receives the returned file. */
  function ToInternalValue(data: string, rule: PadRule): (r: Result<UploadedFile, FieldError>)
    // Anything but a data URI is invalid.
    ensures (forall m :: !IsDataUri(data, rule, m)) ==> r == Err(Invalid)
    // A data URI is accepted exactly when its payload decodes, and the file
    // then carries the decoded bytes under the URI's extension.
    ensures forall m :: IsDataUri(data, rule, m) ==>
      && (r.Ok? <==> Decodable(|m.data|, m.pads))
      && (r.Ok? ==> r.value == UploadedFile(FileName(m.extension), DecodeData(m.data), ContentType(m.extension)))
  {
    match MatchDataUri(data, rule)
    case None =>
      assert forall m :: !IsDataUri(data, rule, m) by {
        forall m | IsDataUri(data, rule, m) ensures false { MatchDataUriComplete(data, rule, m); }
      }
      Err(Invalid)
    case Some(m) =>
      assert forall m' :: IsDataUri(data, rule, m') ==> m' == m by {
        forall m' | IsDataUri(data, rule, m') ensures m' == m { MatchDataUriComplete(data, rule, m'); }
      }
      match B64Decode(m.data, m.pads)
      case Err(_) => Err(Invalid)
      case Ok(content) => Ok(UploadedFile(FileName(m.extension), content, ContentType(m.extension)))
  }

  /** The data URI a client builds from image bytes with the standard encoder. */
  function EncodedUri(extension: string, b: seq<Byte>): (s: string) {
    DataPrefix + (extension + (Base64Marker + Encode(b)))
  }

  lemma EncodedUriIsDataUri(extension: string, b: seq<Byte>, rule: PadRule)
    requires |extension| > 0 && forall i :: 0 <= i < |extension| ==> IsAsciiLower(extension[i])
    requires |b| > 0 && AllowedPads(rule, PadCount(|b|))
    ensures IsDataUri(EncodedUri(extension, b), rule, DataUri(extension, EncodeData(b), PadCount(|b|)))
  {
    var m := DataUri(extension, EncodeData(b), PadCount(|b|));
    EncodedUriComposes(extension, b);
    assert IsEnd("") && EncodedUri(extension, b) == Compose(m, "");
  }

  lemma EncodedUriComposes(extension: string, b: seq<Byte>)
    ensures EncodedUri(extension, b) == Compose(DataUri(extension, EncodeData(b), PadCount(|b|)), "")
  {
    var pads := PadString(PadCount(|b|));
    assert pads + "" == pads;
  }

  /** As written, a standard encoding is accepted only when its length in
      bytes leaves remainder 1 modulo 3, the one case that ends in `==`; for
      those the file holds the original bytes. */
  lemma AsWrittenAcceptsOnlyDoublePadded(extension: string, b: seq<Byte>)
    requires |extension| > 0 && forall i :: 0 <= i < |extension| ==> IsAsciiLower(extension[i])
    requires |b| > 0
    ensures ToInternalValue(EncodedUri(extension, b), ExactlyTwo).Ok? <==> |b| % 3 == 1
    ensures |b| % 3 == 1 ==>
      ToInternalValue(EncodedUri(extension, b), ExactlyTwo)
        == Ok(UploadedFile(FileName(extension), b, ContentType(extension)))
  {
    var s := EncodedUri(extension, b);
    if |b| % 3 == 1 {
      EncodedUriIsDataUri(extension, b, ExactlyTwo);
      EncodingIsDecodable(b);
      DecodeEncodeData(b);
    } else {
      assert forall m :: !IsDataUri(s, ExactlyTwo, m) by {
        forall m | IsDataUri(s, ExactlyTwo, m) ensures false {
          EncodedUriIsDataUri(extension, b, UpToTwo);
          MatchDataUriComplete(s, UpToTwo, m);
          MatchDataUriComplete(s, UpToTwo, DataUri(extension, EncodeData(b), PadCount(|b|)));
        }
      }
    }
  }

  /** The standard encoding of the bytes "ABC" is "QUJD", without pads. */
  lemma EncodeOfABC()
    ensures Encode([65, 66, 67]) == "QUJD"
  {
    var b: seq<Byte> := [65, 66, 67];
    assert CharOf(16) == 'Q' && CharOf(20) == 'U' && CharOf(9) == 'J' && CharOf(3) == 'D';
    assert QuadChars(65, 66, 67) == "QUJD";
    assert b[3..] == [];
    assert EncodeData(b) == "QUJD" + EncodeData([]);
    assert PadString(PadCount(3)) == "";
  }

  /** Three bytes encode to four characters without padding: the field as
      written refuses the image that `data:image/png;base64,QUJD` denotes. */
  lemma AsWrittenRejectsUnpadded()
    ensures Encode([65, 66, 67]) == "QUJD"
    ensures ToInternalValue(EncodedUri("png", [65, 66, 67]), ExactlyTwo) == Err(Invalid)
  {
    EncodeOfABC();
    AsWrittenAcceptsOnlyDoublePadded("png", [65, 66, 67]);
  }

  /** Corrected, every standard encoding of a non-empty image round-trips. */
  lemma CorrectedAcceptsEveryEncoding(extension: string, b: seq<Byte>)
    requires |extension| > 0 && forall i :: 0 <= i < |extension| ==> IsAsciiLower(extension[i])
    requires |b| > 0
    ensures ToInternalValue(EncodedUri(extension, b), UpToTwo)
      == Ok(UploadedFile(FileName(extension), b, ContentType(extension)))
  {
    EncodedUriIsDataUri(extension, b, UpToTwo);
    EncodingIsDecodable(b);
    DecodeEncodeData(b);
  }

  /** Corrected, whatever the as-written field accepts is still accepted,
      with the same file. */
  lemma CorrectedExtendsAsWritten(data: string)
    requires ToInternalValue(data, ExactlyTwo).Ok?
    ensures ToInternalValue(data, UpToTwo) == ToInternalValue(data, ExactlyTwo)
  {
    var m := MatchDataUri(data, ExactlyTwo).value;
    assert IsDataUri(data, UpToTwo, m);
  }
}
