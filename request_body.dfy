/**
 * The body a POST request carries (HttpClientImpl.request, the part that
 * runs when the method is POST): multipart/form-data when the selector
 * holds, the bytes of a single file verbatim, or the url-encoded form. The
 * functions state the body; the methods write it through a DataOutputStream
 * as the client does and are proved to produce the same bytes.
 */
module RequestBody {
  import opened Common
  import opened Configuration
  import opened Parameters
  import opened PercentEncoding
  import opened FormEncoding
  import opened ClientBase

  /** What the connection is given: the Content-Type header, the Content-Length header if any, and the bytes. */
  datatype Body = Body(contentType: string, contentLength: Option<nat>, bytes: seq<byte>)

  const CRLF: string := "\r\n"
  const FORM_URLENCODED: string := "application/x-www-form-urlencoded"
  const BOUNDARY_PREFIX: string := "----JHttpClient-upload"

  /** The boundary of the Content-Type header: the prefix followed by the current time in milliseconds. */
  function Boundary(millis: nat): string {
    BOUNDARY_PREFIX + Decimal(millis)
  }

  /** The dash-boundary that opens every part. */
  function Delimiter(millis: nat): string {
    "--" + Boundary(millis)
  }

  /** A file part can always be written; a text part needs a value (getValue().getBytes would fail). */
  predicate Writable(p: Param) {
    p.IsFile() || p.value.Some?
  }

  predicate AllWritable(ps: seq<Param>) {
    forall i :: 0 <= i < |ps| ==> Writable(ps[i])
  }

  /** The Content-Disposition line of a file part: the field name and the file name. */
  function FileDisposition(p: Param): string
    requires p.IsFile()
  {
    "Content-Disposition: form-data; name=\"" + p.name + "\"; filename=\"" + p.file.value.name + "\"" + CRLF
  }

  /** The Content-Type line of a file part and the blank line after it. */
  function FileTypeLine(p: Param): string
    requires p.IsFile()
  {
    "Content-Type: " + ContentTypeOfName(p.file.value.name) + CRLF + CRLF
  }

  /** The Content-Disposition line of a text part: the field name only. */
  function TextDisposition(p: Param): string {
    "Content-Disposition: form-data; name=\"" + p.name + "\"" + CRLF
  }

  /** The Content-Type line of a text part, present only when the form text type is set. */
  function TextTypeLine(formText: Option<string>): string {
    if formText.Some? then "Content-Type: " + formText.value + "; charset=UTF-8" + CRLF else ""
  }

  /** The header lines of a part, including the blank line that ends them. */
  function PartHeaders(p: Param, formText: Option<string>): string {
    if p.IsFile() then FileDisposition(p) + FileTypeLine(p)
    else TextDisposition(p) + TextTypeLine(formText) + CRLF
  }

  /** A body part in the sense of section 5.1.1 of RFC 2046: header lines, a blank line, the content. */
  function Entity(p: Param, formText: Option<string>): seq<byte>
    requires Writable(p)
  {
    LowBytes(PartHeaders(p, formText)) + (if p.IsFile() then FileBytes(p) else Utf8(p.value.value))
  }

  /** What the loop writes for one parameter: the delimiter line, the part, and a CRLF. */
  function Part(p: Param, delimiter: string, formText: Option<string>): Result<seq<byte>, RuntimeError> {
    if Writable(p) then Success(LowBytes(delimiter + CRLF) + Entity(p, formText) + LowBytes(CRLF))
    else Failure(NullPointer)
  }

  /** All parts in parameter order, or the error of the first one that cannot be written. */
  function Parts(ps: seq<Param>, delimiter: string, formText: Option<string>): Result<seq<byte>, RuntimeError> {
    if ps == [] then Success([])
    else
      match Parts(ps[..|ps| - 1], delimiter, formText)
      case Failure(e) => Failure(e)
      case Success(bs) =>
        match Part(ps[|ps| - 1], delimiter, formText)
        case Failure(e) => Failure(e)
        case Success(b) => Success(bs + b)
  }

  /** The multipart body: the parts, then the close delimiter and one more CRLF. */
  function MultipartBody(ps: seq<Param>, millis: nat, formText: Option<string>): Result<Body, RuntimeError> {
    var delimiter := Delimiter(millis);
    match Parts(ps, delimiter, formText)
    case Failure(e) => Failure(e)
    case Success(bs) =>
      Success(Body("multipart/form-data; boundary=" + Boundary(millis), None,
                   bs + LowBytes(delimiter + "--" + CRLF) + LowBytes(CRLF)))
  }

  /** A single file sent as it is, typed by its file name; no Content-Length header is set. */
  function RawBody(p: Param): Body
    requires p.IsFile()
  {
    Body(ContentTypeOfName(p.file.value.name), None, FileBytes(p))
  }

  /** Exactly one parameter, and it is a file. */
  predicate SingleFile(params: Option<seq<Param>>) {
    params.Some? && |params.value| == 1 && params.value[0].IsFile()
  }

  /** The url-encoded form with its UTF-8 length as Content-Length. */
  function UrlEncodedBody(params: Option<seq<Param>>): Result<Body, RuntimeError> {
    var form := if params.None? then Success("") else FormBody(params.value);
    match form
    case Failure(e) => Failure(e)
    case Success(text) => Success(Body(FORM_URLENCODED, Some(|Utf8(text)|), Utf8(text)))
  }

  /**
   * The body selection as written: a null parameter array fails at
   * `getParameters().length`, and a single parameter is always sent raw, so a
   * single text parameter fails at getContentType ("not a file").
   */
  function PostBodyAsWritten(params: Option<seq<Param>>, rawContentTypes: seq<string>, millis: nat, formText: Option<string>): Result<Body, RuntimeError> {
    if IsMultipartRequest(params, rawContentTypes) then MultipartBody(params.value, millis, formText)
    else if params.None? then Failure(NullPointer)
    else if |params.value| == 1 then
      if params.value[0].IsFile() then Success(RawBody(params.value[0])) else Failure(NotAFile)
    else UrlEncodedBody(params)
  }

  /**
   * The body selection as evidently intended, used by the rest of the model:
   * only a single FILE is sent raw, and everything else that is not multipart
   * (a null array included, which encodeParameters maps to "") is url-encoded.
   */
  function PostBody(params: Option<seq<Param>>, rawContentTypes: seq<string>, millis: nat, formText: Option<string>): Result<Body, RuntimeError> {
    if IsMultipartRequest(params, rawContentTypes) then MultipartBody(params.value, millis, formText)
    else if SingleFile(params) then Success(RawBody(params.value[0]))
    else UrlEncodedBody(params)
  }

  /** The two selections differ exactly on a null array and on a single text parameter. */
  lemma PostBodyAgreement(params: Option<seq<Param>>, raw: seq<string>, millis: nat, formText: Option<string>)
    ensures PostBodyAsWritten(params, raw, millis, formText) != PostBody(params, raw, millis, formText) <==>
      params.None? || (|params.value| == 1 && !params.value[0].IsFile())
  {
    if params.Some? && |params.value| == 1 && !params.value[0].IsFile() {
      var ps := params.value;
      assert !HasFile(params);
      assert ps[..|ps| - 1] == [] && ps[|ps| - 1] == ps[0];
      var empty: seq<Param> := [];
      assert Segments(empty) == Success([]);
      if ps[0].value.Some? {
        SegmentsSuccess(ps);
      } else {
        assert Segments(ps) == Failure(NullPointer);
      }
    }
  }

  /** A POST with one text parameter: the code as written fails, the intended body is `a=b`. */
  lemma SingleTextParameter()
    ensures PostBodyAsWritten(Some([TextParam("a", "b")]), [], 0, None) == Failure(NotAFile)
    ensures PostBody(Some([TextParam("a", "b")]), [], 0, None) == Success(Body(FORM_URLENCODED, Some(3), [97, 61, 98]))
  {
    var ps := [TextParam("a", "b")];
    assert !HasFile(Some(ps));
    assert ps[..0] == [];
    assert Utf8("a") == [97] && Utf8("b") == [98];
    PercentEncodeSingle(97);
    PercentEncodeSingle(98);
    assert PercentByte(97) == "a" && PercentByte(98) == "b";
    assert ps[0].name == "a" && ps[0].value == Some("b") && !ps[0].IsFile();
    assert PercentEncode(Utf8("a")) == "a";
    assert PercentEncode(Utf8("b")) == "b";
    assert "a" + "=" + "b" == "a=b";
    assert Segment(ps[0]) == Success("a=b");
    assert ps[..|ps| - 1] == [] && ps[|ps| - 1] == ps[0];
    var empty: seq<Param> := [];
    assert Segments(empty) == Success([]);
    assert [] + ["a=b"] == ["a=b"];
    assert Segments(ps) == Success(["a=b"]);
    assert Join(["a=b"], '&') == "a=b";
    assert FormBody(ps) == Success("a=b");
    Utf8Ascii("a=b");
    assert Utf8("a=b") == [97, 61, 98];
    assert UrlEncodedBody(Some(ps)) == Success(Body(FORM_URLENCODED, Some(3), [97, 61, 98]));
  }

  /** A POST without parameters (a null array): the code as written fails, the intended body is empty. */
  lemma NoParameters()
    ensures PostBodyAsWritten(None, [], 0, None) == Failure(NullPointer)
    ensures PostBody(None, [], 0, None) == Success(Body(FORM_URLENCODED, Some(0), []))
  {
  }

  /**
   * The intended selection: multipart exactly when the selector holds, a
   * single file raw, everything else url-encoded; the url-encoded body fails
   * exactly on a file or a null value, has Content-Length equal to its length
   * and reads back to the parameters.
   */
  lemma PostBodySelection(params: Option<seq<Param>>, raw: seq<string>, millis: nat, formText: Option<string>)
    ensures IsMultipartRequest(params, raw) ==> PostBody(params, raw, millis, formText) == MultipartBody(params.value, millis, formText)
    ensures !IsMultipartRequest(params, raw) && SingleFile(params) ==>
      PostBody(params, raw, millis, formText) == Success(Body(ContentTypeOfName(params.value[0].file.value.name), None, FileBytes(params.value[0])))
    ensures !IsMultipartRequest(params, raw) && !SingleFile(params) ==>
      (PostBody(params, raw, millis, formText).Success? <==> params.None? || AllText(params.value))
    ensures !IsMultipartRequest(params, raw) && !SingleFile(params) && PostBody(params, raw, millis, formText).Success? ==>
      var b := PostBody(params, raw, millis, formText).value;
      && b.contentType == FORM_URLENCODED
      && b.contentLength == Some(|b.bytes|)
      && ParseForm(Chars(b.bytes)) == Some(if params.None? then [] else Pairs(params.value))
  {
    if !IsMultipartRequest(params, raw) && !SingleFile(params) {
      if params.Some? {
        SegmentsSuccess(params.value);
        if AllText(params.value) {
          var text := FormBody(params.value).value;
          FormBodyRoundTrip(params.value);
          FormBodyAscii(params.value);
          CharsOfAscii(text);
          var got := ParseForm(text).value;
          assert got == Pairs(params.value);
        }
      }
    }
  }

  /** The names and values of all-text parameters as UTF-8 bytes. */
  function Pairs(ps: seq<Param>): (r: seq<(seq<byte>, seq<byte>)>)
    requires AllText(ps)
    ensures |r| == |ps|
    ensures forall i :: 0 <= i < |ps| ==> r[i] == (Utf8(ps[i].name), Utf8(ps[i].value.value))
  {
    seq(|ps|, i requires 0 <= i < |ps| => (Utf8(ps[i].name), Utf8(ps[i].value.value)))
  }

  /** Bytes read back as the characters with those code points. */
  function Chars(bs: seq<byte>): (s: string)
    ensures |s| == |bs|
    ensures forall i :: 0 <= i < |bs| ==> s[i] as int == bs[i]
  {
    seq(|bs|, i requires 0 <= i < |bs| => bs[i] as char)
  }

  lemma CharsOfAscii(s: string)
    requires IsAscii(s)
    ensures Chars(Utf8(s)) == s
  {
    Utf8Ascii(s);
  }

  /** The body parts of all parameters, in order (each writable). */
  function Entities(ps: seq<Param>, formText: Option<string>): (r: seq<seq<byte>>)
    requires AllWritable(ps)
    ensures |r| == |ps|
    ensures forall i :: 0 <= i < |ps| ==> r[i] == Entity(ps[i], formText)
  {
    seq(|ps|, i requires 0 <= i < |ps| => Entity(ps[i], formText))
  }

  /**
   * body-part *encapsulation of section 5.1.1 of RFC 2046, where an
   * encapsulation is a delimiter (CRLF dash-boundary), a CRLF and a body part.
   */
  function Encapsulated(dash: seq<byte>, bodyParts: seq<seq<byte>>): seq<byte>
    requires bodyParts != []
  {
    if |bodyParts| == 1 then bodyParts[0]
    else
      Encapsulated(dash, bodyParts[..|bodyParts| - 1]) + LowBytes(CRLF) + dash + LowBytes(CRLF)
      + bodyParts[|bodyParts| - 1]
  }

  /**
   * multipart-body of section 5.1.1 of RFC 2046 with an empty preamble and no
   * transport padding: dash-boundary CRLF body-part *encapsulation
   * close-delimiter CRLF epilogue.
   */
  function MultipartRfc2046(boundary: string, bodyParts: seq<seq<byte>>, epilogue: seq<byte>): seq<byte>
    requires bodyParts != []
  {
    var dash := LowBytes("--" + boundary);
    dash + LowBytes(CRLF) + Encapsulated(dash, bodyParts) + LowBytes(CRLF) + dash + LowBytes("--") + LowBytes(CRLF) + epilogue
  }

  /** The body parts of all but the last parameter are the body parts of the shorter list. */
  lemma EntitiesInit(ps: seq<Param>, formText: Option<string>)
    requires ps != [] && AllWritable(ps)
    ensures AllWritable(ps[..|ps| - 1])
    ensures Entities(ps[..|ps| - 1], formText) == Entities(ps, formText)[..|ps| - 1]
  {
    var init := ps[..|ps| - 1];
    assert forall i :: 0 <= i < |init| ==> init[i] == ps[i];
  }

  /** Concatenation regrouped: the last part appended to the earlier ones. */
  lemma RegroupEncapsulation(a: seq<byte>, b: seq<byte>, c: seq<byte>, d: seq<byte>, e: seq<byte>, f: seq<byte>, g: seq<byte>, h: seq<byte>)
    ensures a + b + c + d + (e + f + g + h) == a + b + (c + d + e + f + g) + h
  {
  }

  /** Concatenation regrouped: the parts followed by the close delimiter line. */
  lemma RegroupClose(a: seq<byte>, b: seq<byte>, c: seq<byte>, d: seq<byte>, e: seq<byte>, f: seq<byte>, g: seq<byte>, h: seq<byte>)
    ensures (a + b + c + d) + (e + f + g) + h == a + b + c + d + e + f + g + h
  {
  }

  /**
   * The parts the loop writes are the dash-boundary, a CRLF, the body parts
   * separated by delimiter lines, and a CRLF (the one that starts the close
   * delimiter).
   */
  lemma {:induction false} PartsAsEncapsulation(ps: seq<Param>, boundary: string, formText: Option<string>)
    requires ps != [] && AllWritable(ps)
    ensures Parts(ps, "--" + boundary, formText) ==
      Success(LowBytes("--" + boundary) + LowBytes(CRLF) + Encapsulated(LowBytes("--" + boundary), Entities(ps, formText)) + LowBytes(CRLF))
  {
    var delimiter := "--" + boundary;
    var dash, crlf := LowBytes(delimiter), LowBytes(CRLF);
    var init, last := ps[..|ps| - 1], ps[|ps| - 1];
    LowBytesAppend(delimiter, CRLF);
    var e := Entity(last, formText);
    assert Part(last, delimiter, formText) == Success(dash + crlf + e + crlf);
    var es := Entities(ps, formText);
    assert es[|es| - 1] == e;
    if |ps| == 1 {
      assert init == [];
      AppendEmpty(dash + crlf + e + crlf);
    } else {
      EntitiesInit(ps, formText);
      PartsAsEncapsulation(init, boundary, formText);
      var b := Encapsulated(dash, es[..|es| - 1]);
      assert Parts(init, delimiter, formText) == Success(dash + crlf + b + crlf);
      RegroupEncapsulation(dash, crlf, b, crlf, dash, crlf, e, crlf);
    }
  }

  /**
   * The multipart body is the multipart-body of section 5.1.1 of RFC 2046
   * over the boundary of its Content-Type header, with one body part per
   * parameter in order and an epilogue of one CRLF; it fails (a
   * NullPointerException) exactly when a text parameter has no value.
   */
  lemma MultipartLayout(ps: seq<Param>, millis: nat, formText: Option<string>)
    requires ps != []
    ensures MultipartBody(ps, millis, formText).Success? <==> AllWritable(ps)
    ensures !AllWritable(ps) ==> MultipartBody(ps, millis, formText) == Failure(NullPointer)
    ensures AllWritable(ps) ==>
      MultipartBody(ps, millis, formText) == Success(Body("multipart/form-data; boundary=" + Boundary(millis), None,
        MultipartRfc2046(Boundary(millis), Entities(ps, formText), LowBytes(CRLF))))
  {
    var delimiter := Delimiter(millis);
    if AllWritable(ps) {
      PartsAsEncapsulation(ps, Boundary(millis), formText);
      LowBytesAppend(delimiter, "--");
      LowBytesAppend(delimiter + "--", CRLF);
      var dash, crlf := LowBytes(delimiter), LowBytes(CRLF);
      var enc := Encapsulated(dash, Entities(ps, formText));
      RegroupClose(dash, crlf, enc, crlf, dash, LowBytes("--"), crlf, crlf);
    } else {
      PartsFailure(ps, delimiter, formText);
    }
  }

  lemma {:induction false} PartsFailure(ps: seq<Param>, delimiter: string, formText: Option<string>)
    requires !AllWritable(ps)
    ensures Parts(ps, delimiter, formText) == Failure(NullPointer)
  {
    var init := ps[..|ps| - 1];
    if AllWritable(init) {
      LastUnwritable(ps);
      PartsSuccess(init, delimiter, formText);
    } else {
      PartsFailure(init, delimiter, formText);
    }
  }

  /** When every parameter but the last can be written, the last one is the one that cannot. */
  lemma LastUnwritable(ps: seq<Param>)
    requires |ps| > 0 && AllWritable(ps[..|ps| - 1]) && !AllWritable(ps)
    ensures !Writable(ps[|ps| - 1])
  {
  }

  lemma {:induction false} PartsSuccess(ps: seq<Param>, delimiter: string, formText: Option<string>)
    requires AllWritable(ps)
    ensures Parts(ps, delimiter, formText).Success?
  {
    if ps != [] {
      var init := ps[..|ps| - 1];
      assert forall i :: 0 <= i < |init| ==> init[i] == ps[i];
      PartsSuccess(init, delimiter, formText);
    }
  }

  /** Under the default configuration a text part is typed `text/plain; charset=UTF-8`. */
  lemma DefaultTextPart(name: string, value: string)
    ensures Entity(TextParam(name, value), Default.formTextContentType) ==
      LowBytes(TextDisposition(TextParam(name, value)) + "Content-Type: text/plain; charset=UTF-8\r\n" + CRLF) + Utf8(value)
  {
    assert TextTypeLine(Default.formTextContentType) == "Content-Type: text/plain; charset=UTF-8\r\n";
  }

  /** The characters section 5.1.1 of RFC 2046 allows in a boundary (bchars). */
  predicate BChar(c: char) {
    IsDigit(c) || 'a' <= c <= 'z' || 'A' <= c <= 'Z' || c in "'()+_,-./:=? "
  }

  function Pow10(k: nat): (r: nat)
    ensures r >= 1
  {
    if k == 0 then 1 else 10 * Pow10(k - 1)
  }

  lemma {:induction false} DecimalLength(n: nat, k: nat)
    requires 1 <= k && n < Pow10(k)
    ensures |Decimal(n)| <= k
  {
    if n >= 10 {
      assert Pow10(1) == 10;
      assert k != 1;
      DecimalLength(n / 10, k - 1);
    }
  }

  /**
   * For any time a Java long can hold, the boundary satisfies section 5.1.1
   * of RFC 2046: 1 to 70 characters, all bchars, not ending in a space.
   */
  lemma BoundaryWellFormed(millis: nat)
    requires millis <= 0x7FFF_FFFF_FFFF_FFFF
    ensures 1 <= |Boundary(millis)| <= 70
    ensures forall i :: 0 <= i < |Boundary(millis)| ==> BChar(Boundary(millis)[i])
    ensures Boundary(millis)[|Boundary(millis)| - 1] != ' '
  {
    LongDecimalLength(millis);
    var b := Boundary(millis);
    forall i | 0 <= i < |b| ensures BChar(b[i]) {
      if i >= |BOUNDARY_PREFIX| {
        assert b[i] == Decimal(millis)[i - |BOUNDARY_PREFIX|];
      }
    }
  }

  /** A Java long has at most 19 decimal digits. */
  lemma LongDecimalLength(n: nat)
    requires n <= 0x7FFF_FFFF_FFFF_FFFF
    ensures |Decimal(n)| <= 19
  {
    assert Pow10(5) == 100_000;
    assert Pow10(10) == 10_000_000_000;
    assert Pow10(15) == 1_000_000_000_000_000;
    assert Pow10(19) == 10_000_000_000_000_000_000;
    DecimalLength(n, 19);
  }

  /** The copy loop of a file part: every byte the stream yields, in order, until it is exhausted. */
  method CopyStream(out: DataOutputStream, bytes: seq<byte>)
    modifies out
    ensures out.written == old(out.written) + bytes
  {
    var i := 0;
    while i < |bytes|
      invariant 0 <= i <= |bytes|
      invariant out.written == old(out.written) + bytes[..i]
    {
      out.WriteByte(bytes[i]);
      assert bytes[..i + 1] == bytes[..i] + [bytes[i]];
      i := i + 1;
    }
    assert bytes[..i] == bytes;
  }

  /** Concatenation regrouped: five pieces with the middle three bracketed. */
  lemma Regroup5(a: seq<byte>, b: seq<byte>, c: seq<byte>, d: seq<byte>, e: seq<byte>)
    ensures a + (b + c + d) + e == a + b + c + d + e
  {
  }

  /** Concatenation regrouped: six pieces with the middle four bracketed. */
  lemma Regroup6(a: seq<byte>, b: seq<byte>, c: seq<byte>, d: seq<byte>, e: seq<byte>, f: seq<byte>)
    ensures a + (b + c + d + e) + f == a + b + c + d + e + f
  {
  }

  /** A file part, piece by piece as the loop writes it, after any bytes already written. */
  lemma FilePartWritten(prefix: seq<byte>, p: Param, delimiter: string, formText: Option<string>)
    requires p.IsFile()
    ensures prefix + LowBytes(delimiter + CRLF) + LowBytes(FileDisposition(p)) + LowBytes(FileTypeLine(p))
      + FileBytes(p) + LowBytes(CRLF) == prefix + Part(p, delimiter, formText).value
  {
    LowBytesAppend(FileDisposition(p), FileTypeLine(p));
    Regroup5(LowBytes(delimiter + CRLF), LowBytes(FileDisposition(p)), LowBytes(FileTypeLine(p)), FileBytes(p), LowBytes(CRLF));
    AppendAssoc5(prefix, LowBytes(delimiter + CRLF), LowBytes(FileDisposition(p)), LowBytes(FileTypeLine(p)), FileBytes(p), LowBytes(CRLF));
  }

  /** A text part with a value, piece by piece as the loop writes it, after any bytes already written. */
  lemma TextPartWritten(prefix: seq<byte>, p: Param, delimiter: string, formText: Option<string>)
    requires !p.IsFile() && p.value.Some?
    ensures prefix + LowBytes(delimiter + CRLF) + LowBytes(TextDisposition(p)) + LowBytes(TextTypeLine(formText))
      + LowBytes(CRLF) + Utf8(p.value.value) + LowBytes(CRLF) == prefix + Part(p, delimiter, formText).value
  {
    LowBytesAppend(TextDisposition(p), TextTypeLine(formText));
    LowBytesAppend(TextDisposition(p) + TextTypeLine(formText), CRLF);
    Regroup6(LowBytes(delimiter + CRLF), LowBytes(TextDisposition(p)), LowBytes(TextTypeLine(formText)), LowBytes(CRLF),
      Utf8(p.value.value), LowBytes(CRLF));
    AppendAssoc6(prefix, LowBytes(delimiter + CRLF), LowBytes(TextDisposition(p)), LowBytes(TextTypeLine(formText)),
      LowBytes(CRLF), Utf8(p.value.value), LowBytes(CRLF));
  }

  /** The writes of the multipart loop for a file parameter: delimiter line, headers, the file's bytes, CRLF. */
  method WriteFilePart(out: DataOutputStream, param: Param, delimiter: string)
    requires param.IsFile()
    modifies out
    ensures out.written == old(out.written) + LowBytes(delimiter + CRLF) + LowBytes(FileDisposition(param))
      + LowBytes(FileTypeLine(param)) + FileBytes(param) + LowBytes(CRLF)
  {
    Write(out, delimiter + "\r\n");
    Write(out, FileDisposition(param));
    Write(out, FileTypeLine(param));
    CopyStream(out, FileBytes(param));
    Write(out, "\r\n");
  }

  /** The delimiter line and the header lines of a text part, up to the blank line. */
  method WriteTextHeaders(out: DataOutputStream, param: Param, delimiter: string, formText: Option<string>)
    modifies out
    ensures out.written == old(out.written) + LowBytes(delimiter + CRLF) + LowBytes(TextDisposition(param))
      + LowBytes(TextTypeLine(formText)) + LowBytes(CRLF)
  {
    Write(out, delimiter + "\r\n");
    Write(out, TextDisposition(param));
    if formText.Some? {
      Write(out, TextTypeLine(formText));
    } else {
      assert LowBytes(TextTypeLine(formText)) == [];
    }
    Write(out, "\r\n");
  }

  /**
   * The writes of the multipart loop for a text parameter: delimiter line,
   * headers, the value's UTF-8 bytes, CRLF; a missing value fails (a
   * NullPointerException at getBytes) once the header lines are written.
   */
  method WriteTextPart(out: DataOutputStream, param: Param, delimiter: string, formText: Option<string>) returns (r: Result<(), RuntimeError>)
    modifies out
    ensures r.Success? <==> param.value.Some?
    ensures r.Failure? ==> r.error == NullPointer
    ensures r.Success? ==>
      out.written == old(out.written) + LowBytes(delimiter + CRLF) + LowBytes(TextDisposition(param))
        + LowBytes(TextTypeLine(formText)) + LowBytes(CRLF) + Utf8(param.value.value) + LowBytes(CRLF)
  {
    WriteTextHeaders(out, param, delimiter, formText);
    if param.value.None? {
      return Failure(NullPointer);
    }
    out.WriteAll(Utf8(param.value.value));
    Write(out, "\r\n");
    r := Success(());
  }

  /** One iteration of the multipart loop: the writes for a file part or for a text part. */
  method WritePart(out: DataOutputStream, param: Param, delimiter: string, formText: Option<string>) returns (r: Result<(), RuntimeError>)
    modifies out
    ensures r.Success? <==> Writable(param)
    ensures r.Failure? ==> r.error == NullPointer
    ensures r.Success? ==> out.written == old(out.written) + Part(param, delimiter, formText).value
  {
    if param.IsFile() {
      WriteFilePart(out, param, delimiter);
      FilePartWritten(old(out.written), param, delimiter, formText);
      r := Success(());
    } else {
      r := WriteTextPart(out, param, delimiter, formText);
      if r.Success? {
        TextPartWritten(old(out.written), param, delimiter, formText);
      }
    }
  }

  /** Parts of one more parameter: the earlier parts, then this one, or the first error. */
  lemma PartsSnoc(ps: seq<Param>, i: nat, delimiter: string, formText: Option<string>)
    requires i < |ps|
    ensures Parts(ps[..i], delimiter, formText).Failure? ==> Parts(ps[..i + 1], delimiter, formText) == Parts(ps[..i], delimiter, formText)
    ensures Parts(ps[..i], delimiter, formText).Success? && !Writable(ps[i]) ==>
      Parts(ps[..i + 1], delimiter, formText) == Failure(NullPointer)
    ensures Parts(ps[..i], delimiter, formText).Success? && Writable(ps[i]) ==>
      Parts(ps[..i + 1], delimiter, formText) ==
        Success(Parts(ps[..i], delimiter, formText).value + Part(ps[i], delimiter, formText).value)
  {
    assert ps[..i + 1][..i] == ps[..i];
    assert ps[..i + 1][i] == ps[i];
  }

  lemma {:induction false} PartsPrefixFailure(ps: seq<Param>, k: nat, delimiter: string, formText: Option<string>)
    requires k <= |ps| && Parts(ps[..k], delimiter, formText).Failure?
    ensures Parts(ps, delimiter, formText) == Parts(ps[..k], delimiter, formText)
    decreases |ps| - k
  {
    if k < |ps| {
      PartsSnoc(ps, k, delimiter, formText);
      PartsPrefixFailure(ps, k + 1, delimiter, formText);
    } else {
      assert ps[..k] == ps;
    }
  }

  /** The multipart loop over the parameters and the closing writes. */
  method WriteMultipart(out: DataOutputStream, ps: seq<Param>, delimiter: string, formText: Option<string>) returns (r: Result<(), RuntimeError>)
    modifies out
    ensures r.Success? <==> Parts(ps, delimiter, formText).Success?
    ensures r.Failure? ==> r == Failure(Parts(ps, delimiter, formText).error)
    ensures r.Success? ==>
      out.written == old(out.written) + Parts(ps, delimiter, formText).value + LowBytes(delimiter + "--" + CRLF) + LowBytes(CRLF)
  {
    var i := 0;
    while i < |ps|
      invariant 0 <= i <= |ps|
      invariant Parts(ps[..i], delimiter, formText).Success?
      invariant out.written == old(out.written) + Parts(ps[..i], delimiter, formText).value
    {
      var w := WritePart(out, ps[i], delimiter, formText);
      PartsSnoc(ps, i, delimiter, formText);
      if w.Failure? {
        PartsPrefixFailure(ps, i + 1, delimiter, formText);
        return w;
      }
      AppendAssoc(old(out.written), Parts(ps[..i], delimiter, formText).value, Part(ps[i], delimiter, formText).value);
      i := i + 1;
    }
    assert ps[..i] == ps;
    Write(out, delimiter + "--" + CRLF);
    Write(out, "\r\n");
    r := Success(());
  }

  /**
   * The POST branch of HttpClientImpl.request with the intended selection:
   * the bytes written to the connection and the headers set on it are the
   * body PostBody describes.
   */
  method WritePostBody(params: Option<seq<Param>>, rawContentTypes: seq<string>, millis: nat, formText: Option<string>)
    returns (r: Result<Body, RuntimeError>)
    ensures r == PostBody(params, rawContentTypes, millis, formText)
  {
    if IsMultipartRequest(params, rawContentTypes) {
      var boundary := Boundary(millis);
      var contentType := "multipart/form-data; boundary=" + boundary;
      boundary := "--" + boundary;
      var out := new DataOutputStream();
      var w := WriteMultipart(out, params.value, boundary, formText);
      if w.Failure? {
        return Failure(w.error);
      }
      AppendEmpty(Parts(params.value, boundary, formText).value);
      return Success(Body(contentType, None, out.written));
    } else if SingleFile(params) {
      var param := params.value[0];
      var contentType := ContentTypeOfName(param.file.value.name);
      var out := new DataOutputStream();
      CopyStream(out, FileBytes(param));
      AppendEmpty(FileBytes(param));
      return Success(Body(contentType, None, out.written));
    } else {
      var postParam := EncodeParameters(params);
      if postParam.Failure? {
        return Failure(postParam.error);
      }
      var bytes := Utf8(postParam.value);
      var out := new DataOutputStream();
      out.WriteAll(bytes);
      AppendEmpty(bytes);
      return Success(Body(FORM_URLENCODED, Some(|bytes|), out.written));
    }
  }
}
