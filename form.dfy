/**
 * HttpParameter.encodeParameters: the application/x-www-form-urlencoded
 * body, the segments `encode(name)=encode(value)` joined by '&'. Besides the
 * encoder itself the module defines the inverse reading (split on '&', split
 * on '=', percent-decode) and proves that it recovers every name and value.
 */
module FormEncoding {
  import opened Common
  import opened Parameters
  import opened PercentEncoding

  /** One `name=value` segment; a file is refused and a null value is a NullPointerException. */
  function Segment(p: Param): Result<string, RuntimeError> {
    if p.IsFile() then Failure(ShouldBeText(p.name))
    else if p.value.None? then Failure(NullPointer)
    else Success(PercentEncode(Utf8(p.name)) + "=" + PercentEncode(Utf8(p.value.value)))
  }

  /** The segments of all parameters in array order, or the error of the first parameter that has one. */
  function Segments(ps: seq<Param>): Result<seq<string>, RuntimeError> {
    if ps == [] then Success([])
    else
      match Segments(ps[..|ps| - 1])
      case Failure(e) => Failure(e)
      case Success(xs) =>
        match Segment(ps[|ps| - 1])
        case Failure(e) => Failure(e)
        case Success(x) => Success(xs + [x])
  }

  /** Strings joined with a separator between consecutive elements. */
  function Join(xs: seq<string>, sep: char): string {
    if xs == [] then ""
    else if |xs| == 1 then xs[0]
    else xs[0] + [sep] + Join(xs[1..], sep)
  }

  /** The form body of a non-null parameter array. */
  function FormBody(ps: seq<Param>): Result<string, RuntimeError> {
    match Segments(ps)
    case Failure(e) => Failure(e)
    case Success(xs) => Success(Join(xs, '&'))
  }

  /** Every parameter is a text parameter with a value. */
  predicate AllText(ps: seq<Param>) {
    forall i :: 0 <= i < |ps| ==> !ps[i].IsFile() && ps[i].value.Some?
  }

  /** Segments succeeds exactly on all-text arrays, one segment per parameter, in order. */
  lemma SegmentsSuccess(ps: seq<Param>)
    ensures Segments(ps).Success? <==> AllText(ps)
    ensures AllText(ps) ==> |Segments(ps).value| == |ps|
    ensures AllText(ps) ==> forall i :: 0 <= i < |ps| ==>
      Segments(ps).value[i] == PercentEncode(Utf8(ps[i].name)) + "=" + PercentEncode(Utf8(ps[i].value.value))
  {
    SegmentsEach(ps);
    if AllText(ps) {
      forall i | 0 <= i < |ps|
        ensures Segments(ps).value[i] == PercentEncode(Utf8(ps[i].name)) + "=" + PercentEncode(Utf8(ps[i].value.value))
      {
        assert Segment(ps[i]).Success?;
      }
    }
  }

  /** Segments succeeds exactly when every Segment does, and then holds their values in order. */
  lemma {:induction false} SegmentsEach(ps: seq<Param>)
    ensures Segments(ps).Success? <==> forall i :: 0 <= i < |ps| ==> Segment(ps[i]).Success?
    ensures Segments(ps).Success? ==> |Segments(ps).value| == |ps|
    ensures Segments(ps).Success? ==> forall i :: 0 <= i < |ps| ==> Segments(ps).value[i] == Segment(ps[i]).value
  {
    if ps != [] {
      var init, last := ps[..|ps| - 1], ps[|ps| - 1];
      SegmentsEach(init);
      assert forall i :: 0 <= i < |init| ==> init[i] == ps[i];
    }
  }

  /** The error reported is that of the first parameter that is a file or has a null value. */
  lemma {:induction false} SegmentsFirstError(ps: seq<Param>)
    requires Segments(ps).Failure?
    ensures exists i ::
      && 0 <= i < |ps|
      && Segment(ps[i]) == Failure(Segments(ps).error)
      && forall j :: 0 <= j < i ==> Segment(ps[j]).Success?
  {
    var init := ps[..|ps| - 1];
    assert forall i :: 0 <= i < |init| ==> init[i] == ps[i];
    if Segments(init).Failure? {
      SegmentsFirstError(init);
    } else {
      SegmentsSuccess(init);
      var i := |ps| - 1;
      assert Segment(ps[i]) == Failure(Segments(ps).error);
      assert forall j :: 0 <= j < i ==> Segment(ps[j]).Success?;
    }
  }

  /** Once a prefix has failed, the whole array fails with the same error. */
  lemma {:induction false} SegmentsPrefixFailure(ps: seq<Param>, k: nat)
    requires k <= |ps| && Segments(ps[..k]).Failure?
    ensures Segments(ps) == Segments(ps[..k])
    decreases |ps| - k
  {
    if k < |ps| {
      assert ps[..k + 1][..k] == ps[..k];
      SegmentsPrefixFailure(ps, k + 1);
    } else {
      assert ps[..k] == ps;
    }
  }

  /** Extending a successful prefix by a parameter with a segment. */
  lemma SegmentsStep(ps: seq<Param>, j: nat, xs: seq<string>)
    requires j < |ps| && Segments(ps[..j]) == Success(xs) && Segment(ps[j]).Success?
    ensures Segments(ps[..j + 1]) == Success(xs + [Segment(ps[j]).value])
  {
    assert ps[..j + 1][..j] == ps[..j];
  }

  /** A successful prefix followed by a parameter without a segment: the whole array fails with its error. */
  lemma SegmentsStop(ps: seq<Param>, j: nat, xs: seq<string>)
    requires j < |ps| && Segments(ps[..j]) == Success(xs) && Segment(ps[j]).Failure?
    ensures FormBody(ps) == Failure(Segment(ps[j]).error)
  {
    assert ps[..j + 1][..j] == ps[..j];
    SegmentsPrefixFailure(ps, j + 1);
  }

  /** Join extended by one element, with the empty start. */
  lemma JoinStep(xs: seq<string>, x: string, sep: char)
    ensures Join(xs + [x], sep) == (if xs == [] then "" else Join(xs, sep) + [sep]) + x
  {
    if xs == [] {
      assert xs + [x] == [x];
    } else {
      JoinSnoc(xs, x, sep);
    }
  }

  /** Appending a string at the end adds one separator. */
  lemma {:induction false} JoinSnoc(xs: seq<string>, x: string, sep: char)
    requires xs != []
    ensures Join(xs + [x], sep) == Join(xs, sep) + [sep] + x
  {
    if |xs| == 1 {
      assert (xs + [x])[1..] == [x];
    } else {
      assert (xs + [x])[1..] == xs[1..] + [x];
      JoinSnoc(xs[1..], x, sep);
    }
  }

  /** Number of occurrences of a character. */
  function Count(s: string, c: char): nat {
    if s == [] then 0 else (if s[0] == c then 1 else 0) + Count(s[1..], c)
  }

  lemma {:induction false} CountAppend(a: string, b: string, c: char)
    ensures Count(a + b, c) == Count(a, c) + Count(b, c)
  {
    if a == [] {
      assert a + b == b;
    } else {
      assert (a + b)[0] == a[0] && (a + b)[1..] == a[1..] + b;
      CountAppend(a[1..], b, c);
    }
  }

  lemma {:induction false} CountAbsent(s: string, c: char)
    requires c !in s
    ensures Count(s, c) == 0
  {
    if s != [] {
      assert c !in s[1..];
      CountAbsent(s[1..], c);
    }
  }

  /** Joining n strings free of the separator puts exactly n - 1 separators into the result. */
  lemma {:induction false} JoinCount(xs: seq<string>, sep: char)
    requires xs != []
    requires forall i :: 0 <= i < |xs| ==> sep !in xs[i]
    ensures Count(Join(xs, sep), sep) == |xs| - 1
  {
    CountAbsent(xs[0], sep);
    if |xs| > 1 {
      JoinCount(xs[1..], sep);
      CountAppend(xs[0] + [sep], Join(xs[1..], sep), sep);
      CountAppend(xs[0], [sep], sep);
      assert Count([sep], sep) == 1 by {
        assert [sep][1..] == [];
      }
    }
  }

  /** Splitting at every occurrence of a separator (String.split without dropping empty strings). */
  function Split(s: string, sep: char): (r: seq<string>)
    ensures |r| >= 1
  {
    if s == [] then [""]
    else
      var rest := Split(s[1..], sep);
      if s[0] == sep then [""] + rest
      else [[s[0]] + rest[0]] + rest[1..]
  }

  lemma {:induction false} SplitNoSeparator(a: string, sep: char)
    requires sep !in a
    ensures Split(a, sep) == [a]
  {
    if a != [] {
      assert sep !in a[1..];
      SplitNoSeparator(a[1..], sep);
      assert [a[0]] + a[1..] == a;
    }
  }

  lemma {:induction false} SplitAtSeparator(a: string, b: string, sep: char)
    requires sep !in a
    ensures Split(a + [sep] + b, sep) == [a] + Split(b, sep)
  {
    var s := a + [sep] + b;
    if a == [] {
      assert s[0] == sep && s[1..] == b;
    } else {
      assert sep !in a[1..];
      assert s[0] == a[0] && s[1..] == a[1..] + [sep] + b;
      SplitAtSeparator(a[1..], b, sep);
      assert [a[0]] + a[1..] == a;
    }
  }

  /** Splitting undoes joining when no element contains the separator. */
  lemma {:induction false} SplitJoin(xs: seq<string>, sep: char)
    requires xs != []
    requires forall i :: 0 <= i < |xs| ==> sep !in xs[i]
    ensures Split(Join(xs, sep), sep) == xs
  {
    if |xs| == 1 {
      SplitNoSeparator(xs[0], sep);
    } else {
      SplitJoin(xs[1..], sep);
      SplitAtSeparator(xs[0], Join(xs[1..], sep), sep);
      assert [xs[0]] + xs[1..] == xs;
    }
  }

  /** Reading one segment back: exactly one '=', both sides percent-decodable. */
  function ParseSegment(seg: string): Option<(seq<byte>, seq<byte>)> {
    var parts := Split(seg, '=');
    if |parts| != 2 then None
    else
      match (PercentDecode(parts[0]), PercentDecode(parts[1]))
      case (Some(n), Some(v)) => Some((n, v))
      case _ => None
  }

  function ParseSegments(segs: seq<string>): Option<seq<(seq<byte>, seq<byte>)>> {
    if segs == [] then Some([])
    else
      match (ParseSegment(segs[0]), ParseSegments(segs[1..]))
      case (Some(p), Some(rest)) => Some([p] + rest)
      case _ => None
  }

  /** Reading a form body back into the UTF-8 bytes of its names and values. */
  function ParseForm(body: string): Option<seq<(seq<byte>, seq<byte>)>> {
    if body == "" then Some([]) else ParseSegments(Split(body, '&'))
  }

  /** A segment contains neither '&' nor more than its one '=', and reads back to its name and value. */
  lemma SegmentRoundTrip(p: Param)
    requires Segment(p).Success?
    ensures '&' !in Segment(p).value
    ensures ParseSegment(Segment(p).value) == Some((Utf8(p.name), Utf8(p.value.value)))
  {
    var n, v := PercentEncode(Utf8(p.name)), PercentEncode(Utf8(p.value.value));
    PercentEncodeAlphabet(Utf8(p.name));
    PercentEncodeAlphabet(Utf8(p.value.value));
    PercentRoundTrip(Utf8(p.name));
    PercentRoundTrip(Utf8(p.value.value));
    SplitAtSeparator(n, v, '=');
    SplitNoSeparator(v, '=');
  }

  /** Segments each read back as the matching pair read back, in order. */
  lemma {:induction false} ParseSegmentsAll(xs: seq<string>, ys: seq<(seq<byte>, seq<byte>)>)
    requires |xs| == |ys|
    requires forall i :: 0 <= i < |xs| ==> ParseSegment(xs[i]) == Some(ys[i])
    ensures ParseSegments(xs) == Some(ys)
  {
    if xs != [] {
      assert forall i :: 0 <= i < |xs| - 1 ==> xs[1..][i] == xs[i + 1] && ys[1..][i] == ys[i + 1];
      ParseSegmentsAll(xs[1..], ys[1..]);
      assert ys == [ys[0]] + ys[1..];
    }
  }

  lemma ParseSegmentsOf(ps: seq<Param>, xs: seq<string>)
    requires AllText(ps) && |xs| == |ps|
    requires forall i :: 0 <= i < |ps| ==> Segment(ps[i]) == Success(xs[i])
    ensures ParseSegments(xs).Some?
    ensures |ParseSegments(xs).value| == |ps|
    ensures forall i :: 0 <= i < |ps| ==> ParseSegments(xs).value[i] == (Utf8(ps[i].name), Utf8(ps[i].value.value))
  {
    var ys := seq(|ps|, i requires 0 <= i < |ps| => (Utf8(ps[i].name), Utf8(ps[i].value.value)));
    forall i | 0 <= i < |xs| ensures ParseSegment(xs[i]) == Some(ys[i]) {
      SegmentRoundTrip(ps[i]);
    }
    ParseSegmentsAll(xs, ys);
  }

  /**
   * The form body is n segments joined by exactly n - 1 '&', and reading it
   * back yields every name and value, in array order.
   */
  lemma FormBodyRoundTrip(ps: seq<Param>)
    requires AllText(ps)
    ensures FormBody(ps).Success?
    ensures ps != [] ==> Count(FormBody(ps).value, '&') == |ps| - 1
    ensures ParseForm(FormBody(ps).value).Some?
    ensures |ParseForm(FormBody(ps).value).value| == |ps|
    ensures forall i :: 0 <= i < |ps| ==>
      ParseForm(FormBody(ps).value).value[i] == (Utf8(ps[i].name), Utf8(ps[i].value.value))
  {
    SegmentsSuccess(ps);
    var xs := Segments(ps).value;
    if ps != [] {
      forall i | 0 <= i < |ps| ensures Segment(ps[i]) == Success(xs[i]) && '&' !in xs[i] {
        SegmentRoundTrip(ps[i]);
      }
      JoinCount(xs, '&');
      SplitJoin(xs, '&');
      ParseSegmentsOf(ps, xs);
      assert '=' in xs[0];
      assert Join(xs, '&') != "" by {
        JoinNonEmpty(xs, '&');
      }
    }
  }

  lemma JoinNonEmpty(xs: seq<string>, sep: char)
    requires xs != [] && xs[0] != ""
    ensures Join(xs, sep) != ""
  {
    if |xs| > 1 {
      assert Join(xs, sep)[0] == xs[0][0];
    }
  }

  /** The form body is ASCII, so its UTF-8 length (the Content-Length) is its length. */
  lemma FormBodyAscii(ps: seq<Param>)
    requires AllText(ps)
    ensures FormBody(ps).Success?
    ensures IsAscii(FormBody(ps).value)
    ensures |Utf8(FormBody(ps).value)| == |FormBody(ps).value|
  {
    SegmentsSuccess(ps);
    var xs := Segments(ps).value;
    forall i | 0 <= i < |xs| ensures IsAscii(xs[i]) {
      var p := ps[i];
      PercentEncodeAlphabet(Utf8(p.name));
      PercentEncodeAlphabet(Utf8(p.value.value));
      AsciiAppend(PercentEncode(Utf8(p.name)), "=");
      AsciiAppend(PercentEncode(Utf8(p.name)) + "=", PercentEncode(Utf8(p.value.value)));
    }
    JoinAscii(xs, '&');
    Utf8Ascii(FormBody(ps).value);
  }

  lemma AsciiAppend(a: string, b: string)
    requires IsAscii(a) && IsAscii(b)
    ensures IsAscii(a + b)
  {
    forall i | 0 <= i < |a + b| ensures (a + b)[i] as int < 128 {
      if i >= |a| {
        assert (a + b)[i] == b[i - |a|];
      }
    }
  }

  lemma {:induction false} JoinAscii(xs: seq<string>, sep: char)
    requires sep as int < 128
    requires forall i :: 0 <= i < |xs| ==> IsAscii(xs[i])
    ensures IsAscii(Join(xs, sep))
  {
    if |xs| > 1 {
      JoinAscii(xs[1..], sep);
      assert xs[1..][0] == xs[1];
      AsciiAppend(xs[0], [sep]);
      AsciiAppend(xs[0] + [sep], Join(xs[1..], sep));
    }
  }

  /**
   * encodeParameters: a null array gives the empty string; otherwise the
   * loop over the array refuses files, puts '&' before every segment but the
   * first, and appends encode(name) "=" encode(value).
   */
  method EncodeParameters(httpParams: Option<seq<Param>>) returns (r: Result<string, RuntimeError>)
    ensures httpParams.None? ==> r == Success("")
    ensures httpParams.Some? ==> r == FormBody(httpParams.value)
  {
    if httpParams.None? {
      return Success("");
    }
    var ps := httpParams.value;
    var buf := "";
    ghost var xs: seq<string> := [];
    var j := 0;
    while j < |ps|
      invariant 0 <= j <= |ps|
      invariant Segments(ps[..j]) == Success(xs)
      invariant |xs| == j
      invariant buf == Join(xs, '&')
    {
      if ps[j].IsFile() {
        SegmentsStop(ps, j, xs);
        return Failure(ShouldBeText(ps[j].name));
      }
      if j != 0 {
        buf := buf + "&";
      }
      var name := Encode(ps[j].name);
      if ps[j].value.None? {
        SegmentsStop(ps, j, xs);
        return Failure(NullPointer);
      }
      var value := Encode(ps[j].value.value);
      ghost var x := name + "=" + value;
      SegmentsStep(ps, j, xs);
      JoinStep(xs, x, '&');
      AppendAssoc4(buf, name, "=", value);
      buf := buf + name + "=" + value;
      xs := xs + [x];
      j := j + 1;
    }
    assert ps[..j] == ps;
    return Success(buf);
  }
}
