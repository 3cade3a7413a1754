/**
 * HttpParameter: a name with either a text value or a file (optionally with
 * an explicit byte stream that takes precedence over the file's contents),
 * content-type inference from the file name, the multipart selector,
 * array merge and ordering.
 * A Java `HttpParameter[]` that may be null is an `Option<seq<Param>>`.
 */
module Parameters {
  import opened Common

  /** A java.io.File as far as the library uses it: getName() and the bytes a FileInputStream on it yields. */
  datatype File = File(name: string, contents: seq<byte>)

  /** The four fields of HttpParameter; null fields are None. */
  datatype Param = Param(name: string, value: Option<string>, file: Option<File>, fileBody: Option<seq<byte>>) {
    predicate IsFile() {
      file.Some?
    }
    predicate HasFileBody() {
      fileBody.Some?
    }
  }

  /** new HttpParameter(name, value) */
  function TextParam(name: string, value: string): (p: Param)
    ensures !p.IsFile() && p.name == name && p.value == Some(value)
  {
    Param(name, Some(value), None, None)
  }

  /** new HttpParameter(name, file) */
  function FileParam(name: string, file: File): (p: Param)
    ensures p.IsFile() && !p.HasFileBody() && p.name == name && p.file == Some(file)
  {
    Param(name, None, Some(file), None)
  }

  /** new HttpParameter(name, fileName, fileBody): the file is never opened, so its contents are irrelevant. */
  function StreamParam(name: string, fileName: string, fileBody: seq<byte>): (p: Param)
    ensures p.IsFile() && p.HasFileBody() && p.file.value.name == fileName && p.fileBody == Some(fileBody)
  {
    Param(name, None, Some(File(fileName, [])), Some(fileBody))
  }

  /** The bytes sent for a file parameter: the explicit stream if present, else the file read from disk. */
  function FileBytes(p: Param): seq<byte>
    requires p.IsFile()
  {
    if p.HasFileBody() then p.fileBody.value else p.file.value.contents
  }

  // HttpMediaType constants used here
  const APPLICATION_OCTET_STREAM: string := "application/octet-stream"
  const IMAGE_GIF: string := "image/gif"
  const IMAGE_PNG: string := "image/png"
  const IMAGE_JPEG: string := "image/jpeg"
  const APPLICATION_JSON: string := "application/json"

  /** String.lastIndexOf(c): the greatest index holding c, or -1. */
  function LastIndexOf(s: string, c: char): (r: int)
    ensures -1 <= r < |s|
    ensures r == -1 <==> c !in s
    ensures r >= 0 ==> s[r] == c && c !in s[r + 1..]
  {
    if s == [] then -1
    else if s[|s| - 1] == c then |s| - 1
    else
      var r := LastIndexOf(s[..|s| - 1], c);
      assert s[..|s| - 1] + [s[|s| - 1]] == s;
      r
  }

  /** The characters after the last '.', defined independently of LastIndexOf. */
  function Extension(name: string): string
  {
    if name == [] || name[|name| - 1] == '.' then []
    else Extension(name[..|name| - 1]) + [name[|name| - 1]]
  }

  /** The lookup table of getContentType: keyed by the lower-cased extension. */
  function MediaTypeOfExtension(ext: string): string
  {
    if ext == "gif" then IMAGE_GIF
    else if ext == "png" then IMAGE_PNG
    else if ext == "jpg" || ext == "jpeg" then IMAGE_JPEG
    else if ext == "json" then APPLICATION_JSON
    else APPLICATION_OCTET_STREAM
  }

  /**
   * The lookup as getContentType writes it: branching on the length of the
   * lower-cased extension first; it agrees with the table.
   */
  function LookupByLength(ext: string): (r: string)
    ensures r == MediaTypeOfExtension(ext)
  {
    if |ext| == 3 then
      if ext == "gif" then IMAGE_GIF
      else if ext == "png" then IMAGE_PNG
      else if ext == "jpg" then IMAGE_JPEG
      else APPLICATION_OCTET_STREAM
    else if |ext| == 4 then
      if ext == "jpeg" then IMAGE_JPEG
      else if ext == "json" then APPLICATION_JSON
      else APPLICATION_OCTET_STREAM
    else APPLICATION_OCTET_STREAM
  }

  /** The body of getContentType once the parameter is known to be a file. */
  function ContentTypeOfName(name: string): (r: string)
    ensures '.' !in name ==> r == APPLICATION_OCTET_STREAM
    ensures '.' in name ==> r == MediaTypeOfExtension(ToLowerAscii(Extension(name)))
  {
    var index := LastIndexOf(name, '.');
    if index == -1 then APPLICATION_OCTET_STREAM
    else
      ExtensionAfterLastDot(name, index);
      LookupByLength(ToLowerAscii(name[index + 1..]))
  }

  lemma {:induction false} ExtensionAfterLastDot(name: string, index: int)
    requires 0 <= index < |name| && name[index] == '.' && '.' !in name[index + 1..]
    ensures Extension(name) == name[index + 1..]
    decreases |name|
  {
    if index == |name| - 1 {
    } else {
      var init := name[..|name| - 1];
      assert init[index] == '.';
      assert init[index + 1..] + [name[|name| - 1]] == name[index + 1..];
      forall i | index + 1 <= i < |init| ensures init[i] != '.' {
        assert name[index + 1..][i - (index + 1)] == name[i];
      }
      assert '.' !in init[index + 1..];
      assert name[|name| - 1] == name[index + 1..][|name| - 1 - (index + 1)];
      ExtensionAfterLastDot(init, index);
    }
  }

  /** getContentType: IllegalStateException("not a file") for a text parameter. */
  function ContentType(p: Param): (r: Result<string, RuntimeError>)
    ensures !p.IsFile() ==> r == Failure(NotAFile)
    ensures p.IsFile() ==> r == Success(ContentTypeOfName(p.file.value.name))
  {
    if !p.IsFile() then Failure(NotAFile)
    else Success(ContentTypeOfName(p.file.value.name))
  }

  /** Lower-casing keeps the dots where they are. */
  lemma LowerKeepsLastDot(name: string, i: int)
    requires 0 <= i < |name| && name[i] == '.' && '.' !in name[i + 1..]
    ensures ToLowerAscii(name)[i] == '.' && '.' !in ToLowerAscii(name)[i + 1..]
  {
    var lower := ToLowerAscii(name);
    forall k | i + 1 <= k < |name| ensures lower[k] != '.' {
      assert name[i + 1..][k - (i + 1)] == name[k];
    }
  }

  /** Lower-casing a slice of a lower-cased name changes nothing. */
  lemma LowerOfLowerSlice(name: string, i: nat)
    requires i <= |name|
    ensures ToLowerAscii(ToLowerAscii(name)[i..]) == ToLowerAscii(name[i..])
  {
    var lower := ToLowerAscii(name);
    var a := ToLowerAscii(lower[i..]);
    var b := ToLowerAscii(name[i..]);
    assert |a| == |b|;
    forall k | 0 <= k < |a| ensures a[k] == b[k] {
      var c := name[i + k];
      var l := lower[i + k];
      assert l == if 'A' <= c <= 'Z' then (c as int + 32) as char else c;
      assert lower[i..][k] == l;
      assert name[i..][k] == c;
      assert !('A' <= l <= 'Z') && a[k] == l;
      assert b[k] == if 'A' <= c <= 'Z' then (c as int + 32) as char else c;
    }
  }

  /** Case is ignored: a name and its lower-cased form have the same content type. */
  lemma ContentTypeIgnoresCase(name: string)
    ensures ContentTypeOfName(ToLowerAscii(name)) == ContentTypeOfName(name)
  {
    var lower := ToLowerAscii(name);
    if '.' in name {
      var i := LastIndexOf(name, '.');
      LowerKeepsLastDot(name, i);
      ExtensionAfterLastDot(name, i);
      ExtensionAfterLastDot(lower, i);
      LowerOfLowerSlice(name, i + 1);
      ContentTypeOfSameExtension(lower, name);
    } else {
      forall k | 0 <= k < |lower| ensures lower[k] != '.' {
        assert name[k] != '.';
      }
    }
  }

  /**
   * Only the text after the last dot counts, whatever the name holds before
   * it (so "a.tar.gz" is looked up as "gz").
   */
  lemma ContentTypeOfExtension(base: string, ext: string)
    requires '.' !in ext
    ensures ContentTypeOfName(base + "." + ext) == MediaTypeOfExtension(ToLowerAscii(ext))
  {
    var name := base + "." + ext;
    assert name[|base|] == '.' && name[|base| + 1..] == ext;
    ExtensionAfterLastDot(name, |base|);
  }

  /** A trailing dot leaves an empty extension, which is unmapped. */
  lemma ContentTypeTrailingDot(base: string)
    ensures ContentTypeOfName(base + ".") == APPLICATION_OCTET_STREAM
  {
    ContentTypeOfExtension(base, "");
    assert base + "." + "" == base + ".";
  }

  /** A string without upper-case letters is its own lower-cased form. */
  lemma LowerOfLowerCase(s: string)
    requires forall i :: 0 <= i < |s| ==> !('A' <= s[i] <= 'Z')
    ensures ToLowerAscii(s) == s
  {
  }

  /** A name ending in ".json" is JSON. */
  lemma ContentTypeJson(name: string)
    requires 5 <= |name| && name[|name| - 5..] == ".json"
    ensures ContentTypeOfName(name) == APPLICATION_JSON
  {
    var i := |name| - 5;
    assert name[i] == name[i..][0] == '.';
    assert name[i + 1..] == name[i..][1..] == "json";
    ExtensionJson();
    ExtensionAfterLastDot(name, i);
  }

  /** "json" has no dot and, lower-cased, names JSON. */
  lemma ExtensionJson()
    ensures '.' !in "json"
    ensures MediaTypeOfExtension(ToLowerAscii("json")) == APPLICATION_JSON
  {
    LowerOfLowerCase("json");
  }

  /** Two names with the same lower-cased last extension have the same content type. */
  lemma ContentTypeOfSameExtension(a: string, b: string)
    requires '.' in a && '.' in b
    requires ToLowerAscii(Extension(a)) == ToLowerAscii(Extension(b))
    ensures ContentTypeOfName(a) == ContentTypeOfName(b)
  {
  }

  /** Some element of a non-null array is a file. */
  predicate HasFile(params: Option<seq<Param>>) {
    params.Some? && exists i :: 0 <= i < |params.value| && params.value[i].IsFile()
  }

  /**
   * isMultipartRequest(params, rawContentTypes): a request carrying a file is
   * multipart unless it is a single file whose content type is one of the raw
   * pass-through types.
   */
  function IsMultipartRequest(params: Option<seq<Param>>, rawContentTypes: seq<string>): (r: bool)
    ensures !HasFile(params) ==> !r
    ensures HasFile(params) && |params.value| > 1 ==> r
    ensures HasFile(params) && |params.value| == 1 ==>
      (r <==> ContentTypeOfName(params.value[0].file.value.name) !in rawContentTypes)
    ensures rawContentTypes == [] ==> r == HasFile(params)
  {
    if HasFile(params) then
      if |params.value| == 1 then
        var ct := ContentType(params.value[0]);
        !(ct.Success? && ct.value in rawContentTypes)
      else true
    else false
  }

  /** containsFile(HttpParameter[]): a scan that stops at the first file. */
  method ContainsFile(params: Option<seq<Param>>) returns (containsFile: bool)
    ensures containsFile == HasFile(params)
  {
    containsFile := false;
    if params.None? {
      return false;
    }
    var ps := params.value;
    var i := 0;
    while i < |ps|
      invariant 0 <= i <= |ps|
      invariant forall j :: 0 <= j < i ==> !ps[j].IsFile()
    {
      if ps[i].IsFile() {
        containsFile := true;
        break;
      }
      i := i + 1;
    }
  }

  /** merge(HttpParameter[], HttpParameter[]): two arraycopy passes into a new array. */
  method Merge(params1: Option<seq<Param>>, params2: Option<seq<Param>>) returns (r: seq<Param>)
    ensures params1.Some? && params2.Some? ==> r == params1.value + params2.value
    ensures params1.None? && params2.None? ==> r == []
    ensures params1.Some? && params2.None? ==> r == params1.value
    ensures params1.None? && params2.Some? ==> r == params2.value
  {
    if params1.Some? && params2.Some? {
      var a, b := params1.value, params2.value;
      var params := new Param[|a| + |b|];
      var i := 0;
      while i < |a|
        invariant 0 <= i <= |a|
        invariant forall k :: 0 <= k < i ==> params[k] == a[k]
      {
        params[i] := a[i];
        i := i + 1;
      }
      var j := 0;
      while j < |b|
        invariant 0 <= j <= |b|
        invariant forall k :: 0 <= k < |a| ==> params[k] == a[k]
        invariant forall k :: 0 <= k < j ==> params[|a| + k] == b[k]
      {
        params[|a| + j] := b[j];
        j := j + 1;
      }
      return params[..];
    }
    if params1.None? && params2.None? {
      return [];
    }
    if params1.Some? {
      return params1.value;
    } else {
      return params2.value;
    }
  }

  /** merge(HttpParameter[], HttpParameter): append one parameter, or wrap it when the array is null. */
  method MergeOne(params1: Option<seq<Param>>, param: Option<Param>) returns (r: seq<Param>)
    ensures params1.Some? && param.Some? ==> r == params1.value + [param.value]
    ensures params1.None? && param.None? ==> r == []
    ensures params1.Some? && param.None? ==> r == params1.value
    ensures params1.None? && param.Some? ==> r == [param.value]
  {
    if params1.Some? && param.Some? {
      var a := params1.value;
      var params := new Param[|a| + 1];
      var i := 0;
      while i < |a|
        invariant 0 <= i <= |a|
        invariant forall k :: 0 <= k < i ==> params[k] == a[k]
      {
        params[i] := a[i];
        i := i + 1;
      }
      params[params.Length - 1] := param.value;
      return params[..];
    }
    if params1.None? && param.None? {
      return [];
    }
    if params1.Some? {
      return params1.value;
    } else {
      return [param.value];
    }
  }

  /** String.compareTo: difference of the first differing characters, else of the lengths. */
  function CompareStrings(a: string, b: string): int
  {
    if a == [] || b == [] then |a| - |b|
    else if a[0] != b[0] then a[0] as int - b[0] as int
    else CompareStrings(a[1..], b[1..])
  }

  lemma {:induction false} CompareStringsAntisymmetric(a: string, b: string)
    ensures CompareStrings(a, b) == -CompareStrings(b, a)
  {
    if a != [] && b != [] && a[0] == b[0] {
      CompareStringsAntisymmetric(a[1..], b[1..]);
    }
  }

  lemma {:induction false} CompareStringsZero(a: string, b: string)
    ensures CompareStrings(a, b) == 0 <==> a == b
  {
    if a != [] && b != [] && a[0] == b[0] {
      CompareStringsZero(a[1..], b[1..]);
      assert a == [a[0]] + a[1..] && b == [b[0]] + b[1..];
    } else if a != [] && b != [] {
      assert a[0] != b[0];
    }
  }

  /** compareTo: by name, then by value; a null value compared on an equal name is a NullPointerException. */
  function CompareTo(p: Param, q: Param): Result<int, RuntimeError>
  {
    var compared := CompareStrings(p.name, q.name);
    if compared != 0 then Success(compared)
    else if p.value.None? || q.value.None? then Failure(NullPointer)
    else Success(CompareStrings(p.value.value, q.value.value))
  }

  /** compareTo is antisymmetric and is zero exactly on equal names and equal values. */
  lemma CompareToProperties(p: Param, q: Param)
    ensures CompareTo(p, q).Success? <==> CompareTo(q, p).Success?
    ensures CompareTo(p, q).Success? ==> CompareTo(p, q).value == -CompareTo(q, p).value
    ensures CompareTo(p, q) == Success(0) <==> p.name == q.name && p.value.Some? && p.value == q.value
  {
    CompareStringsAntisymmetric(p.name, q.name);
    CompareStringsZero(p.name, q.name);
    if p.value.Some? && q.value.Some? {
      CompareStringsAntisymmetric(p.value.value, q.value.value);
      CompareStringsZero(p.value.value, q.value.value);
    }
  }
}
