/**
 * Value types shared by the whole model: optional values and results (the
 * model's stand-ins for Java's null and for thrown runtime exceptions),
 * bytes, 32-bit integers, and the character-level helpers the library relies
 * on (ASCII lower-casing, decimal rendering, UTF-8 encoding and the
 * low-byte truncation of DataOutputStream.writeBytes).
 */
module Common {

  datatype Option<+T> = None | Some(value: T) {
    function GetOr(default: T): T {
      match this
      case Some(v) => v
      case None => default
    }
  }

  datatype Result<+R, +E> = Success(value: R) | Failure(error: E)

  /** The unchecked Java exceptions that escape the library's operations. */
  datatype RuntimeError =
    | NullPointer                          // NullPointerException
    | NotAFile                             // IllegalStateException("not a file")
    | ShouldBeText(name: string)           // IllegalArgumentException("parameter [name]should be text")
    | NegativeTimeout                      // IllegalArgumentException from Thread.sleep
    | PortOutOfRange(port: int)            // IllegalArgumentException from InetSocketAddress.createUnresolved

  type byte = b: int | 0 <= b < 256

  const INT_MIN: int := -0x8000_0000
  const INT_MAX: int := 0x7FFF_FFFF

  type Int32 = x: int | INT_MIN <= x <= INT_MAX

  /** Java `int` arithmetic: the mathematical value reduced modulo 2^32 into the signed range. */
  function Wrap32(x: int): (r: Int32)
    ensures INT_MIN <= x <= INT_MAX ==> r == x
    ensures (r - x) % 0x1_0000_0000 == 0
  {
    var m := (x - INT_MIN) % 0x1_0000_0000;
    m + INT_MIN
  }

  /** String.toLowerCase restricted to ASCII letters (the locale-independent part). */
  function ToLowerAscii(s: string): (r: string)
    ensures |r| == |s|
    ensures forall i :: 0 <= i < |s| ==>
      r[i] == if 'A' <= s[i] <= 'Z' then (s[i] as int + 32) as char else s[i]
  {
    if s == [] then []
    else [if 'A' <= s[0] <= 'Z' then (s[0] as int + 32) as char else s[0]] + ToLowerAscii(s[1..])
  }

  predicate IsDigit(c: char) {
    '0' <= c <= '9'
  }

  /** Long.toString / String.valueOf for a non-negative value. */
  function Decimal(n: nat): (r: string)
    ensures |r| >= 1
    ensures forall i :: 0 <= i < |r| ==> IsDigit(r[i])
  {
    if n < 10 then [('0' as int + n) as char]
    else Decimal(n / 10) + [('0' as int + n % 10) as char]
  }

  predicate IsAscii(s: string) {
    forall i :: 0 <= i < |s| ==> s[i] as int < 128
  }

  /** UTF-8 encoding of one Unicode scalar value. */
  function Utf8Char(c: char): (r: seq<byte>)
    ensures 1 <= |r| <= 4
    ensures (c as int < 128) <==> (r == [c as int])
  {
    var n := c as int;
    if n < 0x80 then [n]
    else if n < 0x800 then [0xC0 + n / 0x40, 0x80 + n % 0x40]
    else if n < 0x1_0000 then [0xE0 + n / 0x1000, 0x80 + (n / 0x40) % 0x40, 0x80 + n % 0x40]
    else [0xF0 + n / 0x4_0000, 0x80 + (n / 0x1000) % 0x40, 0x80 + (n / 0x40) % 0x40, 0x80 + n % 0x40]
  }

  /** String.getBytes("UTF-8"). */
  function Utf8(s: string): (r: seq<byte>)
    ensures |r| >= |s|
  {
    if s == [] then [] else Utf8Char(s[0]) + Utf8(s[1..])
  }

  lemma {:induction false} Utf8Append(a: string, b: string)
    ensures Utf8(a + b) == Utf8(a) + Utf8(b)
  {
    if a == [] {
      assert a + b == b;
    } else {
      assert (a + b)[0] == a[0];
      assert (a + b)[1..] == a[1..] + b;
      Utf8Append(a[1..], b);
    }
  }

  /** On ASCII text UTF-8 is the identity on code points: one byte per character. */
  lemma {:induction false} Utf8Ascii(s: string)
    requires IsAscii(s)
    ensures |Utf8(s)| == |s|
    ensures forall i :: 0 <= i < |s| ==> Utf8(s)[i] == s[i] as int
  {
    if s != [] {
      assert IsAscii(s[1..]) by {
        forall i | 0 <= i < |s[1..]| ensures s[1..][i] as int < 128 {
          assert s[1..][i] == s[i + 1];
        }
      }
      Utf8Ascii(s[1..]);
      assert s[0] as int < 128;
    }
  }

  /** DataOutputStream.writeBytes: every character contributes its low-order byte. */
  function LowBytes(s: string): (r: seq<byte>)
    ensures |r| == |s|
  {
    if s == [] then [] else [s[0] as int % 256] + LowBytes(s[1..])
  }

  /** Byte i of writeBytes(s) is the low-order byte of character i. */
  lemma {:induction false} LowBytesAt(s: string, i: nat)
    requires i < |s|
    ensures LowBytes(s)[i] == s[i] as int % 256
  {
    if i > 0 {
      LowBytesAt(s[1..], i - 1);
    }
  }

  /** writeBytes and getBytes("UTF-8") agree exactly on ASCII text. */
  lemma {:induction false} LowBytesAscii(s: string)
    requires IsAscii(s)
    ensures LowBytes(s) == Utf8(s)
  {
    if s != [] {
      assert IsAscii(s[1..]) by {
        forall i | 0 <= i < |s[1..]| ensures s[1..][i] as int < 128 {
          assert s[1..][i] == s[i + 1];
        }
      }
      LowBytesAscii(s[1..]);
      assert s[0] as int < 128;
    }
  }

  lemma {:induction false} LowBytesAppend(a: string, b: string)
    ensures LowBytes(a + b) == LowBytes(a) + LowBytes(b)
  {
    if a == [] {
      assert a + b == b;
    } else {
      assert (a + b)[0] == a[0];
      assert (a + b)[1..] == a[1..] + b;
      LowBytesAppend(a[1..], b);
    }
  }

  /*
   * Regrouping a concatenation. Stated over plain sequence variables these
   * are cheap to prove; applied to long concrete concatenations they save the
   * solver an element-wise comparison.
   */

  lemma AppendEmpty<T>(x: seq<T>)
    ensures [] + x == x
  {
  }

  lemma AppendAssoc<T>(x: seq<T>, a: seq<T>, b: seq<T>)
    ensures x + a + b == x + (a + b)
  {
  }

  lemma AppendAssoc4<T>(x: seq<T>, a: seq<T>, b: seq<T>, c: seq<T>)
    ensures x + a + b + c == x + (a + b + c)
  {
  }

  lemma AppendAssoc5<T>(x: seq<T>, a: seq<T>, b: seq<T>, c: seq<T>, d: seq<T>, e: seq<T>)
    ensures x + a + b + c + d + e == x + (a + b + c + d + e)
  {
  }

  lemma AppendAssoc6<T>(x: seq<T>, a: seq<T>, b: seq<T>, c: seq<T>, d: seq<T>, e: seq<T>, f: seq<T>)
    ensures x + a + b + c + d + e + f == x + (a + b + c + d + e + f)
  {
  }
}
