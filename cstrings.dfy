/** C string and byte conventions shared by the whole model.

    A C string is represented by the characters before its terminator, so a
    `CStr` never contains NUL. Fixed-size C buffers are `array<char>`; a buffer
    that C leaves uninitialised is a freshly allocated Dafny array, whose
    contents the verifier does not know. */
module CStrings {

  const NUL: char := '\0'

  datatype Option<T> = None | Some(value: T)

  /** A byte as the C code sees it (the element type of files and base64 input). */
  type Byte = b: int | 0 <= b < 256

  /** The characters of a NUL-terminated C string, without the terminator. */
  type CStr = s: string | NUL !in s

  /** The byte a C `char` holds; the sources only handle ASCII text. */
  function ByteOf(c: char): Byte {
    (c as int) % 256
  }

  function Bytes(s: string): (r: seq<Byte>)
    ensures |r| == |s|
    ensures forall i :: 0 <= i < |s| ==> r[i] == ByteOf(s[i])
  {
    seq(|s|, i requires 0 <= i < |s| => ByteOf(s[i]))
  }

  /** `sizeof` of a string literal: its characters plus the terminator. */
  function SizeOf(literal: CStr): nat {
    |literal| + 1
  }

  predicate StartsWith(s: string, prefix: string) {
    |prefix| <= |s| && s[..|prefix|] == prefix
  }

  /** `strncmp(a, b, n) == 0` for C strings a and b: compare at most n
      characters, stopping where both strings end. */
  function StrNEqual(a: CStr, b: CStr, n: nat): bool
    decreases n
  {
    if n == 0 then true
    else if a == [] || b == [] then a == [] && b == []
    else a[0] == b[0] && StrNEqual(a[1..], b[1..], n - 1)
  }

  /** A strncmp against a literal with n = strlen(literal) is exactly a prefix test. */
  lemma {:induction false} StrNEqualIsPrefix(a: CStr, literal: CStr)
    ensures StrNEqual(a, literal, |literal|) <==> StartsWith(a, literal)
    decreases |literal|
  {
    if literal != [] && a != [] {
      StrNEqualIsPrefix(a[1..], literal[1..]);
      assert StartsWith(a, literal) <==> a[0] == literal[0] && StartsWith(a[1..], literal[1..]) by {
        if StartsWith(a, literal) {
          assert a[1..][..|literal| - 1] == a[..|literal|][1..];
        }
        if a[0] == literal[0] && StartsWith(a[1..], literal[1..]) {
          assert a[..|literal|] == [a[0]] + a[1..][..|literal| - 1];
        }
      }
    }
  }

  /** What C sees when it reads a buffer as a string: the characters before the
      first NUL. A buffer without a NUL would be read past its end in C; here the
      string stops at the end of the buffer. */
  function CString(buf: seq<char>): (s: CStr)
    ensures |s| <= |buf| && s == buf[..|s|]
    ensures |s| < |buf| ==> buf[|s|] == NUL
  {
    if buf == [] || buf[0] == NUL then [] else [buf[0]] + CString(buf[1..])
  }

  /** A string written in front of a terminator reads back as itself. */
  lemma {:induction false} CStringOfTerminated(s: CStr, rest: seq<char>)
    requires rest != [] && rest[0] == NUL
    ensures CString(s + rest) == s
    decreases |s|
  {
    if s == [] {
      assert (s + rest)[0] == NUL;
    } else {
      assert (s + rest)[1..] == s[1..] + rest;
      CStringOfTerminated(s[1..], rest);
    }
  }

  /** A buffer that starts with s and a terminator reads as s, whatever follows. */
  lemma CStringOfPrefix(buf: seq<char>, s: CStr)
    requires |s| < |buf| && buf[..|s| + 1] == s + [NUL]
    ensures CString(buf) == s
  {
    assert buf == s + buf[|s|..] by {
      assert buf[..|s|] == s;
    }
    assert buf[|s|..][0] == buf[..|s| + 1][|s|];
    CStringOfTerminated(s, buf[|s|..]);
  }

  /** A buffer that starts with a C string reads as a string that starts with
      it, whatever follows. */
  lemma {:induction false} CStringKeepsPrefix(buf: seq<char>, s: CStr)
    requires StartsWith(buf, s)
    ensures StartsWith(CString(buf), s)
    decreases |s|
  {
    if s != [] {
      assert buf[0] == s[0] && s[0] in s;
      assert buf[1..][..|s| - 1] == buf[..|s|][1..];
      CStringKeepsPrefix(buf[1..], s[1..]);
      assert CString(buf)[..|s|] == [buf[0]] + CString(buf[1..])[..|s| - 1];
    }
  }

  /** A buffer without a terminator reads as all of it. */
  lemma {:induction false} CStringWithoutTerminator(buf: seq<char>)
    requires NUL !in buf
    ensures CString(buf) == buf
  {
    if buf != [] {
      assert NUL !in buf[1..] by {
        assert forall k :: 0 <= k < |buf| - 1 ==> buf[1..][k] == buf[k + 1];
      }
      CStringWithoutTerminator(buf[1..]);
    }
  }

  /** `memcpy(buf + at, data, |data|)` on the contents of a buffer. */
  function Overwrite<T>(buf: seq<T>, at: nat, data: seq<T>): (r: seq<T>)
    requires at + |data| <= |buf|
    ensures |r| == |buf|
    ensures forall k :: 0 <= k < |buf| ==> r[k] == if at <= k < at + |data| then data[k - at] else buf[k]
  {
    buf[..at] + data + buf[at + |data|..]
  }

  /** `memcpy(buf, data, |data|)`: the bytes are copied, no terminator is added. */
  function CopyInto<T>(buf: seq<T>, data: seq<T>): (r: seq<T>)
    requires |data| <= |buf|
    ensures |r| == |buf| && r[..|data|] == data && r[|data|..] == buf[|data|..]
  {
    Overwrite(buf, 0, data)
  }

  function Zeroes(n: nat): (r: seq<char>)
    ensures |r| == n && forall k :: 0 <= k < n ==> r[k] == NUL
  {
    seq(n, _ => NUL)
  }

  /** memcpy into an array. */
  method MemCpy<T>(dst: array<T>, at: nat, src: seq<T>)
    requires at + |src| <= dst.Length
    modifies dst
    ensures dst[..] == Overwrite(old(dst[..]), at, src)
  {
    var i := 0;
    while i < |src|
      invariant 0 <= i <= |src|
      invariant forall k :: 0 <= k < dst.Length ==>
        dst[k] == if at <= k < at + i then src[k - at] else old(dst[k])
    {
      dst[at + i] := src[i];
      i := i + 1;
    }
    assert dst[..] == Overwrite(old(dst[..]), at, src);
  }

  /** `stpcpy(dst + at, src)`: copies src and its terminator and returns the
      index of the terminator, where the next stpcpy continues. */
  method StpCpy(dst: array<char>, at: nat, src: CStr) returns (end: nat)
    requires at + |src| + 1 <= dst.Length
    modifies dst
    ensures end == at + |src|
    ensures dst[..end] == old(dst[..at]) + src
    ensures dst[end] == NUL
    ensures dst[end + 1..] == old(dst[end + 1..])
  {
    MemCpy(dst, at, src + [NUL]);
    end := at + |src|;
  }

  function Min(a: nat, b: nat): nat {
    if a <= b then a else b
  }

  lemma Associative<T>(a: seq<T>, b: seq<T>, c: seq<T>)
    ensures a + (b + c) == (a + b) + c
  {
  }
}
