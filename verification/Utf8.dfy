/** UTF-8, as `str.encode()` writes it. */
module Utf8 {
  type Byte = b: int | 0 <= b < 256

  function EncodeChar(c: char): (r: seq<Byte>)
    ensures 1 <= |r| <= 4
  {
    var n := c as int;
    if n < 0x80 then [n]
    else if n < 0x800 then [0xC0 + n / 64, 0x80 + n % 64]
    else if n < 0x1_0000 then [0xE0 + n / 4096, 0x80 + n / 64 % 64, 0x80 + n % 64]
    else [0xF0 + n / 262144, 0x80 + n / 4096 % 64, 0x80 + n / 64 % 64, 0x80 + n % 64]
  }

  function Encode(text: string): seq<Byte> {
    if text == "" then [] else EncodeChar(text[0]) + Encode(text[1..])
  }

  /** The length of a character's encoding shows in its first byte. */
  function Width(first: Byte): nat {
    if first < 0x80 then 1 else if first < 0xE0 then 2 else if first < 0xF0 then 3 else 4
  }

  lemma {:induction false} FirstByteTellsWidth(c: char)
    ensures |EncodeChar(c)| == Width(EncodeChar(c)[0])
  {
  }

  lemma {:induction false} DivideTwice(n: nat)
    ensures n / 64 / 64 == n / 4096 && n / 64 / 64 / 64 == n / 262144
  {
  }

  lemma {:induction false} SameDigits(m: nat, n: nat)
    requires m / 64 == n / 64 && m % 64 == n % 64
    ensures m == n
  {
  }

  lemma {:induction false} CharsStayApart(c: char, d: char)
    requires EncodeChar(c) == EncodeChar(d)
    ensures c == d
  {
    var m, n := c as int, d as int;
    var e, f := EncodeChar(c), EncodeChar(d);
    assert forall i :: 0 <= i < |e| ==> e[i] == f[i];
    DivideTwice(m);
    DivideTwice(n);
    if |e| == 2 {
      SameDigits(m, n);
    } else if |e| == 3 {
      SameDigits(m / 64, n / 64);
      SameDigits(m, n);
    } else if |e| == 4 {
      SameDigits(m / 64 / 64, n / 64 / 64);
      SameDigits(m / 64, n / 64);
      SameDigits(m, n);
    }
    assert m == n;
  }

  /** Different texts have different bytes. */
  lemma {:induction false} TextsStayApart(s: string, t: string)
    requires Encode(s) == Encode(t)
    ensures s == t
  {
    if s != "" && t != "" {
      var e, f := EncodeChar(s[0]), EncodeChar(t[0]);
      FirstByteTellsWidth(s[0]);
      FirstByteTellsWidth(t[0]);
      assert Encode(s)[0] == e[0] && Encode(t)[0] == f[0];
      assert Encode(s)[..|e|] == e && Encode(t)[..|f|] == f;
      CharsStayApart(s[0], t[0]);
      assert Encode(s)[|e|..] == Encode(s[1..]) && Encode(t)[|f|..] == Encode(t[1..]);
      TextsStayApart(s[1..], t[1..]);
      assert s == [s[0]] + s[1..] && t == [t[0]] + t[1..];
    }
  }

  /** One character of each width, as section 7 of RFC 3629 has them. */
  lemma {:induction false} KnownEncodings()
    ensures EncodeChar('A') == [0x41]
    ensures EncodeChar('\U{0391}') == [0xCE, 0x91]
    ensures EncodeChar('\U{2262}') == [0xE2, 0x89, 0xA2]
    ensures EncodeChar('\U{233B4}') == [0xF0, 0xA3, 0x8E, 0xB4]
    ensures Encode("A\U{2262}") == [0x41, 0xE2, 0x89, 0xA2]
  {
    assert "A\U{2262}"[1..] == "\U{2262}" && "\U{2262}"[1..] == "";
    assert Encode("\U{2262}") == EncodeChar('\U{2262}') + [];
  }
}
