/** The URL-encoding of secrets, and a decoder it is checked against. */
module UrlEncoding {
  import opened Text
  import opened Redaction

  // ----- Encoding -----

  /** The UTF-8 encoding of a rune. */
  function Utf8(c: char): (bytes: seq<nat>)
    ensures bytes != [] && forall i :: 0 <= i < |bytes| ==> bytes[i] < 256
  {
    var n := c as int;
    if n < 0x80 then [n]
    else if n < 0x800 then [0xC0 + n / 64, 0x80 + n % 64]
    else if n < 0x1_0000 then [0xE0 + n / 4096, 0x80 + n / 64 % 64, 0x80 + n % 64]
    else [0xF0 + n / 262144 % 8, 0x80 + n / 4096 % 64, 0x80 + n / 64 % 64, 0x80 + n % 64]
  }

  function HexDigit(n: nat): (c: char)
    requires n < 16
    ensures '0' <= c <= '9' || 'A' <= c <= 'F'
  {
    if n < 10 then ('0' as int + n) as char else ('A' as int + n - 10) as char
  }

  predicate Unreserved(b: nat) {
    || 'a' as int <= b <= 'z' as int
    || 'A' as int <= b <= 'Z' as int
    || '0' as int <= b <= '9' as int
    || b == '-' as int || b == '_' as int || b == '.' as int || b == '~' as int
  }

  /** Neither the mask rune nor white space. */
  predicate Plain(s: string) {
    forall i :: 0 <= i < |s| ==> s[i] != MASK && !IsSpace(s[i])
  }

  function EscapeByte(b: nat): (r: string)
    requires b < 256
    ensures r != "" && Plain(r)
  {
    if Unreserved(b) then [b as char]
    else if b == ' ' as int then "+"
    else ['%', HexDigit(b / 16), HexDigit(b % 16)]
  }

  function EscapeBytes(bytes: seq<nat>): (r: string)
    requires forall i :: 0 <= i < |bytes| ==> bytes[i] < 256
    ensures Plain(r) && (bytes != [] ==> r != "")
  {
    if bytes == [] then "" else EscapeByte(bytes[0]) + EscapeBytes(bytes[1..])
  }

  /** url.QueryEscape */
  function QueryEscape(s: string): (r: string)
    ensures Plain(r) && (s != "" ==> r != "")
  {
    if s == "" then "" else EscapeBytes(Utf8(s[0])) + QueryEscape(s[1..])
  }

  /** The UTF-8 encoding of a string. */
  function Utf8All(s: string): (bytes: seq<nat>)
    ensures forall i :: 0 <= i < |bytes| ==> bytes[i] < 256
  {
    if s == "" then [] else Utf8(s[0]) + Utf8All(s[1..])
  }

  // ----- Decoding -----

  datatype Decoded<T> = Some(value: T) | None

  /** The value of an upper-case hexadecimal digit, or 16. */
  function DigitValue(c: char): (n: nat)
    ensures n <= 16
  {
    if '0' <= c <= '9' then c as nat - '0' as nat
    else if 'A' <= c <= 'F' then 10 + (c as nat - 'A' as nat)
    else 16
  }

  /** The byte that an escape of three runes stands for. */
  function HexByte(s: string): Decoded<nat>
    requires s != ""
  {
    if |s| < 3 || DigitValue(s[1]) == 16 || DigitValue(s[2]) == 16 then None
    else Some(16 * DigitValue(s[1]) + DigitValue(s[2]))
  }

  /** The bytes an encoded string stands for: `%XY` is a byte in hexadecimal, `+` is a space,
      and an unreserved rune stands for itself. A byte that could stand for itself is not
      escaped. */
  function Unescape(s: string): Decoded<seq<nat>> {
    if s == "" then Some([])
    else if s[0] == '%' then
      match HexByte(s)
      case None => None
      case Some(b) => if Unreserved(b) || b == ' ' as nat then None else Cons(b, Unescape(s[3..]))
    else if s[0] == '+' then Cons(' ' as nat, Unescape(s[1..]))
    else if Unreserved(s[0] as nat) then Cons(s[0] as nat, Unescape(s[1..]))
    else None
  }

  function Cons<T>(head: T, tail: Decoded<seq<T>>): Decoded<seq<T>> {
    match tail
    case None => None
    case Some(rest) => Some([head] + rest)
  }

  predicate Continuation(b: nat) {
    0x80 <= b < 0xC0
  }

  /** The first rune of some UTF-8 bytes, and how many of them it takes. An encoding that is
      longer than it need be, and one of a surrogate, is none. */
  function FirstRune(bytes: seq<nat>): (r: Decoded<(char, nat)>)
    requires bytes != []
    ensures r.Some? ==> 1 <= r.value.1 <= |bytes|
  {
    var b := bytes[0];
    if b < 0x80 then Some((b as char, 1))
    else if 0xC0 <= b < 0xE0 && |bytes| >= 2 && Continuation(bytes[1]) then
      var n := 64 * (b - 0xC0) + (bytes[1] - 0x80);
      if n < 0x80 then None else Some((n as char, 2))
    else if 0xE0 <= b < 0xF0 && |bytes| >= 3 && Continuation(bytes[1]) && Continuation(bytes[2]) then
      var n := 4096 * (b - 0xE0) + 64 * (bytes[1] - 0x80) + (bytes[2] - 0x80);
      if 0x800 <= n < 0xD800 || 0xE000 <= n < 0x1_0000 then Some((n as char, 3)) else None
    else if 0xF0 <= b < 0xF8 && |bytes| >= 4
            && Continuation(bytes[1]) && Continuation(bytes[2]) && Continuation(bytes[3]) then
      var n := 262144 * (b - 0xF0) + 4096 * (bytes[1] - 0x80) + 64 * (bytes[2] - 0x80) + (bytes[3] - 0x80);
      if 0x1_0000 <= n < 0x11_0000 then Some((n as char, 4)) else None
    else None
  }

  function DecodeUtf8(bytes: seq<nat>): Decoded<string> {
    if bytes == [] then Some("")
    else
      match FirstRune(bytes)
      case None => None
      case Some((c, length)) => Cons(c, DecodeUtf8(bytes[length..]))
  }

  /** w is a URL-encoding of s. */
  predicate Encodes(w: string, s: string) {
    Unescape(w).Some? && DecodeUtf8(Unescape(w).value) == Some(s)
  }

  // ----- Encoding and decoding -----

  /** A number in digits of six bits. */
  lemma Digits(n: nat)
    ensures n == 64 * (n / 64) + n % 64
    ensures n == 4096 * (n / 4096) + 64 * (n / 64 % 64) + n % 64
    ensures n == 262144 * (n / 262144) + 4096 * (n / 4096 % 64) + 64 * (n / 64 % 64) + n % 64
  {
    assert n / 64 / 64 == n / 4096;
    assert n / 4096 / 64 == n / 262144;
  }

  lemma DigitsUnique(high: nat, low: nat)
    requires low < 64
    ensures (64 * high + low) / 64 == high && (64 * high + low) % 64 == low
  {
  }

  lemma RuneDecodes(c: char, rest: seq<nat>)
    ensures FirstRune(Utf8(c) + rest) == Some((c, |Utf8(c)|))
  {
    hide FirstRune;
    var n, bytes := c as nat, Utf8(c) + rest;
    if n >= 0x1_0000 {
      LongRuneDecodes(c, rest);
    } else if n >= 0x800 {
      Digits(n);
      FirstOf3(bytes, n);
    } else if n >= 0x80 {
      Digits(n);
      FirstOf2(bytes, n);
    } else {
      FirstOf1(bytes, n);
    }
  }

  lemma LongRuneDecodes(c: char, rest: seq<nat>)
    requires c as nat >= 0x1_0000
    ensures FirstRune(Utf8(c) + rest) == Some((c, |Utf8(c)|))
  {
    hide FirstRune;
    var n := c as nat;
    Digits(n);
    FirstOf4(Utf8(c) + rest, n);
  }

  lemma FirstOf1(bytes: seq<nat>, n: nat)
    requires n < 0x80 && bytes != [] && bytes[0] == n
    ensures FirstRune(bytes) == Some((n as char, 1))
  {
  }

  lemma FirstOf2(bytes: seq<nat>, n: nat)
    requires 0x80 <= n < 0x800 && |bytes| >= 2 && 0xC0 <= bytes[0] && Continuation(bytes[1])
    requires n == 64 * (bytes[0] - 0xC0) + (bytes[1] - 0x80)
    ensures FirstRune(bytes) == Some((n as char, 2))
  {
  }

  lemma FirstOf3(bytes: seq<nat>, n: nat)
    requires 0x800 <= n < 0xD800 || 0xE000 <= n < 0x1_0000
    requires |bytes| >= 3 && 0xE0 <= bytes[0] && Continuation(bytes[1]) && Continuation(bytes[2])
    requires n == 4096 * (bytes[0] - 0xE0) + 64 * (bytes[1] - 0x80) + (bytes[2] - 0x80)
    ensures FirstRune(bytes) == Some((n as char, 3))
  {
  }

  lemma FirstOf4(bytes: seq<nat>, n: nat)
    requires 0x1_0000 <= n < 0x11_0000 && |bytes| >= 4 && 0xF0 <= bytes[0]
    requires Continuation(bytes[1]) && Continuation(bytes[2]) && Continuation(bytes[3])
    requires n == 262144 * (bytes[0] - 0xF0) + 4096 * (bytes[1] - 0x80) + 64 * (bytes[2] - 0x80) + (bytes[3] - 0x80)
    ensures FirstRune(bytes) == Some((n as char, 4))
  {
  }

  lemma RuneEncodes(bytes: seq<nat>)
    requires bytes != [] && FirstRune(bytes).Some?
    ensures var (c, length) := FirstRune(bytes).value; Utf8(c) == bytes[..length]
  {
    hide Utf8;
    var b := bytes[0];
    if b < 0x80 {
      Utf8Of1(b);
    } else if b < 0xE0 {
      Utf8Of2(b - 0xC0, bytes[1] - 0x80);
    } else if b < 0xF0 {
      Utf8Of3(b - 0xE0, bytes[1] - 0x80, bytes[2] - 0x80);
    } else {
      Utf8Of4(b - 0xF0, bytes[1] - 0x80, bytes[2] - 0x80, bytes[3] - 0x80);
    }
  }

  lemma Utf8Of1(n: nat)
    requires n < 0x80
    ensures Utf8(n as char) == [n]
  {
  }

  lemma Utf8Of2(high: nat, low: nat)
    requires 0x80 <= 64 * high + low < 0x800 && low < 64
    ensures Utf8((64 * high + low) as char) == [0xC0 + high, 0x80 + low]
  {
    DigitsUnique(high, low);
  }

  lemma Utf8Of3(high: nat, mid: nat, low: nat)
    requires mid < 64 && low < 64
    requires var n := 4096 * high + 64 * mid + low; 0x800 <= n < 0xD800 || 0xE000 <= n < 0x1_0000
    ensures Utf8((4096 * high + 64 * mid + low) as char) == [0xE0 + high, 0x80 + mid, 0x80 + low]
  {
    DigitsUnique(64 * high + mid, low);
    DigitsUnique(high, mid);
    var n := 4096 * high + 64 * mid + low;
    assert n / 64 / 64 == n / 4096;
  }

  lemma Utf8Of4(top: nat, high: nat, mid: nat, low: nat)
    requires high < 64 && mid < 64 && low < 64
    requires 0x1_0000 <= 262144 * top + 4096 * high + 64 * mid + low < 0x11_0000
    ensures Utf8((262144 * top + 4096 * high + 64 * mid + low) as char)
            == [0xF0 + top, 0x80 + high, 0x80 + mid, 0x80 + low]
  {
    DigitsUnique(4096 * top + 64 * high + mid, low);
    DigitsUnique(64 * top + high, mid);
    DigitsUnique(top, high);
    var n := 262144 * top + 4096 * high + 64 * mid + low;
    assert n / 64 / 64 == n / 4096 && n / 4096 / 64 == n / 262144;
  }

  lemma {:induction false} Utf8Decodes(s: string)
    ensures DecodeUtf8(Utf8All(s)) == Some(s)
  {
    hide Utf8, FirstRune;
    if s != "" {
      var first, rest := Utf8(s[0]), Utf8All(s[1..]);
      RuneDecodes(s[0], rest);
      assert (first + rest)[|first|..] == rest;
      Utf8Decodes(s[1..]);
      assert s == [s[0]] + s[1..];
    }
  }

  lemma {:induction false} Utf8Encodes(bytes: seq<nat>)
    requires DecodeUtf8(bytes).Some?
    ensures Utf8All(DecodeUtf8(bytes).value) == bytes
    decreases |bytes|
  {
    hide Utf8, FirstRune;
    if bytes != [] {
      RuneEncodes(bytes);
      var (c, length) := FirstRune(bytes).value;
      Utf8Encodes(bytes[length..]);
      var rest := DecodeUtf8(bytes[length..]).value;
      assert ([c] + rest)[1..] == rest;
      assert bytes == bytes[..length] + bytes[length..];
    }
  }

  lemma HexDigits(b: nat)
    requires b < 256
    ensures HexByte(['%', HexDigit(b / 16), HexDigit(b % 16)]) == Some(b)
  {
  }

  lemma ByteUnescapes(b: nat, rest: string)
    requires b < 256
    ensures Unescape(EscapeByte(b) + rest) == Cons(b, Unescape(rest))
  {
    var code := EscapeByte(b);
    assert (code + rest)[|code|..] == rest;
    if !Unreserved(b) && b != ' ' as nat {
      HexDigits(b);
    }
  }

  lemma {:induction false} BytesUnescape(bytes: seq<nat>)
    requires forall i :: 0 <= i < |bytes| ==> bytes[i] < 256
    ensures Unescape(EscapeBytes(bytes)) == Some(bytes)
  {
    hide EscapeByte, Unescape;
    if bytes == [] {
      NothingUnescapes();
    } else {
      BytesUnescape(bytes[1..]);
      ByteUnescapes(bytes[0], EscapeBytes(bytes[1..]));
      assert bytes == [bytes[0]] + bytes[1..];
    }
  }

  lemma NothingUnescapes()
    ensures Unescape("") == Some([])
  {
  }

  /** There is only one way to write some bytes. */
  lemma {:induction false} UnescapedEscapes(w: string)
    requires Unescape(w).Some?
    ensures var bytes := Unescape(w).value;
            (forall i :: 0 <= i < |bytes| ==> bytes[i] < 256) && EscapeBytes(bytes) == w
    decreases |w|
  {
    hide EscapeByte;
    if w != "" {
      var taken := if w[0] == '%' then 3 else 1;
      UnescapedEscapes(w[taken..]);
      ByteEscapes(w);
      var rest := Unescape(w[taken..]).value;
      assert Unescape(w).value[1..] == rest;
      assert w == w[..taken] + w[taken..];
    }
  }

  lemma ByteEscapes(w: string)
    requires w != "" && Unescape(w).Some?
    ensures var bytes := Unescape(w).value;
            bytes != [] && bytes[0] < 256 && EscapeByte(bytes[0]) == w[..if w[0] == '%' then 3 else 1]
  {
    hide Unescape;
    UnescapeFirst(w);
    if w[0] == '%' {
      var b := HexByte(w).value;
      assert b / 16 == DigitValue(w[1]) && b % 16 == DigitValue(w[2]);
    }
  }

  lemma UnescapeFirst(w: string)
    requires w != "" && Unescape(w).Some?
    ensures Unescape(w).value != []
    ensures var b := Unescape(w).value[0];
            if w[0] == '%' then HexByte(w) == Some(b) && !Unreserved(b) && b != ' ' as nat
            else if w[0] == '+' then b == ' ' as nat
            else b == w[0] as nat && Unreserved(b)
  {
  }

  lemma {:induction false} QueryEscapeIs(s: string)
    ensures QueryEscape(s) == EscapeBytes(Utf8All(s))
  {
    hide Utf8, EscapeBytes;
    if s == "" {
      assert EscapeBytes([]) == "" by { NothingEscapes(); }
    } else {
      QueryEscapeIs(s[1..]);
      EscapeAppend(Utf8(s[0]), Utf8All(s[1..]));
    }
  }

  lemma NothingEscapes()
    ensures EscapeBytes([]) == ""
  {
  }

  lemma {:induction false} EscapeAppend(a: seq<nat>, b: seq<nat>)
    requires forall i :: 0 <= i < |a| ==> a[i] < 256
    requires forall i :: 0 <= i < |b| ==> b[i] < 256
    ensures EscapeBytes(a + b) == EscapeBytes(a) + EscapeBytes(b)
  {
    hide EscapeByte;
    if a == [] {
      assert a + b == b;
    } else {
      EscapeAppend(a[1..], b);
      assert (a + b)[1..] == a[1..] + b;
    }
  }

  /** The encoding decodes to the string, and no other encoding does. */
  lemma EncodesExactly(w: string, s: string)
    ensures Encodes(w, s) <==> w == QueryEscape(s)
  {
    hide Unescape, DecodeUtf8, Utf8All, EscapeBytes, QueryEscape;
    QueryEscapeIs(s);
    BytesUnescape(Utf8All(s));
    Utf8Decodes(s);
    if Encodes(w, s) {
      UnescapedEscapes(w);
      Utf8Encodes(Unescape(w).value);
    }
  }
}
