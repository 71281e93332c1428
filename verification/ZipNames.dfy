/**
 Which names the package reader (crates/host-core/src/plugins.rs) takes for text: exactly the
 encodings of Unicode scalar values (section 3 of RFC 3629).
 */
module ZipNames {

  import opened Text
  import opened ZipWriter
  import opened ZipReader

  predicate Scalar(c: nat) {
    c < 0xD800 || 0xE000 <= c < 0x11_0000
  }

  function Encoding(c: nat): (s: Bytes)
    requires Scalar(c)
  {
    if c < 0x80 then [c as byte]
    else if c < 0x800 then [(0xC0 + c / 0x40) as byte, (0x80 + c % 0x40) as byte]
    else if c < 0x1_0000 then
      [(0xE0 + c / 0x1000) as byte, (0x80 + c / 0x40 % 0x40) as byte, (0x80 + c % 0x40) as byte]
    else
      [(0xF0 + c / 0x4_0000) as byte, (0x80 + c / 0x1000 % 0x40) as byte,
       (0x80 + c / 0x40 % 0x40) as byte, (0x80 + c % 0x40) as byte]
  }

  predicate Scalars(text: seq<nat>) {
    forall i :: 0 <= i < |text| ==> Scalar(text[i])
  }

  function EncodingOf(text: seq<nat>): Bytes
    requires Scalars(text)
  {
    if text == [] then [] else Encoding(text[0]) + EncodingOf(text[1..])
  }

  lemma LastSix(c: nat, q: nat, r: nat)
    requires c == 0x40 * q + r && r < 0x40
    ensures c / 0x40 == q && c % 0x40 == r
  {
  }

  lemma LastTwelve(c: nat, q: nat, r: nat)
    requires c == 0x1000 * q + r && r < 0x1000
    ensures c / 0x1000 == q
  {
  }

  lemma LastEighteen(c: nat, q: nat, r: nat)
    requires c == 0x4_0000 * q + r && r < 0x4_0000
    ensures c / 0x4_0000 == q
  {
  }

  lemma OfTwo(c: nat, d: nat, e: nat)
    requires c == 0x40 * d + e && 2 <= d < 0x20 && e < 0x40
    ensures Scalar(c) && Encoding(c) == [(0xC0 + d) as byte, (0x80 + e) as byte]
  {
    LastSix(c, d, e);
  }

  lemma OfThree(c: nat, b: nat, d: nat, e: nat)
    requires c == 0x1000 * b + 0x40 * d + e && b < 0x10 && d < 0x40 && e < 0x40
    requires c >= 0x800 && (c < 0xD800 || 0xE000 <= c)
    ensures Scalar(c) && Encoding(c) == [(0xE0 + b) as byte, (0x80 + d) as byte, (0x80 + e) as byte]
  {
    LastTwelve(c, b, 0x40 * d + e);
    LastSix(c, 0x40 * b + d, e);
    LastSix(0x40 * b + d, b, d);
  }

  lemma OfFour(c: nat, a: nat, b: nat, d: nat, e: nat)
    requires c == 0x4_0000 * a + 0x1000 * b + 0x40 * d + e && a < 8 && b < 0x40 && d < 0x40 && e < 0x40
    requires 0x1_0000 <= c < 0x11_0000
    ensures Scalar(c)
    ensures Encoding(c) == [(0xF0 + a) as byte, (0x80 + b) as byte, (0x80 + d) as byte, (0x80 + e) as byte]
  {
    LastEighteen(c, a, 0x1000 * b + 0x40 * d + e);
    LastTwelve(c, 0x40 * a + b, 0x40 * d + e);
    LastSix(0x40 * a + b, a, b);
    LastSix(c, 0x1000 * a + 0x40 * b + d, e);
    LastSix(0x1000 * a + 0x40 * b + d, 0x40 * a + b, d);
  }

  /** Where the next character begins. */
  function Width(first: byte): nat {
    if first < 0x80 then 1 else if first < 0xE0 then 2 else if first < 0xF0 then 3 else 4
  }

  lemma ReadsOn(s: Bytes, i: nat)
    requires i < |s| && Utf8From(s, i)
    ensures i + Width(s[i]) <= |s| && Utf8From(s, i + Width(s[i]))
  {
  }

  /** The scalar value whose encoding begins here. */
  lemma Decoded(s: Bytes, i: nat) returns (c: nat)
    requires i < |s| && Utf8From(s, i) && i + Width(s[i]) <= |s|
    ensures Scalar(c) && s[i..i + Width(s[i])] == Encoding(c)
  {
    var first, second := s[i] as nat, if i + 1 < |s| then s[i + 1] as nat else 0;
    if s[i] < 0x80 {
      c := first;
    } else if s[i] < 0xE0 {
      c := 0x40 * (first - 0xC0) + (second - 0x80);
      OfTwo(c, first - 0xC0, second - 0x80);
    } else if s[i] < 0xF0 {
      var third := s[i + 2] as nat;
      c := 0x1000 * (first - 0xE0) + 0x40 * (second - 0x80) + (third - 0x80);
      OfThree(c, first - 0xE0, second - 0x80, third - 0x80);
    } else {
      var third, fourth := s[i + 2] as nat, s[i + 3] as nat;
      c := 0x4_0000 * (first - 0xF0) + 0x1000 * (second - 0x80) + 0x40 * (third - 0x80) + (fourth - 0x80);
      OfFour(c, first - 0xF0, second - 0x80, third - 0x80, fourth - 0x80);
    }
  }

  lemma Cut(s: Bytes, i: nat, head: Bytes, tail: Bytes)
    requires i <= |s| && s[i..] == head + tail
    ensures i + |head| <= |s| && s[i..i + |head|] == head && s[i + |head|..] == tail
  {
    assert s[i..i + |head|] == s[i..][..|head|];
    assert s[i + |head|..] == s[i..][|head|..];
  }

  lemma {:induction false} DecodedAll(s: Bytes, i: nat) returns (text: seq<nat>)
    requires i <= |s| && Utf8From(s, i)
    ensures Scalars(text) && s[i..] == EncodingOf(text)
    decreases |s| - i
  {
    if i == |s| {
      text := [];
    } else {
      ReadsOn(s, i);
      var n := Width(s[i]);
      var c := Decoded(s, i);
      var rest := DecodedAll(s, i + n);
      text := [c] + rest;
      assert s[i..] == s[i..i + n] + s[i + n..];
      assert text[1..] == rest;
    }
  }

  lemma EncodingIsRead(s: Bytes, i: nat, c: nat)
    requires Scalar(c) && i + |Encoding(c)| <= |s| && s[i..i + |Encoding(c)|] == Encoding(c)
    requires Utf8From(s, i + |Encoding(c)|)
    ensures Utf8From(s, i)
  {
    var part := s[i..i + |Encoding(c)|];
    assert part[0] == s[i];
    assert c >= 0x80 ==> part[1] == s[i + 1];
    assert c >= 0x800 ==> part[2] == s[i + 2];
    assert c >= 0x1_0000 ==> part[3] == s[i + 3];
  }

  lemma {:induction false} EncodingsAreRead(s: Bytes, i: nat, text: seq<nat>)
    requires i <= |s| && Scalars(text) && s[i..] == EncodingOf(text)
    ensures Utf8From(s, i)
    decreases |text|
  {
    if text != [] {
      Cut(s, i, Encoding(text[0]), EncodingOf(text[1..]));
      EncodingsAreRead(s, i + |Encoding(text[0])|, text[1..]);
      EncodingIsRead(s, i, text[0]);
    }
  }

  /** Main result: a name passes as UTF-8 exactly when it is the encoding of a text. */
  lemma Utf8IffEncoded(s: Bytes)
    ensures Utf8(s) <==> exists text :: Scalars(text) && EncodingOf(text) == s
  {
    assert s[0..] == s;
    if Utf8(s) {
      var text := DecodedAll(s, 0);
    }
    if text :| Scalars(text) && EncodingOf(text) == s {
      EncodingsAreRead(s, 0, text);
    }
  }

  // ---- The length of a text --------------------------------------------------------------------

  function Codes(s: string): (text: seq<nat>)
    ensures |text| == |s| && Scalars(text)
  {
    seq(|s|, i requires 0 <= i < |s| => s[i] as nat)
  }

  /** The length that limits a plan is that of its encoding. */
  lemma {:induction false} LengthOfText(s: string)
    ensures Utf8Length(s) == |EncodingOf(Codes(s))|
  {
    if s != "" {
      LengthOfText(s[1..]);
      assert Codes(s)[1..] == Codes(s[1..]);
    }
  }
}
