/** Reading a stream as text: a character split across reads is held back until it is complete. */
module Utf8Stream {
  import opened Prelude

  type Byte = b: nat | b < 256

  // ---------------------------------------------------------------------------------------------
  // UTF-8 (RFC 3629)
  // ---------------------------------------------------------------------------------------------

  /** Unicode scalar values: code points that are not surrogates. */
  predicate IsScalar(c: nat)
  {
    c < 0xD800 || 0xE000 <= c < 0x110000
  }

  /** Section 3 of RFC 3629. */
  function Encode(c: nat): (s: seq<Byte>)
    requires IsScalar(c)
    ensures 1 <= |s| <= 4
  {
    if c < 0x80 then [c]
    else if c < 0x800 then [0xC0 + c / 64, 0x80 + c % 64]
    else if c < 0x10000 then [0xE0 + c / 4096, 0x80 + c / 64 % 64, 0x80 + c % 64]
    else [0xF0 + c / 262144, 0x80 + c / 4096 % 64, 0x80 + c / 64 % 64, 0x80 + c % 64]
  }

  predicate AllScalar(text: seq<nat>)
  {
    forall i :: 0 <= i < |text| ==> IsScalar(text[i])
  }

  function EncodeAll(text: seq<nat>): seq<Byte>
    requires AllScalar(text)
  {
    if text == [] then [] else Encode(text[0]) + EncodeAll(text[1..])
  }

  /** What the bytes start with: a character, bytes that can never be one, or a part of one. */
  datatype Head = Char(length: nat, code: nat) | Bad(length: nat) | Short

  predicate Tail(b: Byte)
  {
    0x80 <= b <= 0xBF
  }

  /** How many bytes a character starting with `b` has; 0 when none does. */
  function Width(b: Byte): nat
  {
    if b < 0x80 then 1
    else if 0xC2 <= b <= 0xDF then 2
    else if 0xE0 <= b <= 0xEF then 3
    else if 0xF0 <= b <= 0xF4 then 4
    else 0
  }

  /** The second bytes section 4 of RFC 3629 allows after `first`. */
  predicate Second(first: Byte, b: Byte)
  {
    if first == 0xE0 then 0xA0 <= b <= 0xBF
    else if first == 0xED then 0x80 <= b <= 0x9F
    else if first == 0xF0 then 0x90 <= b <= 0xBF
    else if first == 0xF4 then 0x80 <= b <= 0x8F
    else Tail(b)
  }

  function Code2(a: nat, b: nat): nat
    requires 0xC0 <= a && 0x80 <= b
  {
    (a - 0xC0) * 64 + (b - 0x80)
  }

  function Code3(a: nat, b: nat, c: nat): nat
    requires 0xE0 <= a && 0x80 <= b && 0x80 <= c
  {
    (a - 0xE0) * 4096 + (b - 0x80) * 64 + (c - 0x80)
  }

  function Code4(a: nat, b: nat, c: nat, d: nat): nat
    requires 0xF0 <= a && 0x80 <= b && 0x80 <= c && 0x80 <= d
  {
    (a - 0xF0) * 262144 + (b - 0x80) * 4096 + (c - 0x80) * 64 + (d - 0x80)
  }

  function HeadOf(s: seq<Byte>): (h: Head)
    requires s != []
    ensures h.Char? ==> 1 <= h.length <= 4 && h.length <= |s|
    ensures h.Bad? ==> 1 <= h.length <= 3 && h.length <= |s|
    ensures h.Short? ==> |s| <= 3
  {
    var width := Width(s[0]);
    if width == 0 then Bad(1)
    else if width == 1 then Char(1, s[0])
    else if |s| < 2 then Short
    else if !Second(s[0], s[1]) then Bad(1)
    else if width == 2 then Char(2, Code2(s[0], s[1]))
    else if |s| < 3 then Short
    else if !Tail(s[2]) then Bad(2)
    else if width == 3 then Char(3, Code3(s[0], s[1], s[2]))
    else if |s| < 4 then Short
    else if !Tail(s[3]) then Bad(3)
    else Char(4, Code4(s[0], s[1], s[2], s[3]))
  }

  lemma By64(c: nat, p: nat, q: nat)
    requires q < 64 && c == p * 64 + q
    ensures c / 64 == p && c % 64 == q
  {
  }

  lemma By4096(c: nat, p: nat, q: nat)
    requires q < 4096 && c == p * 4096 + q
    ensures c / 4096 == p
  {
  }

  lemma By262144(c: nat, p: nat, q: nat)
    requires q < 262144 && c == p * 262144 + q
    ensures c / 262144 == p
  {
  }

  /** The bytes of a character, from the base-64 digits that spell it. */
  lemma Encode2(c: nat, p: nat, q: nat)
    requires q < 64 && c == p * 64 + q && 0x80 <= c < 0x800
    ensures Encode(c) == [0xC0 + p, 0x80 + q]
  {
    By64(c, p, q);
  }

  lemma Encode3(c: nat, p: nat, q: nat, r: nat)
    requires q < 64 && r < 64 && c == p * 4096 + q * 64 + r && 0x800 <= c < 0x10000 && IsScalar(c)
    ensures Encode(c) == [0xE0 + p, 0x80 + q, 0x80 + r]
  {
    By64(c, p * 64 + q, r);
    By64(p * 64 + q, p, q);
    By4096(c, p, q * 64 + r);
  }

  lemma Encode4(c: nat, p: nat, q: nat, r: nat, t: nat)
    requires q < 64 && r < 64 && t < 64 && c == p * 262144 + q * 4096 + r * 64 + t && 0x10000 <= c < 0x110000
    ensures Encode(c) == [0xF0 + p, 0x80 + q, 0x80 + r, 0x80 + t]
  {
    By64(c, p * 4096 + q * 64 + r, t);
    By64(p * 4096 + q * 64 + r, p * 64 + q, r);
    By4096(c, p * 64 + q, r * 64 + t);
    By64(p * 64 + q, p, q);
    By262144(c, p, q * 4096 + r * 64 + t);
  }

  lemma Head2(p: nat, q: nat, rest: seq<Byte>)
    requires 2 <= p < 32 && q < 64
    ensures HeadOf([0xC0 + p, 0x80 + q] + rest) == Char(2, p * 64 + q)
  {
    var s: seq<Byte> := [0xC0 + p, 0x80 + q] + rest;
    assert s[0] == 0xC0 + p && s[1] == 0x80 + q;
  }

  lemma Head3(p: nat, q: nat, r: nat, rest: seq<Byte>)
    requires p < 16 && q < 64 && r < 64 && (p == 0 ==> 32 <= q) && (p == 13 ==> q < 32)
    ensures HeadOf([0xE0 + p, 0x80 + q, 0x80 + r] + rest) == Char(3, p * 4096 + q * 64 + r)
  {
    var s: seq<Byte> := [0xE0 + p, 0x80 + q, 0x80 + r] + rest;
    assert s[0] == 0xE0 + p && s[1] == 0x80 + q && s[2] == 0x80 + r;
  }

  lemma Head4(p: nat, q: nat, r: nat, t: nat, rest: seq<Byte>)
    requires p < 5 && q < 64 && r < 64 && t < 64 && (p == 0 ==> 16 <= q) && (p == 4 ==> q < 16)
    ensures HeadOf([0xF0 + p, 0x80 + q, 0x80 + r, 0x80 + t] + rest) == Char(4, p * 262144 + q * 4096 + r * 64 + t)
  {
    var s: seq<Byte> := [0xF0 + p, 0x80 + q, 0x80 + r, 0x80 + t] + rest;
    assert s[0] == 0xF0 + p && s[1] == 0x80 + q && s[2] == 0x80 + r && s[3] == 0x80 + t;
  }

  /** Every number is spelled by its digits. */
  lemma Spelled(c: nat)
    ensures c == c / 64 * 64 + c % 64
    ensures c / 64 / 64 == c / 4096 && c == c / 4096 * 4096 + c / 64 % 64 * 64 + c % 64
    ensures c / 4096 / 64 == c / 262144
    ensures c == c / 262144 * 262144 + c / 4096 % 64 * 4096 + c / 64 % 64 * 64 + c % 64
  {
  }

  lemma Ranges3(c: nat)
    requires 0x800 <= c < 0x10000 && IsScalar(c)
    ensures c / 4096 < 16 && (c / 4096 == 0 ==> 32 <= c / 64 % 64) && (c / 4096 == 13 ==> c / 64 % 64 < 32)
  {
    Spelled(c);
  }

  lemma Ranges4(c: nat)
    requires 0x10000 <= c < 0x110000
    ensures c / 262144 < 5
    ensures (c / 262144 == 0 ==> 16 <= c / 4096 % 64) && (c / 262144 == 4 ==> c / 4096 % 64 < 16)
  {
    Spelled(c);
  }

  lemma EncodedHead2(c: nat, rest: seq<Byte>)
    requires 0x80 <= c < 0x800
    ensures |Encode(c)| == 2 && HeadOf(Encode(c) + rest) == Char(2, c)
  {
    hide HeadOf;
    Spelled(c);
    Head2(c / 64, c % 64, rest);
  }

  lemma EncodedHead3(c: nat, rest: seq<Byte>)
    requires 0x800 <= c < 0x10000 && IsScalar(c)
    ensures |Encode(c)| == 3 && HeadOf(Encode(c) + rest) == Char(3, c)
  {
    hide HeadOf;
    Spelled(c);
    Ranges3(c);
    Head3(c / 4096, c / 64 % 64, c % 64, rest);
  }

  lemma EncodedHead4(c: nat, rest: seq<Byte>)
    requires 0x10000 <= c < 0x110000
    ensures |Encode(c)| == 4 && HeadOf(Encode(c) + rest) == Char(4, c)
  {
    hide HeadOf;
    Spelled(c);
    Ranges4(c);
    Head4(c / 262144, c / 4096 % 64, c / 64 % 64, c % 64, rest);
  }

  /** A character's bytes are read back as that character. */
  lemma {:induction false} EncodedHead(c: nat, rest: seq<Byte>)
    requires IsScalar(c)
    ensures HeadOf(Encode(c) + rest) == Char(|Encode(c)|, c)
  {
    if c < 0x80 {
      assert (Encode(c) + rest)[0] == c;
    } else {
      hide HeadOf, Encode;
      if c < 0x800 {
        EncodedHead2(c, rest);
      } else if c < 0x10000 {
        EncodedHead3(c, rest);
      } else {
        EncodedHead4(c, rest);
      }
    }
  }

  lemma Encoded2(a: Byte, b: Byte)
    requires Width(a) == 2 && Tail(b)
    ensures 0x80 <= Code2(a, b) < 0x800 && Encode(Code2(a, b)) == [a, b]
  {
    hide Encode;
    Encode2(Code2(a, b), a as nat - 0xC0, b as nat - 0x80);
  }

  lemma Encoded3(a: Byte, b: Byte, c: Byte)
    requires Width(a) == 3 && Second(a, b) && Tail(c)
    ensures 0x800 <= Code3(a, b, c) < 0x10000 && IsScalar(Code3(a, b, c)) && Encode(Code3(a, b, c)) == [a, b, c]
  {
    hide Encode;
    Encode3(Code3(a, b, c), a as nat - 0xE0, b as nat - 0x80, c as nat - 0x80);
  }

  lemma Encoded4(a: Byte, b: Byte, c: Byte, d: Byte)
    requires Width(a) == 4 && Second(a, b) && Tail(c) && Tail(d)
    ensures 0x10000 <= Code4(a, b, c, d) < 0x110000 && Encode(Code4(a, b, c, d)) == [a, b, c, d]
  {
    hide Encode;
    Encode4(Code4(a, b, c, d), a as nat - 0xF0, b as nat - 0x80, c as nat - 0x80, d as nat - 0x80);
  }

  /** Whatever reads as a character is that character's encoding. */
  lemma {:induction false} HeadIsEncoded(s: seq<Byte>)
    requires s != [] && HeadOf(s).Char?
    ensures IsScalar(HeadOf(s).code) && s[..HeadOf(s).length] == Encode(HeadOf(s).code)
  {
    var n := HeadOf(s).length;
    if n == 1 {
      assert s[..1] == [s[0]];
    } else {
      hide Encode, Code2, Code3, Code4;
      if n == 2 {
        Encoded2(s[0], s[1]);
        assert s[..2] == [s[0], s[1]];
      } else if n == 3 {
        Encoded3(s[0], s[1], s[2]);
        assert s[..3] == [s[0], s[1], s[2]];
      } else {
        Encoded4(s[0], s[1], s[2], s[3]);
        assert s[..4] == [s[0], s[1], s[2], s[3]];
      }
    }
  }

  /** Some character's bytes begin with these. */
  ghost predicate CanBegin(s: seq<Byte>)
  {
    exists c: nat :: IsScalar(c) && s <= Encode(c)
  }

  /** The least byte that can come second. */
  function FirstSecond(first: Byte): Byte
  {
    if first == 0xE0 then 0xA0 else if first == 0xF0 then 0x90 else 0x80
  }

  /** What is cut off can be completed. */
  lemma ShortCanBegin(s: seq<Byte>)
    requires s != [] && HeadOf(s).Short?
    ensures CanBegin(s)
  {
    var t := (if |s| == 1 then s + [FirstSecond(s[0])] else s) + [0x80, 0x80];
    assert t[0] == s[0] && t[1] == if |s| == 1 then FirstSecond(s[0]) else s[1];
    assert t[2] == (if |s| > 2 then s[2] else 0x80) && t[3] == 0x80;
    assert HeadOf(t).Char? && |s| <= HeadOf(t).length;
    HeadIsEncoded(t);
    hide HeadOf, Encode;
    assert s == t[..|s|];
    assert s <= t[..HeadOf(t).length];
  }

  /** What is undecodable shows in its bytes and the one after them. */
  lemma BadByPrefix(s: seq<Byte>, t: seq<Byte>, k: nat)
    requires s != [] && HeadOf(s).Bad? && k <= |s| && k <= |t| && (HeadOf(s).length < k || k == |s|)
    requires t[..k] == s[..k]
    ensures t != [] && HeadOf(t) == HeadOf(s)
  {
    assert forall i :: 0 <= i < k ==> t[..k][i] == t[i] && s[..k][i] == s[i];
  }

  /** No character begins with undecodable bytes and the one after them. */
  lemma BadCannotBegin(s: seq<Byte>, k: nat)
    requires s != [] && HeadOf(s).Bad? && k <= |s| && (HeadOf(s).length < k || k == |s|)
    ensures !CanBegin(s[..k])
  {
    forall c: nat | IsScalar(c) ensures !(s[..k] <= Encode(c)) {
      if s[..k] <= Encode(c) {
        hide HeadOf, Encode;
        assert Encode(c) + [] == Encode(c);
        BadByPrefix(s, Encode(c), k);
        EncodedHead(c, []);
        assert false;
      }
    }
  }

  /** Undecodable bytes, if more than one, are the beginning of some character. */
  lemma BadBegins(s: seq<Byte>)
    requires s != [] && HeadOf(s).Bad? && HeadOf(s).length > 1
    ensures CanBegin(s[..HeadOf(s).length])
  {
    var t := s[..HeadOf(s).length];
    assert HeadOf(t).Short?;
    ShortCanBegin(t);
  }

  /**
   What is read first, in terms of the characters' own bytes: a character if and only if the bytes start
   with one; nothing yet if and only if they could all be the beginning of one; and otherwise the longest
   beginning of a character is undecodable, or the first byte if there is none.
   */
  lemma {:induction false} HeadMeans(s: seq<Byte>)
    requires s != []
    ensures forall c: nat :: IsScalar(c) ==> (HeadOf(s) == Char(|Encode(c)|, c) <==> Encode(c) <= s)
    ensures HeadOf(s).Short? ==> CanBegin(s)
    ensures HeadOf(s).Bad? ==>
              var n := HeadOf(s).length;
              (n == 1 || CanBegin(s[..n])) && !CanBegin(s) && forall k :: n < k <= |s| ==> !CanBegin(s[..k])
  {
    forall c: nat | IsScalar(c) ensures HeadOf(s) == Char(|Encode(c)|, c) <==> Encode(c) <= s {
      CharBegins(s, c);
    }
    if HeadOf(s).Short? {
      ShortCanBegin(s);
    } else if HeadOf(s).Bad? {
      hide HeadOf, CanBegin;
      var n := HeadOf(s).length;
      BadCannotBegin(s, |s|);
      assert s[..|s|] == s;
      forall k | n < k <= |s| ensures !CanBegin(s[..k]) {
        BadCannotBegin(s, k);
      }
      if n > 1 {
        BadBegins(s);
      }
    }
  }

  lemma CharBegins(s: seq<Byte>, c: nat)
    requires s != [] && IsScalar(c)
    ensures HeadOf(s) == Char(|Encode(c)|, c) <==> Encode(c) <= s
  {
    hide HeadOf, Encode;
    if HeadOf(s) == Char(|Encode(c)|, c) {
      HeadIsEncoded(s);
    }
    if Encode(c) <= s {
      EncodedHead(c, s[|Encode(c)|..]);
      assert s == Encode(c) + s[|Encode(c)|..];
    }
  }

  /** How far the bytes are valid. */
  function ValidUpTo(s: seq<Byte>): (n: nat)
    ensures n <= |s|
  {
    if s != [] && HeadOf(s).Char? then HeadOf(s).length + ValidUpTo(s[HeadOf(s).length..]) else 0
  }

  predicate IsValid(s: seq<Byte>)
  {
    ValidUpTo(s) == |s|
  }

  /** Valid so far, and what is left could be the beginning of a character. */
  predicate IsCutOff(s: seq<Byte>)
  {
    ValidUpTo(s) < |s| && HeadOf(s[ValidUpTo(s)..]).Short?
  }

  const REPLACEMENT: nat := 0xFFFD

  /** The text, with one replacement character for every part that cannot be decoded. */
  function Lossy(s: seq<Byte>): seq<nat>
  {
    if s == [] then []
    else
      match HeadOf(s)
      case Char(n, code) => [code] + Lossy(s[n..])
      case Bad(n) => [REPLACEMENT] + Lossy(s[n..])
      case Short => [REPLACEMENT]
  }

  /** The valid byte strings are exactly the encodings of texts, and decoding gives the text back. */
  lemma {:induction false} ValidIsEncoded(s: seq<Byte>)
    requires IsValid(s)
    ensures AllScalar(Lossy(s)) && EncodeAll(Lossy(s)) == s
  {
    hide HeadOf, Encode, IsValid, Lossy;
    if s != [] {
      FirstValid(s);
      var n := HeadOf(s).length;
      ValidIsEncoded(s[n..]);
      EncodedCons(HeadOf(s).code, Lossy(s[n..]));
      assert s == s[..n] + s[n..];
    } else {
      NothingLossy();
    }
  }

  lemma FirstValid(s: seq<Byte>)
    requires IsValid(s) && s != []
    ensures HeadOf(s).Char? && IsScalar(HeadOf(s).code)
    ensures var n := HeadOf(s).length;
            s[..n] == Encode(HeadOf(s).code) && IsValid(s[n..]) && Lossy(s) == [HeadOf(s).code] + Lossy(s[n..])
  {
    hide HeadOf, Encode;
    HeadIsEncoded(s);
  }

  lemma EncodedCons(first: nat, rest: seq<nat>)
    requires IsScalar(first) && AllScalar(rest)
    ensures AllScalar([first] + rest) && EncodeAll([first] + rest) == Encode(first) + EncodeAll(rest)
  {
    hide Encode;
    assert ([first] + rest)[1..] == rest;
  }

  lemma {:induction false} EncodedIsValid(text: seq<nat>)
    requires AllScalar(text)
    ensures IsValid(EncodeAll(text)) && Lossy(EncodeAll(text)) == text
  {
    if text != [] {
      var s, n := EncodeAll(text), |Encode(text[0])|;
      EncodedHead(text[0], EncodeAll(text[1..]));
      EncodedIsValid(text[1..]);
      assert s[n..] == EncodeAll(text[1..]);
    }
  }

  // ---------------------------------------------------------------------------------------------
  // Splitting
  // ---------------------------------------------------------------------------------------------

  /** More bytes change what a string starts with only when it was too short to tell. */
  lemma HeadExtends(s: seq<Byte>, t: seq<Byte>)
    requires s != [] && !HeadOf(s).Short?
    ensures HeadOf(s + t) == HeadOf(s)
  {
    assert forall i :: 0 <= i < |s| ==> (s + t)[i] == s[i];
  }

  lemma {:induction false} ValidPrefix(s: seq<Byte>)
    ensures IsValid(s[..ValidUpTo(s)])
  {
    hide HeadOf, Encode;
    var n := ValidUpTo(s);
    if s != [] && HeadOf(s).Char? {
      var m := HeadOf(s).length;
      HeadIsEncoded(s);
      EncodedHead(HeadOf(s).code, s[m..n]);
      assert s[..n] == s[..m] + s[m..n];
      ValidPrefix(s[m..]);
      assert s[..n][m..] == s[m..][..n - m];
    }
  }

  lemma NothingValid()
    ensures ValidUpTo([]) == 0 && Lossy([]) == []
  {
  }

  lemma FirstRead(s: seq<Byte>)
    requires s != [] && HeadOf(s).Char?
    ensures var head := HeadOf(s);
            && ValidUpTo(s) == head.length + ValidUpTo(s[head.length..])
            && Lossy(s) == [head.code] + Lossy(s[head.length..])
  {
    hide HeadOf;
  }

  /** After a valid part, validity and text go on as if the rest stood alone. */
  lemma {:induction false} AfterValid(s: seq<Byte>, t: seq<Byte>)
    requires IsValid(s)
    ensures ValidUpTo(s + t) == |s| + ValidUpTo(t)
    ensures Lossy(s + t) == Lossy(s) + Lossy(t)
  {
    hide HeadOf, IsValid, ValidUpTo, Lossy;
    if s == [] {
      NothingValid();
      assert s + t == t;
    } else {
      FirstValid(s);
      var n := HeadOf(s).length;
      HeadExtends(s, t);
      FirstRead(s + t);
      assert (s + t)[n..] == s[n..] + t;
      AfterValid(s[n..], t);
    }
  }

  /** The beginning of a valid string is valid or only cut off. */
  lemma {:induction false} BeginningOfValid(s: seq<Byte>, t: seq<Byte>)
    requires IsValid(s + t)
    ensures IsValid(s) || IsCutOff(s)
  {
    hide HeadOf, Lossy;
    var n := ValidUpTo(s);
    ValidPrefix(s);
    var rest := s[n..];
    assert s + t == s[..n] + (rest + t);
    AfterValid(s[..n], rest + t);
    assert s == s[..n] + rest;
    AfterValid(s[..n], rest);
    if rest != [] && !HeadOf(rest).Short? {
      HeadExtends(rest, t);
    }
  }

  // ---------------------------------------------------------------------------------------------
  // The reader
  // ---------------------------------------------------------------------------------------------

  function Join<T>(parts: seq<seq<T>>): seq<T>
  {
    if parts == [] then [] else Join(parts[..|parts| - 1]) + parts[|parts| - 1]
  }

  lemma JoinSnoc<T>(parts: seq<seq<T>>, part: seq<T>)
    ensures Join(parts + [part]) == Join(parts) + part
  {
  }

  /** The text handed on for some bytes. */
  predicate Decoded(chunks: seq<seq<nat>>, pieces: seq<seq<Byte>>)
  {
    |chunks| == |pieces| && forall i :: 0 <= i < |pieces| ==> chunks[i] == Lossy(pieces[i])
  }

  predicate AllValid(pieces: seq<seq<Byte>>)
  {
    forall i :: 0 <= i < |pieces| ==> IsValid(pieces[i])
  }

  /** How many of the pending bytes are handed on: all of them once there is something undecodable. */
  function Usable(pending: seq<Byte>): (n: nat)
    ensures n <= |pending|
  {
    if IsCutOff(pending) then ValidUpTo(pending) else |pending|
  }

  /** What is held back after some reads. */
  function Pending(blocks: seq<seq<Byte>>): seq<Byte>
  {
    if blocks == [] then []
    else
      var pending := Pending(blocks[..|blocks| - 1]) + blocks[|blocks| - 1];
      pending[Usable(pending)..]
  }

  /** What was handed on during some reads, piece by piece. */
  function HandedOn(blocks: seq<seq<Byte>>): seq<seq<Byte>>
  {
    if blocks == [] then []
    else
      var pending := Pending(blocks[..|blocks| - 1]) + blocks[|blocks| - 1];
      HandedOn(blocks[..|blocks| - 1]) + (if Usable(pending) == 0 then [] else [pending[..Usable(pending)]])
  }

  /** All the pieces of a stream: at its end what is held back is handed on too. */
  function Pieces(blocks: seq<seq<Byte>>): seq<seq<Byte>>
  {
    HandedOn(blocks) + (if Pending(blocks) == [] then [] else [Pending(blocks)])
  }

  /** No read brings nothing: that ends the stream. */
  predicate AllFull(blocks: seq<seq<Byte>>)
  {
    forall i :: 0 <= i < |blocks| ==> blocks[i] != []
  }

  lemma PendingSnoc(blocks: seq<seq<Byte>>, i: nat)
    requires i < |blocks|
    ensures var pending := Pending(blocks[..i]) + blocks[i];
            && Pending(blocks[..i + 1]) == pending[Usable(pending)..]
            && HandedOn(blocks[..i + 1]) ==
                 HandedOn(blocks[..i]) + (if Usable(pending) == 0 then [] else [pending[..Usable(pending)]])
  {
    hide Usable;
    assert blocks[..i + 1][..i] == blocks[..i];
  }

  lemma Start()
    ensures Pending([]) == [] && HandedOn([]) == []
    ensures Join<Byte>([]) == [] && Join<nat>([]) == []
  {
  }

  /**
   `read_stream`. `blocks` are the bytes of the reads before the end of the stream or an error; the
   pieces behind the chunks are determined by them.
   */
  method ReadStream(blocks: seq<seq<Byte>>) returns (all: seq<nat>, chunks: seq<seq<nat>>)
    requires AllFull(blocks)
    ensures all == Join(chunks) && Decoded(chunks, Pieces(blocks))
    ensures Join(Pieces(blocks)) == Join(blocks) && [] !in Pieces(blocks)
    ensures forall i :: 0 <= i <= |blocks| ==> |Pending(blocks[..i])| <= 3
    ensures IsValid(Join(blocks)) ==> AllValid(Pieces(blocks))
    ensures all == Lossy(Join(blocks)) <==> NeverResumes(blocks)
    ensures IsValid(Join(blocks)) ==> NeverResumes(blocks)
  {
    hide Lossy, Usable, Pending, HandedOn, Join, NeverResumes, IsValid;
    all, chunks := [], [];
    var pending := [];
    Start();
    assert blocks[..0] == [];
    for i := 0 to |blocks|
      invariant all == Join(chunks) && Decoded(chunks, HandedOn(blocks[..i])) && pending == Pending(blocks[..i])
    {
      PendingSnoc(blocks, i);
      pending := pending + blocks[i];
      var usable := Usable(pending);
      if usable > 0 {
        var chunk := Lossy(pending[..usable]);
        JoinSnoc(chunks, chunk);
        chunks := chunks + [chunk];
        all := all + chunk;
        pending := pending[usable..];
      } else {
        assert pending[0..] == pending;
      }
    }
    assert blocks[..|blocks|] == blocks;
    if pending != [] {
      var chunk := Lossy(pending);
      JoinSnoc(chunks, chunk);
      chunks := chunks + [chunk];
      all := all + chunk;
    }
    StreamRead(blocks, chunks);
  }

  /** What may be held back: nothing, or the beginning of a character. */
  predicate Held(pending: seq<Byte>)
  {
    pending == [] || HeadOf(pending).Short?
  }

  lemma KeptBack(pending: seq<Byte>)
    ensures Held(pending[Usable(pending)..]) && |pending[Usable(pending)..]| <= 3
  {
    hide HeadOf;
  }

  /** At most the beginning of one character is held back. */
  lemma {:induction false} HeldBack(blocks: seq<seq<Byte>>)
    ensures Held(Pending(blocks)) && |Pending(blocks)| <= 3
  {
    hide Usable;
    if blocks != [] {
      KeptBack(Pending(blocks[..|blocks| - 1]) + blocks[|blocks| - 1]);
    }
  }

  lemma NextBytes(before: seq<seq<Byte>>, held: seq<Byte>, block: seq<Byte>, n: nat)
    requires n <= |held + block|
    ensures var pending := held + block;
            Join(before + (if n == 0 then [] else [pending[..n]])) + pending[n..] == Join(before) + held + block
  {
    hide Join;
    var pending := held + block;
    if n == 0 {
      assert before + [] == before && pending[0..] == pending;
    } else {
      JoinSnoc(before, pending[..n]);
      assert pending[..n] + pending[n..] == pending;
    }
  }

  lemma LastBlock(blocks: seq<seq<Byte>>)
    requires blocks != []
    ensures var m := |blocks| - 1;
            var pending := Pending(blocks[..m]) + blocks[m];
            && Pending(blocks) == pending[Usable(pending)..]
            && HandedOn(blocks) ==
                 HandedOn(blocks[..m]) + (if Usable(pending) == 0 then [] else [pending[..Usable(pending)]])
            && Join(blocks) == Join(blocks[..m]) + blocks[m]
  {
    hide Usable;
  }

  /** No byte is lost or repeated. */
  lemma {:induction false} BytesSoFar(blocks: seq<seq<Byte>>)
    requires AllFull(blocks)
    ensures Join(HandedOn(blocks)) + Pending(blocks) == Join(blocks) && [] !in HandedOn(blocks)
  {
    hide Usable, HandedOn, Pending, Join;
    if blocks == [] {
      Start();
    } else {
      var m := |blocks| - 1;
      BytesSoFar(blocks[..m]);
      LastBlock(blocks);
      var held := Pending(blocks[..m]);
      NextBytes(HandedOn(blocks[..m]), held, blocks[m], Usable(held + blocks[m]));
    }
  }

  lemma {:induction false} BytesKept(blocks: seq<seq<Byte>>)
    requires AllFull(blocks)
    ensures Join(Pieces(blocks)) == Join(blocks) && [] !in Pieces(blocks)
  {
    hide HandedOn, Pending, Join;
    BytesSoFar(blocks);
    if Pending(blocks) == [] {
      assert HandedOn(blocks) + [] == HandedOn(blocks);
      assert Join(HandedOn(blocks)) + [] == Join(HandedOn(blocks));
    } else {
      JoinSnoc(HandedOn(blocks), Pending(blocks));
    }
  }

  lemma {:induction false} JoinSplits(parts: seq<seq<Byte>>, i: nat)
    requires i <= |parts|
    ensures Join(parts) == Join(parts[..i]) + Join(parts[i..])
  {
    if i == |parts| {
      assert parts[..i] == parts && parts[i..] == [];
    } else {
      var m := |parts| - 1;
      JoinSplits(parts[..m], i);
      assert parts[..m][..i] == parts[..i] && parts[..m][i..] == parts[i..][..m - i];
    }
  }

  /** Valid pieces make a valid whole, and their texts its text. */
  lemma {:induction false} ValidPieces(pieces: seq<seq<Byte>>, chunks: seq<seq<nat>>)
    requires AllValid(pieces) && Decoded(chunks, pieces)
    ensures IsValid(Join(pieces)) && Join(chunks) == Lossy(Join(pieces))
  {
    if pieces != [] {
      var m := |pieces| - 1;
      ValidPieces(pieces[..m], chunks[..m]);
      AfterValid(Join(pieces[..m]), pieces[m]);
    }
  }

  lemma {:induction false} JoinIsValid(pieces: seq<seq<Byte>>)
    requires AllValid(pieces)
    ensures IsValid(Join(pieces))
  {
    ValidPieces(pieces, seq(|pieces|, i requires 0 <= i < |pieces| => Lossy(pieces[i])));
  }

  /** In a valid stream every piece is valid, and nothing is left over. */
  lemma {:induction false} ValidStream(blocks: seq<seq<Byte>>, future: seq<Byte>)
    requires AllFull(blocks) && IsValid(Join(blocks) + future)
    ensures AllValid(HandedOn(blocks))
    ensures future == [] ==> Pending(blocks) == []
  {
    hide HeadOf, Usable, IsValid, HandedOn, Pending, Join, Held;
    if blocks == [] {
      Start();
    } else {
      var m := |blocks| - 1;
      LastBlock(blocks);
      var before, held := HandedOn(blocks[..m]), Pending(blocks[..m]);
      assert Join(blocks) + future == Join(blocks[..m]) + (blocks[m] + future);
      ValidStream(blocks[..m], blocks[m] + future);
      BytesSoFar(blocks[..m]);
      assert Join(blocks) + future == Join(before) + (held + blocks[m] + future);
      StepValid(before, held + blocks[m], future);
    }
    if future == [] {
      BytesSoFar(blocks);
      HeldBack(blocks);
      assert Join(blocks) + [] == Join(blocks);
      LastValid(HandedOn(blocks), Pending(blocks));
    }
  }

  /** In a valid stream what is handed on is valid. */
  lemma {:induction false} StepValid(pieces: seq<seq<Byte>>, pending: seq<Byte>, future: seq<Byte>)
    requires AllValid(pieces) && IsValid(Join(pieces) + (pending + future))
    ensures IsValid(pending[..Usable(pending)])
  {
    hide HeadOf;
    JoinIsValid(pieces);
    AfterValid(Join(pieces), pending + future);
    BeginningOfValid(pending, future);
    ValidPrefix(pending);
    assert pending[..|pending|] == pending;
  }

  /** A valid stream leaves nothing over. */
  lemma {:induction false} LastValid(pieces: seq<seq<Byte>>, pending: seq<Byte>)
    requires AllValid(pieces) && IsValid(Join(pieces) + pending) && Held(pending)
    ensures pending == []
  {
    hide HeadOf;
    JoinIsValid(pieces);
    AfterValid(Join(pieces), pending);
  }

  // ---------------------------------------------------------------------------------------------
  // Streams that are not valid
  // ---------------------------------------------------------------------------------------------

  /** The beginning of a character the bytes end with, if they do. */
  function OpenEnd(s: seq<Byte>): (t: seq<Byte>)
    ensures t != [] ==> HeadOf(t).Short?
  {
    if s == [] then []
    else
      match HeadOf(s)
      case Char(n, _) => OpenEnd(s[n..])
      case Bad(n) => OpenEnd(s[n..])
      case Short => s
  }

  /** Handing on `a` before `b` cuts a character that goes on in `b`. */
  predicate Cuts(a: seq<Byte>, b: seq<Byte>)
  {
    OpenEnd(a) != [] && b != [] && HeadOf(OpenEnd(a) + b) != Bad(|OpenEnd(a)|)
  }

  /** Continuation bytes on their own are undecodable one by one. */
  lemma {:induction false} TailsAlone(b: seq<Byte>, m: nat)
    requires m <= |b| && forall i :: 0 <= i < m ==> Tail(b[i])
    ensures |Lossy(b)| == m + |Lossy(b[m..])|
  {
    if m == 0 {
      assert b[0..] == b;
    } else {
      assert HeadOf(b) == Bad(1);
      TailsAlone(b[1..], m - 1);
      assert b[1..][m - 1..] == b[m..];
    }
  }

  /** How a cut-off character goes on: with bytes that could not start anything. */
  lemma GoesOn(t: seq<Byte>, b: seq<Byte>)
    requires t != [] && b != [] && HeadOf(t).Short?
    ensures var h := HeadOf(t + b);
            && (h.Char? || h.Bad? ==> |t| <= h.length && forall i :: 0 <= i < h.length - |t| ==> Tail(b[i]))
            && (h.Char? ==> |t| < h.length)
            && (h.Short? ==> forall i :: 0 <= i < |b| ==> Tail(b[i]))
  {
    var s := t + b;
    assert forall i :: 0 <= i < |t| ==> s[i] == t[i];
    assert forall i :: 0 <= i < |b| ==> s[|t| + i] == b[i];
  }

  /** Decoding in two parts gives the same text if and only if no character is cut, and else a longer one. */
  lemma {:induction false} SplitText(a: seq<Byte>, b: seq<Byte>)
    ensures !Cuts(a, b) ==> Lossy(a + b) == Lossy(a) + Lossy(b)
    ensures Cuts(a, b) ==> |Lossy(a + b)| < |Lossy(a)| + |Lossy(b)|
  {
    hide HeadOf, Lossy, OpenEnd;
    if a == [] {
      assert a + b == b;
      NothingLossy();
    } else if HeadOf(a).Short? {
      SplitOpen(a, b);
    } else {
      var n := HeadOf(a).length;
      var c := if HeadOf(a).Char? then HeadOf(a).code else REPLACEMENT;
      HeadExtends(a, b);
      assert (a + b)[n..] == a[n..] + b;
      FirstDecoded(a);
      FirstDecoded(a + b);
      SplitText(a[n..], b);
      assert [c] + (Lossy(a[n..]) + Lossy(b)) == Lossy(a) + Lossy(b);
    }
  }

  lemma FirstDecoded(s: seq<Byte>)
    requires s != [] && !HeadOf(s).Short?
    ensures var c := if HeadOf(s).Char? then HeadOf(s).code else REPLACEMENT;
            Lossy(s) == [c] + Lossy(s[HeadOf(s).length..])
    ensures OpenEnd(s) == OpenEnd(s[HeadOf(s).length..])
  {
    hide HeadOf;
  }

  lemma {:induction false} SplitOpen(t: seq<Byte>, b: seq<Byte>)
    requires t != [] && HeadOf(t).Short?
    ensures !Cuts(t, b) ==> Lossy(t + b) == Lossy(t) + Lossy(b)
    ensures Cuts(t, b) ==> |Lossy(t + b)| < |Lossy(t)| + |Lossy(b)|
  {
    if b == [] {
      assert t + b == t;
    } else {
      GoesOn(t, b);
      var h := HeadOf(t + b);
      if h.Short? {
        TailsAlone(b, |b|);
      } else {
        assert (t + b)[h.length..] == b[h.length - |t|..];
        TailsAlone(b, h.length - |t|);
        assert b[0..] == b;
      }
    }
  }

  /** The text of whole pieces. */
  function Texts(pieces: seq<seq<Byte>>): seq<nat>
  {
    if pieces == [] then [] else Texts(pieces[..|pieces| - 1]) + Lossy(pieces[|pieces| - 1])
  }

  lemma {:induction false} ChunksAreTexts(chunks: seq<seq<nat>>, pieces: seq<seq<Byte>>)
    requires Decoded(chunks, pieces)
    ensures Join(chunks) == Texts(pieces)
  {
    if pieces != [] {
      ChunksAreTexts(chunks[..|pieces| - 1], pieces[..|pieces| - 1]);
    }
  }

  /** No piece cuts a character of what was handed on so far and it together. */
  predicate NothingCut(pieces: seq<seq<Byte>>)
  {
    forall k :: 0 <= k < |pieces| ==> !Cuts(Join(pieces[..k]), pieces[k])
  }

  lemma {:induction false} WholeText(pieces: seq<seq<Byte>>)
    ensures NothingCut(pieces) ==> Texts(pieces) == Lossy(Join(pieces))
    ensures !NothingCut(pieces) ==> |Lossy(Join(pieces))| < |Texts(pieces)|
  {
    hide Lossy, Cuts, NothingCut, Texts, Join;
    if pieces == [] {
      NothingWhole();
    } else {
      var m := |pieces| - 1;
      WholeText(pieces[..m]);
      SplitText(Join(pieces[..m]), pieces[m]);
      LastPiece(pieces);
      NothingCutSnoc(pieces[..m], pieces[m]);
      assert pieces == pieces[..m] + [pieces[m]];
    }
  }

  lemma NothingWhole()
    ensures NothingCut([]) && Texts([]) == [] && Lossy(Join<Byte>([])) == []
  {
  }

  lemma LastPiece(pieces: seq<seq<Byte>>)
    requires pieces != []
    ensures var m := |pieces| - 1;
            && Texts(pieces) == Texts(pieces[..m]) + Lossy(pieces[m])
            && Join(pieces) == Join(pieces[..m]) + pieces[m]
  {
    hide Lossy;
  }

  lemma NothingLossy()
    ensures Lossy([]) == [] && OpenEnd([]) == []
  {
  }

  /**
   No read goes on with a character that the bytes before it end with, while nothing is held back:
   then those bytes have been handed on already.
   */
  predicate NeverResumes(blocks: seq<seq<Byte>>)
  {
    forall i :: 0 <= i < |blocks| && Pending(blocks[..i]) == [] ==> !Cuts(Join(blocks[..i]), blocks[i])
  }

  /** Whether a character goes on shows in the next byte. */
  lemma CutsByFirst(a: seq<Byte>, b: seq<Byte>, c: seq<Byte>)
    requires b != [] && c != [] && b[0] == c[0]
    ensures Cuts(a, b) == Cuts(a, c)
  {
    var t := OpenEnd(a);
    hide OpenEnd;
    if t != [] {
      RejectedByFirst(t, b);
      RejectedByFirst(t, c);
      hide HeadOf;
      assert [b[0]] == [c[0]];
    }
  }

  lemma RejectedByFirst(t: seq<Byte>, b: seq<Byte>)
    requires t != [] && b != [] && HeadOf(t).Short?
    ensures HeadOf(t + b) == Bad(|t|) <==> HeadOf(t + [b[0]]) == Bad(|t|)
  {
    var s, u := t + b, t + [b[0]];
    assert s[|t|] == b[0] == u[|t|];
    assert forall i :: 0 <= i < |t| ==> s[i] == t[i] && u[i] == t[i];
  }

  /** What starts a character never goes on with another one. */
  lemma StartsAnew(a: seq<Byte>, b: seq<Byte>)
    requires b != [] && HeadOf(b).Short?
    ensures !Cuts(a, b)
  {
    var t := OpenEnd(a);
    hide OpenEnd;
    if t != [] {
      var s := t + b;
      assert s[|t|] == b[0] && forall i :: 0 <= i < |t| ==> s[i] == t[i];
    }
  }

  /** A first piece that starts with what was held back cuts nothing; with nothing held back it starts with the read. */
  lemma {:induction false} HandedOnCuts(blocks: seq<seq<Byte>>)
    requires AllFull(blocks)
    ensures NothingCut(HandedOn(blocks)) <==> NeverResumes(blocks)
  {
    hide Usable, Cuts, HeadOf, Join, HandedOn, Pending, NothingCut, NeverResumes, Held;
    if blocks == [] {
      Start();
      NothingToCut(blocks);
    } else {
      var m := |blocks| - 1;
      HandedOnCuts(blocks[..m]);
      LastBlock(blocks);
      BytesSoFar(blocks[..m]);
      HeldBack(blocks[..m]);
      NeverResumesSnoc(blocks);
      var before, held := HandedOn(blocks[..m]), Pending(blocks[..m]);
      var pending := held + blocks[m];
      NewPieceCuts(held, blocks[m], Join(before));
      if held == [] {
        assert Join(before) == Join(blocks[..m]) by {
          assert Join(before) + [] == Join(before);
        }
      }
      if Usable(pending) > 0 {
        NothingCutSnoc(before, pending[..Usable(pending)]);
      } else {
        assert before + [] == before;
      }
    }
  }

  lemma NothingToCut(blocks: seq<seq<Byte>>)
    requires blocks == []
    ensures NothingCut(HandedOn(blocks)) && NeverResumes(blocks)
  {
  }

  lemma NeverResumesSnoc(blocks: seq<seq<Byte>>)
    requires blocks != []
    ensures var m := |blocks| - 1;
            NeverResumes(blocks) <==>
              NeverResumes(blocks[..m]) && (Pending(blocks[..m]) == [] ==> !Cuts(Join(blocks[..m]), blocks[m]))
  {
    hide Pending, Cuts, Join;
    var m := |blocks| - 1;
    assert forall i :: 0 <= i < m ==> blocks[..m][..i] == blocks[..i];
  }

  lemma NothingCutSnoc(pieces: seq<seq<Byte>>, piece: seq<Byte>)
    ensures NothingCut(pieces + [piece]) <==> NothingCut(pieces) && !Cuts(Join(pieces), piece)
  {
    hide Cuts, Join;
    var longer := pieces + [piece];
    assert longer[..|pieces|] == pieces;
    assert forall k :: 0 <= k < |pieces| ==> longer[..k] == pieces[..k];
  }

  /** The next piece, after the bytes `a` were handed on and `held` was not. */
  lemma NewPieceCuts(held: seq<Byte>, block: seq<Byte>, a: seq<Byte>)
    requires Held(held) && block != []
    ensures var pending := held + block;
            && (Usable(pending) > 0 ==>
                  (Cuts(a, pending[..Usable(pending)]) <==> held == [] && Cuts(a, block)))
            && (Usable(pending) == 0 && held == [] ==> !Cuts(a, block))
  {
    hide Cuts, HeadOf;
    var pending := held + block;
    KeptBack(pending);
    if held == [] {
      assert pending == block && pending[0..] == pending;
    }
    if Usable(pending) > 0 {
      var piece := pending[..Usable(pending)];
      assert piece[0] == pending[0];
      if held == [] {
        CutsByFirst(a, piece, block);
      } else {
        assert piece[0] == held[0];
        CutsByFirst(a, piece, held);
        StartsAnew(a, held);
      }
    } else if held == [] {
      StartsAnew(a, block);
    }
  }

  /**
   Whatever the bytes and however they are read, the text read is that of the whole stream if and only
   if no read goes on with a character that has been handed on already; otherwise it is longer.
   */
  lemma {:induction false} TextIsWhole(blocks: seq<seq<Byte>>, chunks: seq<seq<nat>>)
    requires AllFull(blocks) && Decoded(chunks, Pieces(blocks))
    ensures Join(chunks) == Lossy(Join(blocks)) <==> NeverResumes(blocks)
    ensures |Lossy(Join(blocks))| <= |Join(chunks)|
  {
    hide Lossy, Cuts, Usable, HeadOf, Join, Texts, HandedOn, Pending;
    HandedOnCuts(blocks);
    HeldBack(blocks);
    BytesSoFar(blocks);
    BytesKept(blocks);
    if Pending(blocks) != [] {
      NothingCutSnoc(HandedOn(blocks), Pending(blocks));
      StartsAnew(Join(HandedOn(blocks)), Pending(blocks));
    } else {
      assert HandedOn(blocks) + [] == HandedOn(blocks);
    }
    ChunksAreTexts(chunks, Pieces(blocks));
    WholeText(Pieces(blocks));
  }

  /** What `ReadStream` promises of the pieces. */
  lemma {:induction false} StreamRead(blocks: seq<seq<Byte>>, chunks: seq<seq<nat>>)
    requires AllFull(blocks) && Decoded(chunks, Pieces(blocks))
    ensures Join(Pieces(blocks)) == Join(blocks) && [] !in Pieces(blocks)
    ensures forall i :: 0 <= i <= |blocks| ==> |Pending(blocks[..i])| <= 3
    ensures IsValid(Join(blocks)) ==> AllValid(Pieces(blocks))
    ensures Join(chunks) == Lossy(Join(blocks)) <==> NeverResumes(blocks)
    ensures IsValid(Join(blocks)) ==> NeverResumes(blocks)
  {
    hide Lossy, Cuts, Usable, HeadOf, Join, HandedOn, Pending, NeverResumes, IsValid;
    BytesKept(blocks);
    forall i | 0 <= i <= |blocks| ensures |Pending(blocks[..i])| <= 3 {
      HeldBack(blocks[..i]);
    }
    TextIsWhole(blocks, chunks);
    if IsValid(Join(blocks)) {
      assert Join(blocks) + [] == Join(blocks);
      ValidStream(blocks, []);
      assert HandedOn(blocks) + [] == HandedOn(blocks);
      ValidPieces(Pieces(blocks), chunks);
    }
  }

  /** The reads of the example: an undecodable byte and the beginning of a character, then its end. */
  function CutReads(): seq<seq<Byte>>
  {
    [[0xFF, 0xE2], [0x82, 0xAC]]
  }

  lemma CutUsable()
    ensures Usable([0xFF, 0xE2]) == 2 && Usable([0x82, 0xAC]) == 2
  {
    var a: seq<Byte> := [0xFF, 0xE2];
    var b: seq<Byte> := [0x82, 0xAC];
    assert HeadOf(a) == Bad(1) && HeadOf(b) == Bad(1);
    hide HeadOf;
    assert ValidUpTo(a) == 0 && a[0..] == a;
    assert ValidUpTo(b) == 0 && b[0..] == b;
  }

  lemma CutTexts()
    ensures Lossy([0xFF, 0xE2]) == [0xFFFD, 0xFFFD] && Lossy([0x82, 0xAC]) == [0xFFFD, 0xFFFD]
  {
    var a: seq<Byte> := [0xFF, 0xE2];
    var b: seq<Byte> := [0x82, 0xAC];
    assert a[1..] == [0xE2] && b[1..] == [0xAC] && b[1..][1..] == [];
  }

  lemma JoinedText()
    ensures Lossy([0xFF, 0xE2, 0x82, 0xAC]) == [0xFFFD, 0x20AC]
  {
    var c: seq<Byte> := [0xFF, 0xE2, 0x82, 0xAC];
    assert c[1..] == [0xE2, 0x82, 0xAC] && c[1..][3..] == [];
  }

  lemma CutPieces()
    ensures Pieces(CutReads()) == CutReads() && Join(CutReads()) == [0xFF, 0xE2, 0x82, 0xAC]
  {
    hide Usable;
    CutUsable();
    var a: seq<Byte> := [0xFF, 0xE2];
    var b: seq<Byte> := [0x82, 0xAC];
    var parts := CutReads();
    var first := parts[..1];
    assert first == [a] && first[..0] == [];
    LastBlock(first);
    LastBlock(parts);
    Start();
    hide Pending, HandedOn, Join;
    assert [] + a == a && [] + b == b && a[2..] == [] && b[2..] == [] && a[..2] == a && b[..2] == b;
    assert Pending(first) == [] && HandedOn(first) == [a] && Join(first) == a;
    assert Pending(parts) == [] && HandedOn(parts) == [a] + [b] && Join(parts) == a + b;
  }

  /** The reader loses the character: an undecodable byte made it hand on the beginning alone. */
  method ReadCutExample() returns (text: seq<nat>)
    ensures text == [0xFFFD, 0xFFFD, 0xFFFD, 0xFFFD]
    ensures Lossy(Join(CutReads())) == [0xFFFD, 0x20AC] && !NeverResumes(CutReads())
  {
    hide Lossy, Pieces, NeverResumes, Join;
    CutPieces();
    CutTexts();
    JoinedText();
    var chunks;
    text, chunks := ReadStream(CutReads());
    TwoJoined(chunks);
  }

  lemma TwoJoined(chunks: seq<seq<nat>>)
    requires |chunks| == 2
    ensures Join(chunks) == chunks[0] + chunks[1]
  {
    var first := chunks[..1];
    assert first[..0] == [] && first == [chunks[0]];
    assert Join(first) == [] + chunks[0];
  }
}
