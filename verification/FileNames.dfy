/** mail/device.go: the splitting of a percent-encoded file name into parts of a header parameter (sections 3 and 4.1 of
    RFC 2231, section 2.1 of RFC 3986). */
module FileNames {
  import opened InfoSet

  const LIMIT := 74
  const CHARSET := "UTF-8''"

  type Byte = b: int | 0 <= b < 256

  // ---------------------------------------------------------------------------------- UTF-8

  function Utf8(c: char): (bs: seq<Byte>)
    ensures 1 <= |bs| <= 4
  {
    var n := c as int;
    if n < 0x80 then [n]
    else if n < 0x800 then [0xC0 + n / 64, 0x80 + n % 64]
    else if n < 0x10000 then [0xE0 + n / 4096, 0x80 + n / 64 % 64, 0x80 + n % 64]
    else [0xF0 + n / 262144, 0x80 + n / 4096 % 64, 0x80 + n / 64 % 64, 0x80 + n % 64]
  }

  predicate IsScalar(n: int) {
    0 <= n < 0xD800 || 0xE000 <= n < 0x110000
  }

  /** The length of a sequence by its first byte. */
  function Span(b: Byte): nat {
    if b < 0x80 then 1 else if b < 0xE0 then 2 else if b < 0xF0 then 3 else 4
  }

  function Value(bs: seq<Byte>): int
    requires 1 <= |bs| <= 4
  {
    var b0: int := bs[0];
    if |bs| == 1 then b0
    else if |bs| == 2 then (b0 - 0xC0) * 64 + Tail(bs[1])
    else if |bs| == 3 then (b0 - 0xE0) * 4096 + Tail(bs[1]) * 64 + Tail(bs[2])
    else (b0 - 0xF0) * 262144 + Tail(bs[1]) * 4096 + Tail(bs[2]) * 64 + Tail(bs[3])
  }

  /** The six bits of a continuation byte. */
  function Tail(b: int): int { b - 0x80 }

  function FromUtf8(bs: seq<Byte>): Option<string> {
    if bs == [] then Some("")
    else
      var n := Span(bs[0]);
      if n > |bs| || !IsScalar(Value(bs[..n])) then None
      else
        match FromUtf8(bs[n..])
        case None => None
        case Some(rest) => Some([Value(bs[..n]) as char] + rest)
  }

  /** The bytes of a character (section 3 of RFC 3629): as few as its code needs, the first one with the length in its
      high bits, each other one with six bits of the code, the high ones first. */
  lemma Utf8Is(c: char)
    ensures var n, bs: seq<int> := c as int, Utf8(c);
            && (n < 0x80 ==> bs == [n])
            && (0x80 <= n < 0x800 ==>
               |bs| == 2 && 0xC2 <= bs[0] < 0xE0 && 0x80 <= bs[1] < 0xC0 && n == 64 * (bs[0] - 0xC0) + bs[1] - 0x80)
            && (0x800 <= n < 0x1_0000 ==>
               |bs| == 3 && 0xE0 <= bs[0] < 0xF0 && 0x80 <= bs[1] < 0xC0 && 0x80 <= bs[2] < 0xC0
               && n == 64 * (64 * (bs[0] - 0xE0) + bs[1] - 0x80) + bs[2] - 0x80)
            && (0x1_0000 <= n ==>
               |bs| == 4 && 0xF0 <= bs[0] < 0xF5 && (forall k :: 1 <= k < 4 ==> 0x80 <= bs[k] < 0xC0)
               && n == 64 * (64 * (64 * (bs[0] - 0xF0) + bs[1] - 0x80) + bs[2] - 0x80) + bs[3] - 0x80)
  {
    var n := c as int;
    assert n / 4096 == n / 64 / 64 && n / 262144 == n / 64 / 64 / 64;
  }

  lemma Utf8Value(c: char)
    ensures Span(Utf8(c)[0]) == |Utf8(c)| && Value(Utf8(c)) == c as int
  {
    var n := c as int;
    assert n / 4096 == n / 64 / 64 && n / 262144 == n / 64 / 64 / 64;
  }

  // ---------------------------------------------------------------------------------- percent-encoding

  predicate Alphanumeric(c: char) {
    'a' <= c <= 'z' || 'A' <= c <= 'Z' || '0' <= c <= '9'
  }

  /** The characters that url.PathEscape leaves alone: letters, digits, unreserved marks, and of the reserved ones those
      that have no meaning in a path segment. */
  predicate Plain(c: char) {
    Alphanumeric(c) || c in "-_.~" || (c in "$&+,/:;=?@" && c !in "/;,?")
  }

  function Hex(d: int): (c: char)
    requires 0 <= d < 16
    ensures c != '%'
  {
    "0123456789ABCDEF"[d]
  }

  function Unhex(c: char): Option<int> {
    if '0' <= c <= '9' then Some(c as int - '0' as int)
    else if 'A' <= c <= 'F' then Some(c as int - 'A' as int + 10)
    else None
  }

  lemma HexUnhex(d: int)
    requires 0 <= d < 16
    ensures Unhex(Hex(d)) == Some(d)
  {
  }

  function Escaped(bs: seq<Byte>): (s: string)
    ensures |s| == 3 * |bs|
  {
    if bs == [] then "" else ['%', Hex(bs[0] / 16), Hex(bs[0] % 16)] + Escaped(bs[1..])
  }

  /** Each byte is a percent sign and its two upper-case hexadecimal digits, the high one first. */
  lemma {:induction false} EscapedIs(bs: seq<Byte>, j: nat)
    requires j < |bs|
    ensures Escaped(bs)[3 * j] == '%'
    ensures Escaped(bs)[3 * j + 1] == "0123456789ABCDEF"[bs[j] / 16]
    ensures Escaped(bs)[3 * j + 2] == "0123456789ABCDEF"[bs[j] % 16]
    decreases j
  {
    if j > 0 {
      EscapedIs(bs[1..], j - 1);
      var s, t := Escaped(bs), Escaped(bs[1..]);
      assert s[3 * j] == t[3 * (j - 1)] && s[3 * j + 1] == t[3 * (j - 1) + 1] && s[3 * j + 2] == t[3 * (j - 1) + 2];
    }
  }

  /** url.PathEscape of one character. */
  function Encode(c: char): (s: string)
    ensures 1 <= |s| <= 12
  {
    if Plain(c) then [c] else Escaped(Utf8(c))
  }

  function EncodeAll(name: string): string {
    if name == "" then "" else Encode(name[0]) + EncodeAll(name[1..])
  }

  function Unescape(s: string): Option<seq<Byte>> {
    if s == "" then Some([])
    else if s[0] != '%' then
      if s[0] as int >= 128 then None
      else
        match Unescape(s[1..])
        case None => None
        case Some(rest) => Some([s[0] as int] + rest)
    else if |s| < 3 || Unhex(s[1]).None? || Unhex(s[2]).None? then None
    else
      match Unescape(s[3..])
      case None => None
      case Some(rest) => Some([Unhex(s[1]).value * 16 + Unhex(s[2]).value] + rest)
  }

  /** What a reader of the header does: undo the escapes, then decode UTF-8. */
  function Decode(s: string): Option<string> {
    match Unescape(s)
    case None => None
    case Some(bs) => FromUtf8(bs)
  }

  lemma {:induction false} UnescapeEscaped(bs: seq<Byte>, rest: string)
    requires Unescape(rest).Some?
    ensures Unescape(Escaped(bs) + rest) == Some(bs + Unescape(rest).value)
    decreases |bs|
  {
    hide Hex, Unhex, Unescape, Escaped;
    if bs == [] {
      EscapedNone(rest);
      assert bs + Unescape(rest).value == Unescape(rest).value;
    } else {
      EscapedCons(bs, rest);
      UnescapeEscaped(bs[1..], rest);
      UnescapeByte(bs[0], Escaped(bs[1..]) + rest);
      assert [bs[0]] + (bs[1..] + Unescape(rest).value) == bs + Unescape(rest).value;
    }
  }

  lemma UnescapeByte(b: Byte, rest: string)
    requires Unescape(rest).Some?
    ensures Unescape(['%', Hex(b / 16), Hex(b % 16)] + rest) == Some([b] + Unescape(rest).value)
  {
    hide Hex, Unhex, Unescape;
    HexUnhex(b / 16);
    HexUnhex(b % 16);
    UnescapeOne(Hex(b / 16), Hex(b % 16), rest);
    assert b / 16 * 16 + b % 16 == b;
  }

  lemma EscapedNone(rest: string)
    ensures Escaped([]) + rest == rest
  {
  }

  lemma EscapedCons(bs: seq<Byte>, rest: string)
    requires bs != []
    ensures Escaped(bs) + rest == ['%', Hex(bs[0] / 16), Hex(bs[0] % 16)] + (Escaped(bs[1..]) + rest)
  {
    hide Hex;
  }

  lemma UnescapeOne(h: char, l: char, rest: string)
    requires Unhex(h).Some? && Unhex(l).Some? && Unescape(rest).Some?
    ensures Unescape(['%', h, l] + rest) == Some([Unhex(h).value * 16 + Unhex(l).value] + Unescape(rest).value)
  {
    hide Unhex;
    var s := ['%', h, l] + rest;
    assert s[0] == '%' && s[1] == h && s[2] == l && s[3..] == rest;
  }

  lemma UnescapeEncode(c: char, rest: string)
    requires Unescape(rest).Some?
    ensures Unescape(Encode(c) + rest) == Some(Utf8(c) + Unescape(rest).value)
  {
    if Plain(c) {
      assert (Encode(c) + rest)[1..] == rest;
    } else {
      UnescapeEscaped(Utf8(c), rest);
    }
  }

  lemma FromUtf8Cons(c: char, rest: seq<Byte>)
    requires FromUtf8(rest).Some?
    ensures FromUtf8(Utf8(c) + rest) == Some([c] + FromUtf8(rest).value)
  {
    var bs := Utf8(c) + rest;
    Utf8Value(c);
    assert bs[..|Utf8(c)|] == Utf8(c) && bs[|Utf8(c)|..] == rest;
  }

  /** Decoding what was encoded gives the name back, for every name. */
  lemma {:induction false} DecodeEncode(name: string)
    ensures Unescape(EncodeAll(name)).Some? && Decode(EncodeAll(name)) == Some(name)
  {
    if name != "" {
      hide Utf8, FromUtf8, Unescape, Encode;
      DecodeEncode(name[1..]);
      UnescapeEncode(name[0], EncodeAll(name[1..]));
      FromUtf8Cons(name[0], Unescape(EncodeAll(name[1..])).value);
      assert name == [name[0]] + name[1..];
    }
  }

  // ---------------------------------------------------------------------------------- what a name is written as

  /** The characters that stand for themselves. */
  predicate Itself(c: char) {
    'a' <= c <= 'z' || 'A' <= c <= 'Z' || '0' <= c <= '9' || c in "-_.~$&+:=@"
  }

  /** Escapes, each a percent sign and two upper-case hexadecimal digits. */
  predicate Escapes(s: string) {
    |s| % 3 == 0 && forall k :: 0 <= k < |s| ==> if k % 3 == 0 then s[k] == '%' else s[k] in "0123456789ABCDEF"
  }

  /** The first `n` characters of `s` stand for `c`. */
  predicate Starts(c: char, s: string, n: nat) {
    n <= |s| && if Itself(c) then n == 1 && s[0] == c else Escapes(s[..n]) && Decode(s[..n]) == Some([c])
  }

  /** `s` is the text that stands for `name`, character by character. */
  ghost predicate Spells(name: string, s: string) {
    if name == "" then s == "" else exists n: nat :: Starts(name[0], s, n) && Spells(name[1..], s[n..])
  }

  /** Every character may stand in the value of a header parameter (section 7 of RFC 2231): it stands for itself, or is
      a percent sign with two upper-case hexadecimal digits behind it. */
  predicate SafeText(s: string) {
    forall k :: 0 <= k < |s| ==> SafeAt(s, k)
  }

  predicate SafeAt(s: string, k: nat)
    requires k < |s|
  {
    Itself(s[k]) || (s[k] == '%' && k + 2 < |s| && s[k + 1] in "0123456789ABCDEF" && s[k + 2] in "0123456789ABCDEF")
  }

  lemma {:induction false} EscapedEscapes(bs: seq<Byte>)
    ensures Escapes(Escaped(bs))
    decreases |bs|
  {
    if bs != [] {
      var s, t := Escaped(bs), Escaped(bs[1..]);
      EscapedEscapes(bs[1..]);
      forall k | 3 <= k < |s| ensures s[k] == t[k - 3] && k % 3 == (k - 3) % 3 {}
    }
  }

  lemma EncodeStarts(c: char, rest: string)
    ensures Starts(c, Encode(c) + rest, |Encode(c)|) && (Encode(c) + rest)[|Encode(c)|..] == rest
  {
    hide Decode, Escapes, Utf8, Unescape;
    var s := Encode(c) + rest;
    assert s[..|Encode(c)|] == Encode(c);
    if !Itself(c) {
      EscapedEscapes(Utf8(c));
      DecodeEncode([c]);
      assert EncodeAll([c]) == Encode(c) by { EncodeOne(c); }
    }
  }

  lemma EncodeOne(c: char)
    ensures EncodeAll([c]) == Encode(c)
  {
    hide Encode;
    assert [c][1..] == "" && Encode(c) + "" == Encode(c);
  }

  /** A name is written as the text that stands for it, whatever it is. */
  lemma {:induction false} EncodeSpells(name: string)
    ensures Spells(name, EncodeAll(name))
  {
    if name != "" {
      hide Encode, Starts, Spells;
      EncodeSpells(name[1..]);
      EncodeStarts(name[0], EncodeAll(name[1..]));
      SpellsCons(name, EncodeAll(name), |Encode(name[0])|);
    } else {
      assert Spells("", "");
    }
  }

  lemma SpellsCons(name: string, s: string, n: nat)
    requires name != "" && Starts(name[0], s, n) && Spells(name[1..], s[n..])
    ensures Spells(name, s)
  {
  }

  /** Such a text is safe. */
  lemma {:induction false} SpellsSafe(name: string, s: string)
    requires Spells(name, s)
    ensures SafeText(s)
    decreases |name|
  {
    if name != "" {
      hide Starts, SafeAt;
      var n: nat :| Starts(name[0], s, n) && Spells(name[1..], s[n..]);
      SpellsSafe(name[1..], s[n..]);
      StartSafe(name[0], s, n);
      forall k | 0 <= k < |s| ensures SafeAt(s, k) {
        if k >= n {
          assert SafeAt(s[n..], k - n);
          SafeLater(s, n, k);
        }
      }
    }
  }

  lemma StartSafe(c: char, s: string, n: nat)
    requires Starts(c, s, n)
    ensures n <= |s| && forall k :: 0 <= k < n ==> SafeAt(s, k)
  {
    hide Decode;
    if !Itself(c) {
      var e := s[..n];
      forall k | 0 <= k < n ensures SafeAt(s, k) {
        assert s[k] == e[k];
        if k % 3 == 0 {
          assert e[k + 1] == s[k + 1] && e[k + 2] == s[k + 2];
        }
      }
    }
  }

  lemma SafeLater(s: string, n: nat, k: nat)
    requires n <= k < |s| && SafeAt(s[n..], k - n)
    ensures SafeAt(s, k)
  {
  }

  // ---------------------------------------------------------------------------------- parts

  function Flatten(parts: seq<string>): string {
    if parts == [] then "" else Flatten(parts[..|parts| - 1]) + parts[|parts| - 1]
  }

  /** How long the encoding of the first `n` characters is. */
  function Width(name: string, n: nat): nat
    requires n <= |name|
  {
    if n == 0 then 0 else Width(name, n - 1) + |Encode(name[n - 1])|
  }

  /** Cutting the name at these places gives parts that fit, the first one with the charset in front. */
  ghost predicate Fits(name: string, cuts: seq<nat>) {
    && |cuts| >= 2 && cuts[0] == 0 && cuts[|cuts| - 1] == |name|
    && (forall j :: 0 <= j < |cuts| ==> cuts[j] <= |name|)
    && forall j :: 0 < j < |cuts| ==> FitsAt(name, cuts, j)
  }

  predicate FitsAt(name: string, cuts: seq<nat>, j: int)
    requires 0 < j < |cuts| && cuts[j] <= |name| && cuts[j - 1] <= |name|
  {
    cuts[j - 1] <= cuts[j] && Width(name, cuts[j]) - Width(name, cuts[j - 1]) <= Room(j)
  }

  /** The room in the `j`th part. */
  function Room(j: int): int { if j == 1 then 67 else 74 }

  /** No part but the last has room for one more character. */
  predicate FullAt(name: string, cuts: seq<nat>, j: int)
    requires 0 < j < |cuts| - 1 && cuts[j] <= |name| && cuts[j - 1] <= |name|
  {
    cuts[j] < |name| && Width(name, cuts[j] + 1) - Width(name, cuts[j - 1]) > Room(j)
  }

  ghost predicate Full(name: string, cuts: seq<nat>)
    requires Fits(name, cuts)
  {
    forall j :: 0 < j < |cuts| - 1 ==> FullAt(name, cuts, j)
  }

  lemma {:induction false} WidthMonotone(name: string, a: nat, b: nat)
    requires a <= b <= |name|
    ensures Width(name, a) <= Width(name, b)
    decreases b
  {
    hide Encode;
    if a < b { WidthMonotone(name, a, b - 1); }
  }

  /** Cutting late stays ahead of every other way of cutting. */
  lemma {:induction false} Ahead(name: string, cuts: seq<nat>, other: seq<nat>, j: nat)
    requires Fits(name, cuts) && Full(name, cuts) && Fits(name, other) && j < |cuts| && j < |other|
    ensures j < |cuts| - 1 ==> other[j] <= cuts[j]
  {
    hide Width, Encode;
    if j > 0 && j < |cuts| - 1 {
      Ahead(name, cuts, other, j - 1);
      assert FullAt(name, cuts, j) && FitsAt(name, other, j);
      if other[j] > cuts[j] {
        WidthMonotone(name, cuts[j] + 1, other[j]);
        WidthMonotone(name, other[j - 1], cuts[j - 1]);
      }
    }
  }

  /** No way of cutting the name between characters needs fewer parts. */
  lemma FewestParts(name: string, cuts: seq<nat>, other: seq<nat>)
    requires Fits(name, cuts) && Full(name, cuts) && Fits(name, other)
    ensures |cuts| <= |other|
  {
    var j := |other| - 1;
    if j < |cuts| - 1 {
      NotLast(name, cuts, j);
      Ahead(name, cuts, other, j);
    }
  }

  lemma NotLast(name: string, cuts: seq<nat>, j: nat)
    requires Fits(name, cuts) && Full(name, cuts) && 0 < j < |cuts| - 1
    ensures cuts[j] < |name|
  {
    assert FullAt(name, cuts, j);
  }

  /** The parts that cuts give. */
  ghost predicate CutParts(name: string, cuts: seq<nat>, parts: seq<string>) {
    && |cuts| == |parts| + 1
    && forall j :: 0 < j < |cuts| ==> CutPart(name, cuts, parts, j)
  }

  predicate CutPart(name: string, cuts: seq<nat>, parts: seq<string>, j: int) {
    0 < j < |cuts| && j <= |parts| && cuts[j - 1] <= cuts[j] <= |name|
    && parts[j - 1] == (if j == 1 then CHARSET else "") + EncodeAll(name[cuts[j - 1]..cuts[j]])
  }

  lemma {:induction false} EncodeSnoc(name: string, c: char)
    ensures EncodeAll(name + [c]) == EncodeAll(name) + Encode(c)
  {
    if name == "" {
      assert [c][1..] == "";
      assert EncodeAll([c]) == Encode(c) + "";
    } else {
      assert (name + [c])[1..] == name[1..] + [c];
      EncodeSnoc(name[1..], c);
    }
  }

  lemma {:induction false} WidthIs(name: string, a: nat, b: nat)
    requires a <= b <= |name|
    ensures |EncodeAll(name[a..b])| == Width(name, b) - Width(name, a)
    decreases b
  {
    hide Encode, EncodeAll;
    if a == b {
      NoName(name, a);
    } else {
      assert name[a..b] == name[a..b - 1] + [name[b - 1]];
      EncodeSnoc(name[a..b - 1], name[b - 1]);
      WidthIs(name, a, b - 1);
    }
  }

  lemma SliceSnoc(name: string, a: nat, n: nat)
    requires a <= n < |name|
    ensures EncodeAll(name[a..n + 1]) == EncodeAll(name[a..n]) + Encode(name[n])
  {
    assert name[a..n + 1] == name[a..n] + [name[n]];
    EncodeSnoc(name[a..n], name[n]);
  }

  lemma NoName(name: string, a: nat)
    requires a <= |name|
    ensures EncodeAll(name[a..a]) == ""
  {
    assert name[a..a] == "";
  }

  lemma FlattenSnoc(parts: seq<string>, part: string)
    ensures Flatten(parts + [part]) == Flatten(parts) + part
  {
    assert (parts + [part])[..|parts|] == parts;
  }

  /** The parts so far, of which none has room for the next character, and the one being filled. */
  ghost predicate Filling(name: string, n: nat, cuts: seq<nat>, parts: seq<string>, part: string) {
    && n <= |name| && |cuts| == |parts| + 1 && cuts[0] == 0 && cuts[|parts|] <= n
    && (forall j :: 0 < j < |cuts| ==> DoneAt(name, n, cuts, parts, j))
    && part == (if parts == [] then CHARSET else "") + EncodeAll(name[cuts[|parts|]..n])
    && |part| <= LIMIT
    && Flatten(parts) + part == CHARSET + EncodeAll(name[0..n])
  }

  predicate DoneAt(name: string, n: nat, cuts: seq<nat>, parts: seq<string>, j: int)
    requires n <= |name|
  {
    && 0 < j < |cuts| && CutPart(name, cuts, parts, j) && cuts[j] <= n && cuts[j] < |name| && |parts[j - 1]| <= LIMIT
    && Width(name, cuts[j]) - Width(name, cuts[j - 1]) <= Room(j)
    && Width(name, cuts[j] + 1) - Width(name, cuts[j - 1]) > Room(j)
  }

  lemma FillStart(name: string)
    ensures Filling(name, 0, [0], [], CHARSET)
  {
    NoName(name, 0);
  }

  lemma FillMore(name: string, n: nat, cuts: seq<nat>, parts: seq<string>, part: string)
    requires Filling(name, n, cuts, parts, part) && n < |name| && |part| + |Encode(name[n])| <= LIMIT
    ensures Filling(name, n + 1, cuts, parts, part + Encode(name[n]))
  {
    hide Encode, EncodeAll, Width, Flatten, CutPart;
    var m, e := n + 1, Encode(name[n]);
    SliceSnoc(name, cuts[|parts|], n);
    SliceSnoc(name, 0, n);
    assert Flatten(parts) + (part + e) == (Flatten(parts) + part) + e;
    assert CHARSET + EncodeAll(name[0..n]) + e == CHARSET + EncodeAll(name[0..m]);
    var head := if parts == [] then CHARSET else "";
    assert (head + EncodeAll(name[cuts[|parts|]..n])) + e == head + EncodeAll(name[cuts[|parts|]..m]);
    forall j | 0 < j < |cuts| ensures DoneAt(name, m, cuts, parts, j) { assert DoneAt(name, n, cuts, parts, j); }
  }

  /** The part being filled is done: what it holds, and that the next character would not fit. */
  lemma PartDone(name: string, n: nat, cuts: seq<nat>, parts: seq<string>, part: string)
    requires Filling(name, n, cuts, parts, part)
    ensures var c, p, j := cuts + [n], parts + [part], |cuts|;
            && CutPart(name, c, p, j) && Width(name, n) - Width(name, cuts[|parts|]) <= Room(j)
            && (n < |name| && |part| + |Encode(name[n])| > LIMIT ==>
               Width(name, n + 1) - Width(name, cuts[|parts|]) > Room(j))
    ensures Flatten(parts + [part]) == CHARSET + EncodeAll(name[0..n])
  {
    hide Encode, EncodeAll, Flatten;
    WidthIs(name, cuts[|parts|], n);
    FlattenSnoc(parts, part);
  }

  lemma FillNext(name: string, n: nat, cuts: seq<nat>, parts: seq<string>, part: string)
    requires Filling(name, n, cuts, parts, part) && n < |name| && |part| + |Encode(name[n])| > LIMIT
    ensures Filling(name, n + 1, cuts + [n], parts + [part], Encode(name[n]))
  {
    hide Encode, EncodeAll, Width, Flatten;
    var m, c, p := n + 1, cuts + [n], parts + [part];
    PartDone(name, n, cuts, parts, part);
    forall j | 0 < j < |c| ensures DoneAt(name, m, c, p, j) {
      if j < |cuts| { assert DoneAt(name, n, cuts, parts, j); }
    }
    NoName(name, n);
    SliceSnoc(name, n, n);
    SliceSnoc(name, 0, n);
    assert CHARSET + EncodeAll(name[0..n]) + Encode(name[n]) == CHARSET + EncodeAll(name[0..m]);
  }

  /** What the parts promise once the last one is added. */
  lemma FillEnd(name: string, cuts: seq<nat>, parts: seq<string>, part: string)
    requires Filling(name, |name|, cuts, parts, part)
    ensures var c, p := cuts + [|name|], parts + [part];
            && Fits(name, c) && Full(name, c) && CutParts(name, c, p) && Flatten(p) == CHARSET + EncodeAll(name)
            && forall j :: 0 <= j < |p| ==> |p[j]| <= LIMIT
  {
    hide Encode, EncodeAll, Width, Flatten, Filling, CutPart, FitsAt, FullAt;
    var c, p := cuts + [|name|], parts + [part];
    EndWhole(name, cuts, parts, part);
    forall j | 0 < j < |c| ensures CutPart(name, c, p, j) { EndAt(name, cuts, parts, part, j); }
    forall k | 0 <= k < |c| ensures c[k] <= |name| { if k > 0 { EndAt(name, cuts, parts, part, k); } }
    forall j | 0 < j < |c| ensures FitsAt(name, c, j) { EndAt(name, cuts, parts, part, j); }
    forall j | 0 < j < |c| - 1 ensures FullAt(name, c, j) { EndAt(name, cuts, parts, part, j); }
    forall k | 0 <= k < |p| ensures |p[k]| <= LIMIT { EndAt(name, cuts, parts, part, k + 1); }
  }

  lemma EndWhole(name: string, cuts: seq<nat>, parts: seq<string>, part: string)
    requires Filling(name, |name|, cuts, parts, part)
    ensures |cuts| == |parts| + 1 && cuts[0] == 0 && Flatten(parts + [part]) == CHARSET + EncodeAll(name)
  {
    hide Encode, EncodeAll, Width, Flatten;
    PartDone(name, |name|, cuts, parts, part);
    assert name[0..|name|] == name;
  }

  lemma EndAt(name: string, cuts: seq<nat>, parts: seq<string>, part: string, j: nat)
    requires Filling(name, |name|, cuts, parts, part) && 0 < j <= |cuts|
    ensures var c, p := cuts + [|name|], parts + [part];
            && CutPart(name, c, p, j) && c[j] <= |name| && c[j - 1] <= |name| && FitsAt(name, c, j)
               && |p[j - 1]| <= LIMIT
            && (j < |c| - 1 ==> FullAt(name, c, j))
  {
    hide Encode, EncodeAll, Width, Flatten;
    PartDone(name, |name|, cuts, parts, part);
    if j < |cuts| { assert DoneAt(name, |name|, cuts, parts, j); }
  }

  /** The `j`th part, behind the charset in the first one, stands for the characters between its cuts. */
  ghost predicate PartSpells(name: string, cuts: seq<nat>, parts: seq<string>, j: int)
    requires 0 < j < |cuts| && |cuts| == |parts| + 1
  {
    var head := if j == 1 then "UTF-8''" else "";
    && cuts[j - 1] <= cuts[j] <= |name| && |parts[j - 1]| <= 74 && head <= parts[j - 1]
    && SafeText(parts[j - 1][|head|..]) && Spells(name[cuts[j - 1]..cuts[j]], parts[j - 1][|head|..])
  }

  lemma PartIsSpelt(name: string, cuts: seq<nat>, parts: seq<string>, j: int)
    requires 0 < j < |cuts| && |cuts| == |parts| + 1 && CutPart(name, cuts, parts, j) && |parts[j - 1]| <= LIMIT
    ensures PartSpells(name, cuts, parts, j)
  {
    hide EncodeAll, Spells, SafeText;
    var piece := name[cuts[j - 1]..cuts[j]];
    EncodeSpells(piece);
    SpellsSafe(piece, EncodeAll(piece));
    var head := if j == 1 then CHARSET else "";
    assert parts[j - 1][|head|..] == EncodeAll(piece);
  }

  lemma CutsAre(name: string, cuts: seq<nat>, parts: seq<string>)
    requires Fits(name, cuts) && CutParts(name, cuts, parts)
    ensures |cuts| == |parts| + 1 && cuts[0] == 0 && forall j :: 0 < j < |cuts| ==> CutPart(name, cuts, parts, j)
  {
    hide CutPart, FitsAt;
  }

  /** encodeParts.  The parts are the charset and the encoded name, cut between characters only; each has at most 74
      characters, all of them safe, and there are as few parts as there can be. */
  method EncodeParts(realname: string) returns (parts: seq<string>, ghost cuts: seq<nat>)
    ensures Flatten(parts) == "UTF-8''" + EncodeAll(realname)
    ensures |cuts| == |parts| + 1 && cuts[0] == 0 && cuts[|parts|] == |realname|
    ensures forall j :: 0 < j < |cuts| ==> PartSpells(realname, cuts, parts, j)
    ensures Fits(realname, cuts) && forall other :: Fits(realname, other) ==> |parts| < |other|
  {
    hide Encode, Filling, Flatten, Fits, CutParts, Full, EncodeAll, PartSpells, CutPart;
    var part := CHARSET;
    parts := [];
    cuts := [0];
    FillStart(realname);
    for n := 0 to |realname|
      invariant Filling(realname, n, cuts, parts, part) && |cuts| == |parts| + 1
    {
      var encoded := Encode(realname[n]);
      if |part| + |encoded| > LIMIT {
        FillNext(realname, n, cuts, parts, part);
        parts := parts + [part];
        cuts := cuts + [n];
        part := encoded;
      } else {
        FillMore(realname, n, cuts, parts, part);
        part := part + encoded;
      }
    }
    FillEnd(realname, cuts, parts, part);
    parts := parts + [part];
    cuts := cuts + [|realname|];
    CutsAre(realname, cuts, parts);
    forall j | 0 < j < |cuts| ensures PartSpells(realname, cuts, parts, j) { PartIsSpelt(realname, cuts, parts, j); }
    forall other | Fits(realname, other) ensures |parts| < |other| { FewestParts(realname, cuts, other); }
  }
}
