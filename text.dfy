/** Strings and bytes as Node.js sees them: UTF-8 encoding of strings, the decimal
    rendering of integers, and splitting a string at a separator character. */
module Text {
  import opened Wrappers

  type byte = x: int | 0 <= x < 256

  predicate IsAscii(s: string) {
    forall i :: 0 <= i < |s| ==> s[i] as int < 0x80
  }

  /** `inner` occurs somewhere inside `outer`. */
  ghost predicate IsInfix(inner: string, outer: string) {
    exists i :: OccursAt(inner, outer, i)
  }

  /** `inner` occurs inside `outer` starting at index `i`. */
  predicate OccursAt(inner: string, outer: string, i: int) {
    0 <= i && i + |inner| <= |outer| && outer[i..i + |inner|] == inner
  }

  // ---------------------------------------------------------------------------
  // UTF-8 (what Buffer.from(string), crypto.createHmac and URLSearchParams do to
  // a JavaScript string before they look at its bytes)
  // ---------------------------------------------------------------------------

  /** The UTF-8 encoding of one Unicode scalar value. */
  function Utf8Char(c: char): (r: seq<byte>)
    ensures 1 <= |r| <= 4
    ensures |r| == 1 <==> c as int < 0x80
  {
    var n := c as int;
    if n < 0x80 then [n]
    else if n < 0x800 then [0xC0 + n / 64, 0x80 + n % 64]
    else if n < 0x10000 then [0xE0 + n / 4096, 0x80 + (n / 64) % 64, 0x80 + n % 64]
    else [0xF0 + n / 262144, 0x80 + (n / 4096) % 64, 0x80 + (n / 64) % 64, 0x80 + n % 64]
  }

  function Utf8(s: string): seq<byte> {
    if s == [] then [] else Utf8Char(s[0]) + Utf8(s[1..])
  }

  /** How many bytes a UTF-8 sequence starting with `b` has; 0 if `b` cannot start one. */
  function LeadLength(b: byte): nat {
    if b < 0x80 then 1
    else if 0xC0 <= b < 0xE0 then 2
    else if 0xE0 <= b < 0xF0 then 3
    else if 0xF0 <= b < 0xF8 then 4
    else 0
  }

  predicate IsContinuation(b: byte) {
    0x80 <= b < 0xC0
  }

  predicate IsScalar(n: int) {
    0 <= n < 0xD800 || 0xE000 <= n < 0x110000
  }

  /** Decodes one complete UTF-8 sequence; None for a malformed, overlong or surrogate one. */
  function DecodeUnit(u: seq<byte>): Option<char> {
    if |u| == 1 && u[0] < 0x80 then Some(u[0] as char)
    else if |u| == 2 && LeadLength(u[0]) == 2 && IsContinuation(u[1]) then
      var n := (u[0] as int - 0xC0) * 64 + (u[1] as int - 0x80);
      if 0x80 <= n then Some(n as char) else None
    else if |u| == 3 && LeadLength(u[0]) == 3 && IsContinuation(u[1]) && IsContinuation(u[2]) then
      var n := (u[0] as int - 0xE0) * 4096 + (u[1] as int - 0x80) * 64 + (u[2] as int - 0x80);
      if 0x800 <= n && IsScalar(n) then Some(n as char) else None
    else if |u| == 4 && LeadLength(u[0]) == 4 && IsContinuation(u[1]) && IsContinuation(u[2])
            && IsContinuation(u[3]) then
      var n := (u[0] as int - 0xF0) * 262144 + (u[1] as int - 0x80) * 4096
               + (u[2] as int - 0x80) * 64 + (u[3] as int - 0x80);
      if 0x10000 <= n < 0x110000 then Some(n as char) else None
    else None
  }

  /** Strict UTF-8 decoding; None when the bytes are not well-formed UTF-8. */
  function Utf8Decode(bs: seq<byte>): Option<string>
    decreases |bs|
  {
    if bs == [] then Some([])
    else
      var n := LeadLength(bs[0]);
      if n == 0 || |bs| < n then None
      else
        match DecodeUnit(bs[..n])
        case None => None
        case Some(c) =>
          match Utf8Decode(bs[n..])
          case None => None
          case Some(rest) => Some([c] + rest)
  }

  lemma {:induction false} Utf8CharDecodes(c: char)
    ensures LeadLength(Utf8Char(c)[0]) == |Utf8Char(c)|
    ensures DecodeUnit(Utf8Char(c)) == Some(c)
  {
    var n := c as int;
    if n < 0x80 {
    } else if n < 0x800 {
      TwoByteUnit(n);
    } else if n < 0x10000 {
      ThreeByteUnit(n);
    } else {
      FourByteUnit(n);
    }
  }

  lemma {:induction false} TwoByteUnit(n: int)
    requires 0x80 <= n < 0x800
    ensures 0xC2 <= 0xC0 + n / 64 < 0xE0 && 0x80 <= 0x80 + n % 64 < 0xC0
    ensures (n / 64) * 64 + n % 64 == n
  {
  }

  lemma {:induction false} ThreeByteUnit(n: int)
    requires 0x800 <= n < 0x10000
    ensures 0xE0 <= 0xE0 + n / 4096 < 0xF0
    ensures 0x80 <= 0x80 + (n / 64) % 64 < 0xC0 && 0x80 <= 0x80 + n % 64 < 0xC0
    ensures (n / 4096) * 4096 + ((n / 64) % 64) * 64 + n % 64 == n
  {
    var q := n / 64;
    assert q / 64 == n / 4096;
  }

  lemma {:induction false} FourByteUnit(n: int)
    requires 0x10000 <= n < 0x110000
    ensures 0xF0 <= 0xF0 + n / 262144 < 0xF8
    ensures 0x80 <= 0x80 + (n / 4096) % 64 < 0xC0
    ensures 0x80 <= 0x80 + (n / 64) % 64 < 0xC0 && 0x80 <= 0x80 + n % 64 < 0xC0
    ensures (n / 262144) * 262144 + ((n / 4096) % 64) * 4096 + ((n / 64) % 64) * 64 + n % 64 == n
  {
    var q := n / 64;
    var r := q / 64;
    assert r == n / 4096;
    assert r / 64 == n / 262144;
  }

  /** Decoding undoes encoding: UTF-8 loses nothing of a JavaScript string. */
  lemma {:induction false} Utf8RoundTrip(s: string)
    ensures Utf8Decode(Utf8(s)) == Some(s)
  {
    if s != [] {
      var u := Utf8Char(s[0]);
      Utf8CharDecodes(s[0]);
      Utf8RoundTrip(s[1..]);
      var bs := Utf8(s);
      assert bs == u + Utf8(s[1..]);
      assert bs[..|u|] == u && bs[|u|..] == Utf8(s[1..]);
      assert [s[0]] + s[1..] == s;
    }
  }

  lemma {:induction false} Utf8Append(a: string, b: string)
    ensures Utf8(a + b) == Utf8(a) + Utf8(b)
  {
    if a != [] {
      assert (a + b)[0] == a[0] && (a + b)[1..] == a[1..] + b;
      Utf8Append(a[1..], b);
      calc {
        Utf8(a + b);
        Utf8Char(a[0]) + Utf8(a[1..] + b);
        Utf8Char(a[0]) + (Utf8(a[1..]) + Utf8(b));
        (Utf8Char(a[0]) + Utf8(a[1..])) + Utf8(b);
      }
    } else {
      assert a + b == b;
    }
  }

  /** An ASCII string is encoded byte for byte. */
  lemma {:induction false} Utf8Ascii(s: string)
    requires IsAscii(s)
    ensures |Utf8(s)| == |s|
    ensures forall i :: 0 <= i < |s| ==> Utf8(s)[i] == s[i] as int
  {
    if s != [] {
      Utf8Ascii(s[1..]);
    }
  }

  // ---------------------------------------------------------------------------
  // Decimal rendering of integers (Number.prototype.toString for integral values)
  // ---------------------------------------------------------------------------

  predicate IsDigit(c: char) {
    '0' as int <= c as int <= '9' as int
  }

  function DigitChar(d: int): (c: char)
    requires 0 <= d < 10
    ensures IsDigit(c) && c as int - '0' as int == d
  {
    ('0' as int + d) as char
  }

  function NatToDecimal(n: nat): (s: string)
    ensures |s| >= 1 && forall i :: 0 <= i < |s| ==> IsDigit(s[i])
    ensures s[0] == '0' ==> n == 0
    decreases n
  {
    if n < 10 then [DigitChar(n)] else NatToDecimal(n / 10) + [DigitChar(n % 10)]
  }

  function IntToDecimal(i: int): string {
    if i < 0 then "-" + NatToDecimal(-i) else NatToDecimal(i)
  }

  /** The value of a string of decimal digits. */
  function DigitsValue(s: string): nat
    requires forall i :: 0 <= i < |s| ==> IsDigit(s[i])
  {
    if s == [] then 0
    else
      assert IsDigit(s[|s| - 1]);
      DigitsValue(s[..|s| - 1]) * 10 + (s[|s| - 1] as int - '0' as int)
  }

  /** Reads back what IntToDecimal writes; None for anything else. */
  function ParseInt(s: string): Option<int> {
    if |s| >= 2 && s[0] == '-' && forall i :: 1 <= i < |s| ==> IsDigit(s[i]) then
      var v: int := DigitsValue(s[1..]);
      Some(-v)
    else if |s| >= 1 && forall i :: 0 <= i < |s| ==> IsDigit(s[i]) then
      Some(DigitsValue(s))
    else None
  }

  lemma {:induction false} NatToDecimalValue(n: nat)
    ensures DigitsValue(NatToDecimal(n)) == n
    decreases n
  {
    if n >= 10 {
      NatToDecimalValue(n / 10);
      var s := NatToDecimal(n);
      assert s[..|s| - 1] == NatToDecimal(n / 10);
    }
  }

  /** Two different integers never render the same, and the rendering can be read back. */
  lemma {:induction false} IntToDecimalRoundTrip(i: int)
    ensures ParseInt(IntToDecimal(i)) == Some(i)
  {
    if i < 0 {
      NegativeRoundTrip(-i);
    } else {
      var d := NatToDecimal(i);
      NatToDecimalValue(i);
      assert IsDigit(d[0]);
      assert d[0] != '-';
    }
  }

  lemma {:induction false} NegativeRoundTrip(n: nat)
    requires n > 0
    ensures ParseInt("-" + NatToDecimal(n)) == Some(-(n as int))
  {
    var d := NatToDecimal(n);
    var s := "-" + d;
    NatToDecimalValue(n);
    assert s[0] == '-' && s[1..] == d;
    assert forall k :: 1 <= k < |s| ==> s[k] == d[k - 1];
  }

  // ---------------------------------------------------------------------------
  // Splitting at a separator character
  // ---------------------------------------------------------------------------

  /** The pieces of `s` between occurrences of `sep` (String.prototype.split with a
      one-character separator). */
  function Split(s: string, sep: char): (parts: seq<string>)
    ensures |parts| >= 1
  {
    if s == [] then [""]
    else if s[0] == sep then [""] + Split(s[1..], sep)
    else
      var rest := Split(s[1..], sep);
      [[s[0]] + rest[0]] + rest[1..]
  }

  /** The pieces joined with `sep` between them (Array.prototype.join). */
  function JoinWith(parts: seq<string>, sep: char): string
    requires |parts| >= 1
  {
    if |parts| == 1 then parts[0] else parts[0] + [sep] + JoinWith(parts[1..], sep)
  }

  /** Splitting and joining at the same separator are inverse. */
  lemma {:induction false} SplitJoin(s: string, sep: char)
    ensures JoinWith(Split(s, sep), sep) == s
  {
    if s != [] {
      SplitJoin(s[1..], sep);
      var rest := Split(s[1..], sep);
      if s[0] != sep && |rest| > 1 {
        assert JoinWith(rest, sep) == rest[0] + [sep] + JoinWith(rest[1..], sep);
      }
    }
  }

  lemma {:induction false} SplitNoSep(a: string, sep: char)
    requires sep !in a
    ensures Split(a, sep) == [a]
  {
    if a != [] {
      SplitNoSep(a[1..], sep);
      assert [a[0]] + a[1..] == a;
    }
  }

  /** A separator at the front opens with an empty piece. */
  lemma {:induction false} SplitLeading(sep: char, b: string)
    ensures Split([sep] + b, sep) == [""] + Split(b, sep)
  {
    assert ([sep] + b)[1..] == b;
  }

  /** A piece free of the separator, followed by the separator, splits off whole. */
  lemma {:induction false} SplitCons(a: string, sep: char, b: string)
    requires sep !in a
    ensures Split(a + [sep] + b, sep) == [a] + Split(b, sep)
  {
    if a != [] {
      assert (a + [sep] + b)[1..] == a[1..] + [sep] + b;
      SplitCons(a[1..], sep, b);
      assert [a[0]] + a[1..] == a;
    } else {
      assert (a + [sep] + b)[1..] == b;
    }
  }

  /** Splitting a separator-joined list followed by more text gives the list back first. */
  lemma {:induction false} SplitJoinWith(parts: seq<string>, sep: char, rest: string)
    requires |parts| >= 1
    requires forall i :: 0 <= i < |parts| ==> sep !in parts[i]
    ensures Split(JoinWith(parts, sep) + [sep] + rest, sep) == parts + Split(rest, sep)
  {
    if |parts| == 1 {
      SplitCons(parts[0], sep, rest);
    } else {
      SplitJoinWith(parts[1..], sep, rest);
      JoinStep(parts, sep, rest);
      assert parts == [parts[0]] + parts[1..];
    }
  }

  lemma {:induction false} JoinStep(parts: seq<string>, sep: char, rest: string)
    requires |parts| >= 2 && sep !in parts[0]
    ensures Split(JoinWith(parts, sep) + [sep] + rest, sep)
            == [parts[0]] + Split(JoinWith(parts[1..], sep) + [sep] + rest, sep)
  {
    var tail := JoinWith(parts[1..], sep) + [sep] + rest;
    assert JoinWith(parts, sep) + [sep] + rest == parts[0] + [sep] + tail;
    SplitCons(parts[0], sep, tail);
  }

  lemma {:induction false} InfixExtend(x: string, a: string, b: string, c: string)
    requires IsInfix(x, b)
    ensures IsInfix(x, a + b + c)
  {
    var i :| OccursAt(x, b, i);
    assert (a + b + c)[|a| + i..|a| + i + |x|] == b[i..i + |x|];
    assert OccursAt(x, a + b + c, |a| + i);
  }

  lemma {:induction false} InfixSelf(x: string, a: string, c: string)
    ensures IsInfix(x, a + x + c)
  {
    assert (a + x + c)[|a|..|a| + |x|] == x;
    assert OccursAt(x, a + x + c, |a|);
  }

  /** Every piece of a joined list occurs in the joined string. */
  lemma {:induction false} InfixOfJoinWith(parts: seq<string>, sep: char, i: nat)
    requires i < |parts|
    ensures IsInfix(parts[i], JoinWith(parts, sep))
  {
    if |parts| == 1 {
      InfixSelf(parts[0], "", "");
      assert "" + parts[0] + "" == parts[0];
    } else if i == 0 {
      InfixSelf(parts[0], "", [sep] + JoinWith(parts[1..], sep));
      assert "" + parts[0] + ([sep] + JoinWith(parts[1..], sep)) == JoinWith(parts, sep);
    } else {
      InfixOfJoinWith(parts[1..], sep, i - 1);
      InfixExtend(parts[i], parts[0] + [sep], JoinWith(parts[1..], sep), "");
      assert parts[0] + [sep] + JoinWith(parts[1..], sep) + "" == JoinWith(parts, sep);
    }
  }

  /** Splitting a separator-joined list gives the list back, when no piece holds the separator. */
  lemma {:induction false} SplitJoinWithAll(parts: seq<string>, sep: char)
    requires |parts| >= 1
    requires forall i :: 0 <= i < |parts| ==> sep !in parts[i]
    ensures Split(JoinWith(parts, sep), sep) == parts
  {
    if |parts| == 1 {
      SplitNoSep(parts[0], sep);
    } else {
      SplitJoinWithAll(parts[1..], sep);
      SplitCons(parts[0], sep, JoinWith(parts[1..], sep));
      assert parts == [parts[0]] + parts[1..];
    }
  }

  /** The index of the first `c` in `s`. */
  function IndexOf(s: string, c: char): (r: Option<nat>)
    ensures r.Some? ==> r.value < |s| && s[r.value] == c && c !in s[..r.value]
    ensures r.None? ==> c !in s
  {
    if s == [] then None
    else if s[0] == c then Some(0)
    else
      match IndexOf(s[1..], c)
      case None => None
      case Some(i) =>
        assert s[..i + 1] == [s[0]] + s[1..][..i];
        Some(i + 1)
  }

  lemma {:induction false} IndexOfCons(a: string, c: char, b: string)
    requires c !in a
    ensures IndexOf(a + [c] + b, c) == Some(|a|)
  {
    if a != [] {
      assert (a + [c] + b)[1..] == a[1..] + [c] + b;
      IndexOfCons(a[1..], c, b);
    }
  }
}
