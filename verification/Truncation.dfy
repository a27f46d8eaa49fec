/** Cutting output to a byte limit without breaking a character. */
module Truncation {

  type Byte = b: int | 0 <= b < 256

  type Bytes = seq<Byte>

  // ---- UTF-8 (section 4 of RFC 3629) ----

  predicate IsTail(b: Byte) {
    0x80 <= b <= 0xBF
  }

  /** How long the character is that starts with this byte; 0 if none does. */
  function LengthFrom(b: Byte): nat {
    if b <= 0x7F then 1
    else if 0xC2 <= b <= 0xDF then 2
    else if 0xE0 <= b <= 0xEF then 3
    else if 0xF0 <= b <= 0xF4 then 4
    else 0
  }

  /** The second byte's range is narrower behind some first bytes. */
  predicate SecondByte(first: Byte, second: Byte) {
    && IsTail(second)
    && (first == 0xE0 ==> second >= 0xA0) && (first == 0xED ==> second <= 0x9F)
    && (first == 0xF0 ==> second >= 0x90) && (first == 0xF4 ==> second <= 0x8F)
  }

  /** The length of the character at the start of the bytes; 0 if there is no whole one. */
  function FirstLength(s: Bytes): (n: nat)
    ensures n <= 4 && n <= |s|
  {
    if s == [] then 0
    else
      var n := LengthFrom(s[0]);
      if |s| < n then 0
      else if n >= 2 && !SecondByte(s[0], s[1]) then 0
      else if n >= 3 && !IsTail(s[2]) then 0
      else if n >= 4 && !IsTail(s[3]) then 0
      else n
  }

  predicate ValidString(s: Bytes)
    decreases |s|
  {
    s == [] || (FirstLength(s) > 0 && ValidString(s[FirstLength(s)..]))
  }

  // ---- The same, by code points (section 3 of RFC 3629) ----

  predicate IsCodePoint(c: nat) {
    c < 0xD800 || 0xE000 <= c <= 0x10FFFF
  }

  /** A code point in one to four bytes: the high bits in the first, six bits in each of the others. */
  function Encoded(c: nat): (s: Bytes)
    requires IsCodePoint(c)
    ensures s != []
  {
    if c < 0x80 then [c]
    else if c < 0x800 then [0xC0 + c / 0x40, 0x80 + c % 0x40]
    else if c < 0x1_0000 then [0xE0 + c / 0x1000, 0x80 + c / 0x40 % 0x40, 0x80 + c % 0x40]
    else [0xF0 + c / 0x4_0000, 0x80 + c / 0x1000 % 0x40, 0x80 + c / 0x40 % 0x40, 0x80 + c % 0x40]
  }

  /** What a byte adds to its marking bits. */
  function Bits(b: Byte, mark: nat): int {
    b - mark
  }

  function Decoded(s: Bytes): nat
    requires FirstLength(s) > 0
  {
    match FirstLength(s)
    case 1 => s[0]
    case 2 => Bits(s[0], 0xC0) * 0x40 + Bits(s[1], 0x80)
    case 3 => Bits(s[0], 0xE0) * 0x1000 + Bits(s[1], 0x80) * 0x40 + Bits(s[2], 0x80)
    case _ => Bits(s[0], 0xF0) * 0x4_0000 + Bits(s[1], 0x80) * 0x1000 + Bits(s[2], 0x80) * 0x40 + Bits(s[3], 0x80)
  }

  lemma EncodedLength(c: nat)
    requires IsCodePoint(c)
    ensures FirstLength(Encoded(c)) == |Encoded(c)|
  {
  }

  lemma EncodedIsFirst(c: nat, s: Bytes)
    requires IsCodePoint(c) && Encoded(c) <= s
    ensures FirstLength(s) == |Encoded(c)|
  {
    hide *;
    EncodedLength(c);
    FirstLengthOfLonger(Encoded(c), s[|Encoded(c)|..]);
    assert s == Encoded(c) + s[|Encoded(c)|..];
  }

  /** A number in base 64 has these digits. */
  lemma Digits(n: nat, a: nat, b: nat, c: nat, d: nat)
    requires b < 0x40 && c < 0x40 && d < 0x40 && n == a * 0x4_0000 + b * 0x1000 + c * 0x40 + d
    ensures n / 0x4_0000 == a && n / 0x1000 == a * 0x40 + b && n / 0x40 == a * 0x1000 + b * 0x40 + c
    ensures n / 0x1000 % 0x40 == b && n / 0x40 % 0x40 == c && n % 0x40 == d
  {
  }

  lemma FirstIsEncoded(s: Bytes)
    requires FirstLength(s) > 0
    ensures IsCodePoint(Decoded(s)) && Encoded(Decoded(s)) == s[..FirstLength(s)]
  {
    var n, c := FirstLength(s), Decoded(s);
    if n == 2 {
      Digits(c, 0, 0, Bits(s[0], 0xC0), Bits(s[1], 0x80));
    } else if n == 3 {
      Digits(c, 0, Bits(s[0], 0xE0), Bits(s[1], 0x80), Bits(s[2], 0x80));
    } else if n == 4 {
      Digits(c, Bits(s[0], 0xF0), Bits(s[1], 0x80), Bits(s[2], 0x80), Bits(s[3], 0x80));
    }
  }

  /** Bytes start with a whole character exactly if they start with the encoding of a code point. */
  lemma StartsWithCharacterIff(s: Bytes)
    ensures FirstLength(s) > 0 <==> exists c :: IsCodePoint(c) && Encoded(c) <= s
    ensures FirstLength(s) > 0 ==> Encoded(Decoded(s)) == s[..FirstLength(s)]
  {
    if c :| IsCodePoint(c) && Encoded(c) <= s {
      EncodedIsFirst(c, s);
    }
    if FirstLength(s) > 0 {
      FirstIsEncoded(s);
      assert s[..FirstLength(s)] <= s;
    }
  }

  function EncodedAll(cs: seq<nat>): Bytes
    requires forall i :: 0 <= i < |cs| ==> IsCodePoint(cs[i])
  {
    if cs == [] then [] else Encoded(cs[0]) + EncodedAll(cs[1..])
  }

  ghost predicate Encodes(cs: seq<nat>, s: Bytes) {
    (forall i :: 0 <= i < |cs| ==> IsCodePoint(cs[i])) && EncodedAll(cs) == s
  }

  /** Bytes are valid exactly if they encode some code points. */
  lemma {:induction false} ValidIff(s: Bytes)
    ensures ValidString(s) <==> exists cs :: Encodes(cs, s)
  {
    if ValidString(s) {
      var cs := DecodesAll(s);
    }
    if cs :| Encodes(cs, s) {
      EncodedIsValid(cs);
    }
  }

  lemma {:induction false} DecodesAll(s: Bytes) returns (cs: seq<nat>)
    requires ValidString(s)
    ensures Encodes(cs, s)
    decreases |s|
  {
    hide FirstLength, Encoded, Decoded, IsCodePoint;
    if s == [] {
      cs := [];
    } else {
      var rest := DecodesAll(s[FirstLength(s)..]);
      FirstIsEncoded(s);
      cs := [Decoded(s)] + rest;
      assert cs[1..] == rest;
    }
  }

  lemma {:induction false} EncodedIsValid(cs: seq<nat>)
    requires forall i :: 0 <= i < |cs| ==> IsCodePoint(cs[i])
    ensures ValidString(EncodedAll(cs))
  {
    if cs != [] {
      EncodedIsValid(cs[1..]);
      var s := EncodedAll(cs);
      EncodedIsFirst(cs[0], s);
      assert s[|Encoded(cs[0])|..] == EncodedAll(cs[1..]);
    }
  }

  predicate RuneStart(b: Byte) {
    !IsTail(b)
  }

  lemma FirstLengthOfPrefix(s: Bytes, k: nat)
    requires k <= |s| && FirstLength(s) > 0
    ensures FirstLength(s[..k]) == if FirstLength(s) <= k then FirstLength(s) else 0
    ensures forall i :: 0 < i < FirstLength(s) ==> !RuneStart(s[i])
    ensures RuneStart(s[0])
  {
  }

  /** In valid bytes, a cut is valid exactly at the end or where a character starts. */
  lemma {:induction false} ValidCutIff(s: Bytes, k: nat)
    requires ValidString(s) && k <= |s|
    ensures ValidString(s[..k]) <==> k == |s| || RuneStart(s[k])
    decreases |s|
  {
    if s == [] {
    } else {
      var n := FirstLength(s);
      FirstLengthOfPrefix(s, k);
      if k >= n {
        ValidCutIff(s[n..], k - n);
        assert s[..k][n..] == s[n..][..k - n];
      }
    }
  }

  lemma {:induction false} ValidConcat(s: Bytes, t: Bytes)
    requires ValidString(s) && ValidString(t)
    ensures ValidString(s + t)
    decreases |s|
  {
    hide FirstLength;
    if s == [] {
      assert s + t == t;
    } else {
      var n := FirstLength(s);
      assert (s + t)[..|s|] == s;
      FirstLengthOfLonger(s, t);
      ValidConcat(s[n..], t);
      assert (s + t)[n..] == s[n..] + t;
    }
  }

  lemma FirstLengthOfLonger(s: Bytes, t: Bytes)
    requires FirstLength(s) > 0
    ensures FirstLength(s + t) == FirstLength(s)
  {
  }

  lemma {:induction false} AsciiIsValid(s: Bytes)
    requires forall i :: 0 <= i < |s| ==> s[i] <= 0x7F
    ensures ValidString(s)
  {
    if s != [] {
      AsciiIsValid(s[1..]);
    }
  }

  // ---- The two cuts ----

  const MARKER: Bytes := [0xE2, 0x80, 0xA6]

  /** The marker is the ellipsis character. */
  lemma MarkerIsEllipsis()
    ensures MARKER == Encoded(0x2026)
  {
  }

  lemma MarkerIsValid()
    ensures ValidString(MARKER)
  {
  }

  function Dots(n: nat): Bytes {
    seq(n, _ => 0x2E)
  }

  /** The longest valid prefix of at most `room` bytes. */
  function LongestValid(s: Bytes, room: nat): (p: Bytes)
    requires room <= |s|
    ensures p <= s && |p| <= room && ValidString(p)
    ensures forall k :: |p| < k <= room ==> !ValidString(s[..k])
  {
    if ValidString(s[..room]) then s[..room] else LongestValid(s, room - 1)
  }

  method TruncateUTF8(value: Bytes, limit: int) returns (r: Bytes, cut: bool)
    ensures cut <==> 0 < limit < |value|
    ensures !cut ==> r == value
    ensures cut ==> |r| <= limit && ValidString(r)
    ensures cut && limit < 3 ==> |r| == limit && forall i :: 0 <= i < limit ==> r[i] == '.' as int
    ensures cut && limit >= 3 ==> r == LongestValid(value, limit - 3) + Encoded(0x2026)
  {
    MarkerIsEllipsis();
    if limit <= 0 || |value| <= limit {
      return value, false;
    }
    if limit < |MARKER| {
      AsciiIsValid(Dots(limit));
      return Dots(limit), true;
    }
    var kept := value[..limit - |MARKER|];
    while !ValidString(kept) && |kept| > 0
      invariant |kept| <= limit - |MARKER| && kept == value[..|kept|]
      invariant LongestValid(value, |kept|) == LongestValid(value, limit - |MARKER|)
      decreases |kept|
    {
      kept := kept[..|kept| - 1];
    }
    MarkerIsValid();
    ValidConcat(kept, MARKER);
    return kept + MARKER, true;
  }

  /** The suffix is a line of its own. */
  lemma SuffixSpells()
    ensures var text := "\n[output truncated]";
            |SUFFIX| == |text| && forall i :: 0 <= i < |text| ==> SUFFIX[i] == text[i] as int
  {
  }

  const SUFFIX: Bytes := [
    0x0A, 0x5B, 0x6F, 0x75, 0x74, 0x70, 0x75, 0x74, 0x20,
    0x74, 0x72, 0x75, 0x6E, 0x63, 0x61, 0x74, 0x65, 0x64, 0x5D]

  /** The last place up to `room` where a character starts, or 0. */
  function LastStart(s: Bytes, room: nat): (k: nat)
    requires room < |s|
    ensures k <= room && (k == 0 || RuneStart(s[k]))
    ensures forall i :: k < i <= room ==> !RuneStart(s[i])
  {
    if room == 0 || RuneStart(s[room]) then room else LastStart(s, room - 1)
  }

  method Truncate(value: Bytes, maximum: int) returns (r: Bytes)
    ensures maximum <= 0 || |value| <= maximum ==> r == value
    ensures 0 < maximum < |value| ==> |r| <= maximum
    ensures 0 < maximum < |value| && maximum <= |SUFFIX| ==> r == SUFFIX[..maximum]
    ensures 0 < maximum < |value| && maximum > |SUFFIX| ==> r == value[..LastStart(value, maximum - |SUFFIX|)] + SUFFIX
  {
    if maximum <= 0 || |value| <= maximum {
      return value;
    }
    var limit := maximum - |SUFFIX|;
    if limit <= 0 {
      return SUFFIX[..maximum];
    }
    while limit > 0 && !RuneStart(value[limit])
      invariant 0 <= limit < |value| && limit + |SUFFIX| <= maximum
      invariant LastStart(value, limit) == LastStart(value, maximum - |SUFFIX|)
    {
      limit := limit - 1;
    }
    return value[..limit] + SUFFIX;
  }

  /** On valid bytes both cuts are at the same place. */
  lemma {:induction false} CutsAgree(s: Bytes, room: nat)
    requires ValidString(s) && room < |s|
    ensures LongestValid(s, room) == s[..LastStart(s, room)]
  {
    hide FirstLength, RuneStart;
    ValidCutIff(s, room);
    if ValidString(s[..room]) {
    } else {
      CutsAgree(s, room - 1);
    }
  }

  /** Valid bytes stay valid under the second cut. */
  lemma TruncateKeepsValid(value: Bytes, maximum: nat)
    requires ValidString(value) && |SUFFIX| < maximum < |value|
    ensures ValidString(value[..LastStart(value, maximum - |SUFFIX|)] + SUFFIX)
  {
    var room := maximum - |SUFFIX|;
    CutsAgree(value, room);
    AsciiIsValid(SUFFIX);
    ValidConcat(LongestValid(value, room), SUFFIX);
  }

  /** A character has at most four bytes, so its boundary is at most three bytes away. */
  lemma {:induction false} BoundaryIsNear(s: Bytes, k: nat)
    requires ValidString(s) && k < |s|
    ensures k <= LastStart(s, k) + 3
    decreases |s|
  {
    var n := FirstLength(s);
    FirstLengthOfPrefix(s, k);
    if k >= n {
      BoundaryIsNear(s[n..], k - n);
      var near := n + LastStart(s[n..], k - n);
      assert s[near] == s[n..][near - n];
      StartOf(s[n..]);
      StartAtLeast(s, k, near);
    }
  }

  lemma StartOf(s: Bytes)
    requires ValidString(s) && s != []
    ensures RuneStart(s[0])
  {
  }

  lemma StartAtLeast(s: Bytes, k: nat, i: nat)
    requires i <= k < |s| && RuneStart(s[i])
    ensures i <= LastStart(s, k)
  {
  }

  /** The second cut loses at most three bytes of valid input to the boundary. */
  lemma TruncateLosesAtMostThree(value: Bytes, maximum: nat)
    requires ValidString(value) && |SUFFIX| < maximum < |value|
    ensures maximum - 3 <= |value[..LastStart(value, maximum - |SUFFIX|)] + SUFFIX| <= maximum
  {
    BoundaryIsNear(value, maximum - |SUFFIX|);
  }

  /** Valid input loses at most three bytes to the first cut as well. */
  lemma TruncateUTF8LosesAtMostThree(value: Bytes, limit: nat)
    requires ValidString(value) && |MARKER| <= limit < |value|
    ensures limit - 3 <= |LongestValid(value, limit - |MARKER|) + MARKER| <= limit
  {
    CutsAgree(value, limit - |MARKER|);
    BoundaryIsNear(value, limit - |MARKER|);
  }
}
