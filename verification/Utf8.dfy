/** Text as Go holds it: bytes that need not be valid UTF-8. What `encoding/json` makes of them when
    it writes and reads back a string, and what cutting a text at a byte does. */
module Utf8 {
  import opened Hex

  predicate Continues(b: byte) { 0x80 <= b < 0xC0 }

  /** The second byte of a three- or four-byte rune: no overlong forms, surrogates or out-of-range values. */
  predicate Second(first: byte, b: byte)
  {
    && Continues(b)
    && (first == 0xE0 ==> b >= 0xA0) && (first == 0xED ==> b < 0xA0)
    && (first == 0xF0 ==> b >= 0x90) && (first == 0xF4 ==> b < 0x90)
  }

  /** The length of the rune a text begins with, 0 if it begins with none. */
  function RuneLen(t: Bytes): (n: nat)
    requires t != []
    ensures n <= |t|
  {
    var b := t[0];
    if b < 0x80 then 1
    else if 0xC2 <= b < 0xE0 then if |t| >= 2 && Continues(t[1]) then 2 else 0
    else if 0xE0 <= b < 0xF0 then if |t| >= 3 && Second(b, t[1]) && Continues(t[2]) then 3 else 0
    else if 0xF0 <= b < 0xF5 then
      if |t| >= 4 && Second(b, t[1]) && Continues(t[2]) && Continues(t[3]) then 4 else 0
    else 0
  }

  predicate Valid(t: Bytes)
  {
    t == [] || (RuneLen(t) > 0 && Valid(t[RuneLen(t)..]))
  }

  /** U+FFFD. */
  const REPLACEMENT: Bytes := [0xEF, 0xBF, 0xBD]

  /** Every byte that begins no rune is replaced: what reading the written string gives. */
  function Repair(t: Bytes): Bytes
  {
    if t == [] then []
    else
      var n := RuneLen(t);
      if n == 0 then REPLACEMENT + Repair(t[1..]) else t[..n] + Repair(t[n..])
  }

  /** How an ASCII character is written inside a JSON string. */
  type Escape = byte -> Bytes

  /** `\ufffd`, `\u2028` and `\u2029` as text. */
  const ESCAPED_REPLACEMENT: Bytes := [92, 117, 102, 102, 102, 100]
  const ESCAPED_LINE_SEPARATOR: Bytes := [92, 117, 50, 48, 50, 56]
  const ESCAPED_PARAGRAPH_SEPARATOR: Bytes := [92, 117, 50, 48, 50, 57]

  function WrittenRune(escape: Escape, rune: Bytes): Bytes
  {
    if |rune| == 1 then escape(rune[0])
    else if rune == [0xE2, 0x80, 0xA8] then ESCAPED_LINE_SEPARATOR
    else if rune == [0xE2, 0x80, 0xA9] then ESCAPED_PARAGRAPH_SEPARATOR
    else rune
  }

  /** A string as it is written: a byte that begins no rune becomes an escape, while U+FFFD itself is
      written as it is. */
  function Written(escape: Escape, t: Bytes): Bytes
  {
    if t == [] then []
    else
      var n := RuneLen(t);
      if n == 0 then ESCAPED_REPLACEMENT + Written(escape, t[1..])
      else WrittenRune(escape, t[..n]) + Written(escape, t[n..])
  }

  // ---- What a rune is ------------------------------------------------------------------------------------

  /** A Unicode scalar value. */
  predicate IsScalar(cp: int) { 0 <= cp < 0xD800 || 0xE000 <= cp < 0x11_0000 }

  /** Its encoding: six bits a byte behind a first one that says how many follow. */
  function Encoded(cp: int): Bytes
    requires IsScalar(cp)
  {
    if cp < 0x80 then [cp]
    else if cp < 0x800 then [0xC0 + cp / 64, 0x80 + cp % 64]
    else if cp < 0x1_0000 then [0xE0 + cp / 64 / 64, 0x80 + cp / 64 % 64, 0x80 + cp % 64]
    else [0xF0 + cp / 64 / 64 / 64, 0x80 + cp / 64 / 64 % 64, 0x80 + cp / 64 % 64, 0x80 + cp % 64]
  }

  /** An encoding is a rune. */
  lemma EncodedIsRune(cp: int)
    requires IsScalar(cp)
    ensures RuneLen(Encoded(cp)) == |Encoded(cp)|
  {
  }

  /** Six bits behind what came before, and back again. */
  lemma SixBits(high: int, low: int)
    requires 0 <= low < 64
    ensures (high * 64 + low) / 64 == high && (high * 64 + low) % 64 == low
  {
  }

  lemma PairIsEncoded(rune: Bytes) returns (cp: int)
    requires |rune| == 2 && RuneLen(rune) == 2
    ensures IsScalar(cp) && Encoded(cp) == rune
  {
    var high, low: int := rune[0] as int - 0xC0, rune[1] as int - 0x80;
    cp := high * 64 + low;
    SixBits(high, low);
  }

  lemma TripleIsEncoded(rune: Bytes) returns (cp: int)
    requires |rune| == 3 && RuneLen(rune) == 3
    ensures IsScalar(cp) && Encoded(cp) == rune
  {
    var high, mid, low: int := rune[0] as int - 0xE0, rune[1] as int - 0x80, rune[2] as int - 0x80;
    var upper := high * 64 + mid;
    cp := upper * 64 + low;
    SixBits(high, mid);
    SixBits(upper, low);
    assert 0x800 <= cp < 0x1_0000;
  }

  lemma QuadrupleIsEncoded(rune: Bytes) returns (cp: int)
    requires |rune| == 4 && RuneLen(rune) == 4
    ensures IsScalar(cp) && Encoded(cp) == rune
  {
    var high, second: int := rune[0] as int - 0xF0, rune[1] as int - 0x80;
    var third, low: int := rune[2] as int - 0x80, rune[3] as int - 0x80;
    var upper := high * 64 + second;
    var mid := upper * 64 + third;
    cp := mid * 64 + low;
    SixBits(high, second);
    SixBits(upper, third);
    SixBits(mid, low);
    assert 0x1_0000 <= cp < 0x11_0000;
  }

  /** And a rune is the encoding of some scalar value. */
  lemma RuneIsEncoded(rune: Bytes) returns (cp: int)
    requires rune != [] && RuneLen(rune) == |rune|
    ensures IsScalar(cp) && Encoded(cp) == rune
  {
    if |rune| == 1 {
      cp := rune[0];
    } else if |rune| == 2 {
      cp := PairIsEncoded(rune);
    } else if |rune| == 3 {
      cp := TripleIsEncoded(rune);
    } else {
      cp := QuadrupleIsEncoded(rune);
    }
  }

  function EncodedAll(cps: seq<int>): Bytes
    requires forall cp | cp in cps :: IsScalar(cp)
  {
    if cps == [] then [] else Encoded(cps[0]) + EncodedAll(cps[1..])
  }

  /** A text is valid exactly if it is the encoding of a sequence of scalar values. */
  lemma {:induction false} ValidIsEncoded(t: Bytes) returns (cps: seq<int>)
    requires Valid(t)
    ensures (forall cp | cp in cps :: IsScalar(cp)) && EncodedAll(cps) == t
    decreases |t|
  {
    cps := [];
    if t != [] {
      var rune, rest := FirstRune(t);
      var cp := RuneIsEncoded(rune);
      var others := ValidIsEncoded(rest);
      cps := [cp] + others;
    }
  }

  lemma {:induction false} EncodedIsValid(cps: seq<int>)
    requires forall cp | cp in cps :: IsScalar(cp)
    ensures Valid(EncodedAll(cps))
  {
    if cps != [] {
      assert cps[0] in cps;
      EncodedIsRune(cps[0]);
      EncodedIsValid(cps[1..]);
      SplitRune(Encoded(cps[0]), EncodedAll(cps[1..]));
    }
  }

  // ---- Writing what was read back ------------------------------------------------------------------

  /** Whether a rune begins a text depends on its own bytes only. */
  lemma RuneLenLocal(rune: Bytes, rest: Bytes)
    requires rune != [] && RuneLen(rune) == |rune|
    ensures RuneLen(rune + rest) == |rune|
  {
  }

  lemma RuneLenPrefix(t: Bytes)
    requires t != [] && RuneLen(t) > 0
    ensures RuneLen(t[..RuneLen(t)]) == RuneLen(t)
  {
  }

  lemma SplitRune(rune: Bytes, rest: Bytes)
    requires rune != [] && RuneLen(rune) == |rune|
    ensures Valid(rune + rest) <==> Valid(rest)
    ensures Repair(rune + rest) == rune + Repair(rest)
    ensures forall escape :: Written(escape, rune + rest) == WrittenRune(escape, rune) + Written(escape, rest)
  {
    RuneLenLocal(rune, rest);
    assert (rune + rest)[..|rune|] == rune && (rune + rest)[|rune|..] == rest;
  }

  lemma FirstRune(t: Bytes) returns (rune: Bytes, rest: Bytes)
    requires t != [] && RuneLen(t) > 0
    ensures rune != [] && RuneLen(rune) == |rune| && t == rune + rest && |rest| < |t|
    ensures rune == t[..RuneLen(t)] && rest == t[RuneLen(t)..]
  {
    RuneLenPrefix(t);
    rune, rest := t[..RuneLen(t)], t[RuneLen(t)..];
  }

  /** Repairing gives a valid text, and changes exactly those that are not. */
  lemma {:induction false} RepairIsValid(t: Bytes)
    ensures Valid(Repair(t)) && (Repair(t) == t <==> Valid(t)) && (Repair(t) == [] <==> t == [])
    ensures Repair(Repair(t)) == Repair(t)
    decreases |t|
  {
    RepairedIsValid(t);
    ValidIsKept(Repair(t));
    if Valid(t) {
      ValidIsKept(t);
    }
  }

  lemma {:induction false} RepairedIsValid(t: Bytes)
    ensures Valid(Repair(t)) && (Repair(t) == [] <==> t == [])
    decreases |t|
  {
    if t != [] {
      if RuneLen(t) == 0 {
        RepairedIsValid(t[1..]);
        SplitRune(REPLACEMENT, Repair(t[1..]));
      } else {
        var rune, rest := FirstRune(t);
        RepairedIsValid(rest);
        SplitRune(rune, Repair(rest));
      }
    }
  }

  lemma {:induction false} ValidIsKept(t: Bytes)
    requires Valid(t)
    ensures Repair(t) == t
    decreases |t|
  {
    if t != [] {
      var rune, rest := FirstRune(t);
      ValidIsKept(rest);
    }
  }

  /** The two differ at a position both have. */
  ghost predicate Diverge(a: Bytes, b: Bytes)
  {
    exists k: nat :: k < |a| && k < |b| && a[k] != b[k]
  }

  lemma DivergeEarly(a: Bytes, b: Bytes, x: Bytes, y: Bytes)
    requires Diverge(a, b)
    ensures Diverge(a + x, b + y)
  {
    var k: nat :| k < |a| && k < |b| && a[k] != b[k];
    assert (a + x)[k] == a[k] && (b + y)[k] == b[k];
  }

  lemma DivergeLate(front: Bytes, a: Bytes, b: Bytes)
    requires Diverge(a, b)
    ensures Diverge(front + a, front + b)
  {
    var k: nat :| k < |a| && k < |b| && a[k] != b[k];
    assert (front + a)[|front| + k] == a[k] && (front + b)[|front| + k] == b[k];
  }

  lemma BrokenRuneDiffers(escape: Escape, t: Bytes)
    requires t != [] && RuneLen(t) == 0
    ensures Diverge(Written(escape, Repair(t)), Written(escape, t))
  {
    var back := REPLACEMENT + Repair(t[1..]);
    SplitRune(REPLACEMENT, Repair(t[1..]));
    assert Written(escape, back)[0] == 0xEF && Written(escape, t)[0] == 92;
  }

  /** A text that is not valid is written differently once it has been read back. */
  lemma {:induction false} RewrittenDiffers(escape: Escape, t: Bytes)
    requires !Valid(t)
    ensures Diverge(Written(escape, Repair(t)), Written(escape, t))
    decreases |t|
  {
    if RuneLen(t) == 0 {
      BrokenRuneDiffers(escape, t);
    } else {
      var rune, rest := FirstRune(t);
      SplitRune(rune, rest);
      SplitRune(rune, Repair(rest));
      RewrittenDiffers(escape, rest);
      DivergeLate(WrittenRune(escape, rune), Written(escape, Repair(rest)), Written(escape, rest));
    }
  }

  // ---- Cutting a text ----------------------------------------------------------------------------------

  /** The part of a valid text from a position on is valid unless the position is inside a rune. */
  lemma {:induction false} SuffixIsValidIff(t: Bytes, k: nat)
    requires Valid(t) && k <= |t|
    ensures Valid(t[k..]) <==> k == |t| || !Continues(t[k])
    decreases |t|
  {
    if t != [] && k > 0 {
      var rune, rest := FirstRune(t);
      if k >= |rune| {
        SuffixIsValidIff(rest, k - |rune|);
        assert rest[k - |rune|..] == t[k..];
      } else {
        assert Continues(t[k]);
        assert t[k..][0] == t[k];
      }
    }
  }

  lemma {:induction false} AsciiInFront(front: Bytes, t: Bytes)
    requires forall b | b in front :: b < 0x80
    ensures Valid(front + t) <==> Valid(t)
  {
    if front == [] {
      assert front + t == t;
    } else {
      assert front[0] in front;
      SplitRune([front[0]], front[1..] + t);
      assert [front[0]] + (front[1..] + t) == front + t;
      assert forall b | b in front[1..] :: b in front;
      AsciiInFront(front[1..], t);
    }
  }
}
