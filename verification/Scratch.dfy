/** The rolling scratchpad: appending, and compaction when the file nears its limit. Characters stand
    for bytes. */
module Scratch {
  const HEADER := "<!-- Scratchpad auto-compacted; older content truncated -->\n\n"
  const HEADER_LENGTH := 61
  const TWO_63 := 0x8000_0000_0000_0000
  const TWO_64 := 0x1_0000_0000_0000_0000
  const TWO_62 := 0x4000_0000_0000_0000

  /** Two's-complement int64. */
  function Wrap64(x: int): (y: int)
    ensures -TWO_63 <= y < TWO_63
    ensures -TWO_63 <= x < TWO_63 ==> y == x
  {
    (x + TWO_63) % TWO_64 - TWO_63
  }

  /** Division that truncates toward zero. */
  function Quot(x: int, d: int): int
    requires d > 0
  {
    if x >= 0 then x / d else -(-x / d)
  }

  function Limit(maxKB: int): int { Wrap64(maxKB * 1024) }

  /** 80 % of the limit, as computed in 64 bits. */
  function Threshold(maxKB: int): int { Quot(Wrap64(Limit(maxKB) * 8), 10) }

  /** Where the kept part starts looking for a line boundary. */
  function Cut(length: nat, maxKB: int): nat
  {
    var minHalf := Wrap64(length + HEADER_LENGTH - Limit(maxKB));
    if length / 2 < minHalf then minHalf else length / 2
  }

  function NewlineFrom(data: string, from: nat): nat
    decreases |data| - from
  {
    if from < |data| && data[from] != '\n' then NewlineFrom(data, from + 1) else from
  }

  /** Behind the first newline at or past the cut; at the cut when there is none. */
  function KeptFrom(data: string, cut: nat): (k: nat)
    ensures k <= |data|
  {
    var newline := NewlineFrom(data, cut);
    if newline < |data| then newline + 1 else if cut < |data| then cut else |data|
  }

  function Compacted(data: string, maxKB: int): string
  {
    if maxKB <= 0 || |data| <= Threshold(maxKB) then data
    else HEADER + data[KeptFrom(data, Cut(|data|, maxKB))..]
  }

  lemma HeaderLength()
    ensures |HEADER| == HEADER_LENGTH
  {
  }

  ghost predicate LineStart(data: string, cut: nat, k: nat)
  {
    && cut < k <= |data| && data[k - 1] == '\n'
    && forall j | cut <= j < k - 1 :: data[j] != '\n'
  }

  lemma {:induction false} NewlineFromIsFirst(data: string, from: nat)
    ensures NewlineFrom(data, from) >= from
    ensures forall j | from <= j < NewlineFrom(data, from) :: j < |data| && data[j] != '\n'
    ensures NewlineFrom(data, from) < |data| ==> data[NewlineFrom(data, from)] == '\n'
    decreases |data| - from
  {
    if from < |data| && data[from] != '\n' {
      NewlineFromIsFirst(data, from + 1);
    }
  }

  /** The kept part begins a line whenever there is a newline at or past the cut, and that line is the
      first one to begin there. */
  lemma KeptPartBeginsALine(data: string, cut: nat)
    ensures (exists j :: cut <= j < |data| && data[j] == '\n') <==> LineStart(data, cut, KeptFrom(data, cut))
    ensures KeptFrom(data, cut) >= cut || KeptFrom(data, cut) == |data|
  {
    NewlineFromIsFirst(data, cut);
    var newline := NewlineFrom(data, cut);
    if newline < |data| {
      assert data[newline] == '\n';
    }
  }

  // ---- The scratchpad file ----------------------------------------------------------------------------

  class Manager {
    const maxKB: int
    var content: string

    constructor (maxKB: int, content: string)
      ensures this.maxKB == maxKB && this.content == content
    {
      this.maxKB := maxKB;
      this.content := content;
    }

    method Append(text: string)
      modifies this
      ensures content == Compacted(old(content) + text, maxKB)
    {
      content := content + text;
      CompactIfNeeded();
    }

    method CompactIfNeeded()
      modifies this
      ensures content == Compacted(old(content), maxKB)
    {
      if maxKB <= 0 { return; }
      if |content| <= Threshold(maxKB) { return; }
      var data := content;
      var half := Midpoint(|data|, maxKB);
      half := SkipToLine(data, half);
      content := HEADER + data[half..];
    }

    /** The middle of the data, or further if the header and the rest would not fit the limit. */
    static method Midpoint(length: nat, maxKB: int) returns (half: nat)
      ensures half == Cut(length, maxKB)
    {
      var minHalf := Wrap64(length + HEADER_LENGTH - Limit(maxKB));
      if minHalf < 0 { minHalf := 0; }
      half := length / 2;
      if half < minHalf { half := minHalf; }
    }

    /** Move the cut behind the next newline, or leave it where it is, inside the data. */
    static method SkipToLine(data: string, origHalf: nat) returns (half: nat)
      ensures half == KeptFrom(data, origHalf)
    {
      half := origHalf;
      while half < |data| && data[half] != '\n'
        invariant half >= origHalf
        invariant NewlineFrom(data, origHalf) == NewlineFrom(data, half)
      {
        half := half + 1;
      }
      if half >= |data| {
        half := origHalf;
      } else {
        half := half + 1;
      }
      if half > |data| { half := |data|; }
    }
  }

  // ---- The bound ---------------------------------------------------------------------------------------

  lemma LimitExact(maxKB: int)
    requires 1 <= maxKB < 0x20_0000_0000_0000
    ensures Limit(maxKB) == maxKB * 1024
  {
  }

  lemma ThresholdBounds(maxKB: int)
    requires 1 <= maxKB < TWO_63
    ensures Threshold(maxKB) <= maxKB * 1024
    ensures maxKB < 0x4_0000_0000_0000 ==> Threshold(maxKB) == maxKB * 8192 / 10
  {
    if maxKB < 0x4_0000_0000_0000 {
      LimitExact(maxKB);
    }
  }

  /** After every append the file is within its limit, for every positive limit an int64 can hold and
      every file whose length leaves headroom in an int64. */
  lemma AppendIsBounded(data: string, maxKB: int)
    requires 1 <= maxKB < TWO_63 && |data| < TWO_62
    ensures |Compacted(data, maxKB)| <= maxKB * 1024
  {
    HeaderLength();
    ThresholdBounds(maxKB);
    var cut := Cut(|data|, maxKB);
    KeptPartBeginsALine(data, cut);
    if maxKB < 0x20_0000_0000_0000 {
      LimitExact(maxKB);
    }
  }

  // ---- Any sequence of appends -----------------------------------------------------------------------

  function AppendAll(content: string, texts: seq<string>, maxKB: int): string
    decreases |texts|
  {
    if texts == [] then content
    else AppendAll(Compacted(content + texts[0], maxKB), texts[1..], maxKB)
  }

  function Concat(texts: seq<string>): string
  {
    if texts == [] then "" else texts[0] + Concat(texts[1..])
  }

  predicate IsSuffix(part: string, whole: string)
  {
    |part| <= |whole| && part == whole[|whole| - |part|..]
  }

  /** The file is the whole log, or the header and the newest part of the log. */
  predicate NewestPart(content: string, log: string)
  {
    || content == log
    || (HEADER <= content && IsSuffix(content[|HEADER|..], log))
  }

  /** The 64-bit arithmetic wraps so that compaction always runs and always cuts at the middle: the
      threshold is not positive, and the limit either is, or is the one whose negation wraps. */
  predicate CutsOldHeaders(maxKB: int)
  {
    maxKB >= 1 && Threshold(maxKB) <= 0 && (Limit(maxKB) > 0 || Limit(maxKB) == -TWO_63)
  }

  lemma UsualLimitsAreSound(maxKB: int)
    requires 1 <= maxKB < 0x4_0000_0000_0000
    ensures !CutsOldHeaders(maxKB)
  {
    ThresholdBounds(maxKB);
  }

  lemma WrapKeepsMultiples(x: int)
    ensures Wrap64(x * 1024) % 1024 == 0
  {
    var q := (x * 1024 + TWO_63) / TWO_64;
    assert Wrap64(x * 1024) == 1024 * (x - q * 0x40_0000_0000_0000);
  }

  /** A positive threshold is more than two headers. */
  lemma PositiveThreshold(maxKB: int)
    requires Threshold(maxKB) > 0
    ensures Threshold(maxKB) >= 2 * HEADER_LENGTH
  {
    WrapKeepsMultiples(maxKB);
    var limit := Limit(maxKB);
    assert limit * 8 == (limit * 8 / 1024) * 1024;
    WrapKeepsMultiples(limit * 8 / 1024);
  }

  /** Unless the arithmetic wraps that way, whatever compaction keeps starts behind an old header, or is
      nothing at all. */
  lemma KeepsNoHeader(length: nat, maxKB: int)
    requires maxKB >= 1 && !CutsOldHeaders(maxKB) && length > Threshold(maxKB)
    ensures Cut(length, maxKB) >= HEADER_LENGTH || Cut(length, maxKB) >= length
  {
    if Threshold(maxKB) > 0 {
      PositiveThreshold(maxKB);
    } else {
      WrapKeepsMultiples(maxKB);
      assert -TWO_63 + 1024 <= Limit(maxKB) <= 0;
    }
  }

  lemma AppendKeepsNewest(content: string, log: string, text: string, maxKB: int)
    requires !CutsOldHeaders(maxKB) && NewestPart(content, log)
    ensures NewestPart(Compacted(content + text, maxKB), log + text)
  {
    HeaderLength();
    var data := content + text;
    if maxKB >= 1 && |data| > Threshold(maxKB) {
      var cut := Cut(|data|, maxKB);
      KeptPartBeginsALine(data, cut);
      KeepsNoHeader(|data|, maxKB);
      SuffixBehindCut(content, log, text, KeptFrom(data, cut));
    } else if content != log {
      var kept := content[|HEADER|..];
      assert data[|HEADER|..] == kept + text;
      assert (log + text)[|log| - |kept|..] == log[|log| - |kept|..] + text;
    }
  }

  lemma SuffixBehindCut(content: string, log: string, text: string, k: nat)
    requires NewestPart(content, log) && k <= |content + text|
    requires |HEADER| <= k || k == |content + text|
    ensures NewestPart(HEADER + (content + text)[k..], log + text)
  {
    var data := content + text;
    assert (HEADER + data[k..])[|HEADER|..] == data[k..];
    if k == |data| {
      assert data[k..] == "" == (log + text)[|log + text|..];
    } else {
      SuffixOfNewest(content, log, text, k);
    }
  }

  lemma SuffixOfNewest(content: string, log: string, text: string, k: nat)
    requires NewestPart(content, log) && |HEADER| <= k <= |content + text|
    ensures IsSuffix((content + text)[k..], log + text)
  {
    var data := content + text;
    if content != log {
      var kept := content[|HEADER|..];
      var skipped := |log| - |kept|;
      assert data[|HEADER|..] == kept + text;
      assert (log + text)[skipped..] == log[skipped..] + text;
      assert data[k..] == data[|HEADER|..][k - |HEADER|..];
      assert (log + text)[skipped..][k - |HEADER|..] == (log + text)[skipped + k - |HEADER|..];
    }
  }

  lemma Associate(a: string, b: string, c: string)
    ensures a + b + c == a + (b + c)
  {
  }

  /** Whatever is appended, the scratchpad always reads as the header and the newest part of everything
      ever appended, or as all of it: compaction never keeps an old header and never reorders. */
  lemma {:induction false} ScratchpadKeepsNewest(content: string, log: string, texts: seq<string>, maxKB: int)
    requires !CutsOldHeaders(maxKB) && NewestPart(content, log)
    ensures NewestPart(AppendAll(content, texts, maxKB), log + Concat(texts))
    decreases |texts|
  {
    if texts == [] {
      assert log + "" == log;
    } else {
      AppendKeepsNewest(content, log, texts[0], maxKB);
      ScratchpadKeepsNewest(Compacted(content + texts[0], maxKB), log + texts[0], texts[1..], maxKB);
      Associate(log, texts[0], Concat(texts[1..]));
    }
  }

  /** The scratchpad reads as the newest part of the log after every sequence of appends. */
  ghost predicate AlwaysNewest(maxKB: int)
  {
    forall texts :: NewestPart(AppendAll("", texts, maxKB), Concat(texts))
  }

  /** It does, for every limit an int64 can hold, exactly when the arithmetic does not wrap that way. */
  lemma AlwaysNewestIff(maxKB: int)
    requires maxKB < TWO_63
    ensures AlwaysNewest(maxKB) <==> !CutsOldHeaders(maxKB)
  {
    if CutsOldHeaders(maxKB) {
      WrappedLimitKeepsOldHeader(maxKB);
      assert !NewestPart(AppendAll("", ["a", ""], maxKB), Concat(["a", ""]));
    } else {
      forall texts
        ensures NewestPart(AppendAll("", texts, maxKB), Concat(texts))
      {
        ScratchpadKeepsNewest("", "", texts, maxKB);
        assert "" + Concat(texts) == Concat(texts);
      }
    }
  }

  lemma WrappedCut(maxKB: int)
    requires CutsOldHeaders(maxKB)
    ensures Cut(1, maxKB) == 0 && Cut(HEADER_LENGTH + 1, maxKB) == 31
  {
    if Limit(maxKB) > 0 {
      assert Wrap64(Limit(maxKB) * 8) < 10;
      assert Limit(maxKB) > 2 * HEADER_LENGTH + 1;
    }
  }

  lemma CompactOneLetter(maxKB: int)
    requires CutsOldHeaders(maxKB)
    ensures Compacted("a", maxKB) == HEADER + "a"
  {
    WrappedCut(maxKB);
    NewlineFromIsFirst("a", 0);
  }

  lemma CompactHeaderAgain(maxKB: int)
    requires CutsOldHeaders(maxKB)
    ensures |Compacted(HEADER + "a", maxKB)| > |HEADER| + 1
    ensures HEADER <= Compacted(HEADER + "a", maxKB)
  {
    HeaderLength();
    WrappedCut(maxKB);
    var data := HEADER + "a";
    NewlineFromIsFirst(data, 31);
    assert data[59] == '\n';
  }

  /** Then one letter and one empty append are enough: a compacted file is compacted again, and a part
      of the old header survives as content. */
  lemma WrappedLimitKeepsOldHeader(maxKB: int)
    requires CutsOldHeaders(maxKB)
    ensures !NewestPart(AppendAll("", ["a", ""], maxKB), Concat(["a", ""]))
  {
    CompactOneLetter(maxKB);
    CompactHeaderAgain(maxKB);
    var last := Compacted(HEADER + "a", maxKB);
    assert "" + "a" == "a" && HEADER + "a" + "" == HEADER + "a";
    assert ["a", ""][1..] == [""] && [""][1..] == [];
    assert AppendAll("", ["a", ""], maxKB) == AppendAll(HEADER + "a", [""], maxKB);
    assert AppendAll(HEADER + "a", [""], maxKB) == AppendAll(last, [], maxKB) == last;
    assert Concat([""]) == "" && Concat(["a", ""]) == "a";
  }

  /** 2^50 KB is such a limit; 2^54 KB, whose limit wraps to zero, is not. */
  lemma SomeLimitsWrap()
    ensures CutsOldHeaders(0x4_0000_0000_0000) && !CutsOldHeaders(0x40_0000_0000_0000)
  {
    assert Limit(0x4_0000_0000_0000) == 0x1000_0000_0000_0000;
    assert Limit(0x40_0000_0000_0000) == 0;
  }

  /** And after the last append it is within the limit. */
  lemma {:induction false} ScratchpadStaysBounded(content: string, texts: seq<string>, maxKB: int)
    requires 1 <= maxKB < TWO_63 && texts != []
    requires |content| + |Concat(texts)| + |texts| * HEADER_LENGTH < TWO_62
    ensures |AppendAll(content, texts, maxKB)| <= maxKB * 1024
    decreases |texts|
  {
    var next := Compacted(content + texts[0], maxKB);
    HeaderLength();
    AppendIsBounded(content + texts[0], maxKB);
    assert |next| <= |content| + |texts[0]| + HEADER_LENGTH;
    if |texts| > 1 {
      ScratchpadStaysBounded(next, texts[1..], maxKB);
    } else {
      assert texts[1..] == [];
    }
  }
}
