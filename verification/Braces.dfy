/** Finding the last brace-balanced object in a text, aware of string literals and escapes. */
module Braces {
  import opened Wrappers

  // ---- The scanner's automaton -----------------------------------------------------------------

  datatype Scan = Scan(depth: int, inStr: bool, esc: bool)

  const START := Scan(0, false, false)

  function Feed(st: Scan, c: char): Scan
  {
    if st.inStr then
      if st.esc then st.(esc := false)
      else if c == '\\' then st.(esc := true)
      else if c == '"' then st.(inStr := false)
      else st
    else if c == '"' then st.(inStr := true)
    else if c == '{' then st.(depth := st.depth + 1)
    else if c == '}' then st.(depth := st.depth - 1)
    else st
  }

  /** The automaton after reading s[i..k]. */
  function After(s: string, i: nat, k: nat): Scan
    requires i <= k <= |s|
    decreases k
  {
    if k == i then START else Feed(After(s, i, k - 1), s[k - 1])
  }

  /** s[i..j + 1] opens with a brace, and its depth comes back to zero at j for the first time. */
  ghost predicate Closes(s: string, i: nat, j: nat)
  {
    && i <= j < |s| && s[i] == '{' && After(s, i, j + 1).depth == 0
    && forall k | i < k <= j :: After(s, i, k).depth > 0
  }

  ghost predicate Begins(s: string, i: nat) { exists j: nat :: Closes(s, i, j) }

  datatype Span = Span(from: nat, to: nat)

  function EndFrom(s: string, i: nat, k: nat): Option<nat>
    requires i <= k
    decreases |s| - k
  {
    if k >= |s| then None
    else if After(s, i, k + 1).depth == 0 then Some(k)
    else EndFrom(s, i, k + 1)
  }

  function SpanAt(s: string, i: nat): Option<nat>
    requires i < |s|
  {
    if s[i] == '{' then EndFrom(s, i, i) else None
  }

  lemma {:induction false} EndFromCloses(s: string, i: nat, k: nat)
    requires i <= k <= |s| && i < |s| && s[i] == '{'
    requires forall m | i < m <= k :: After(s, i, m).depth > 0
    ensures forall j: nat :: EndFrom(s, i, k) == Some(j) <==> Closes(s, i, j)
    decreases |s| - k
  {
    if k < |s| {
      DepthStaysUp(s, i, k);
      if After(s, i, k + 1).depth == 0 {
        assert Closes(s, i, k);
      } else {
        EndFromCloses(s, i, k + 1);
      }
    }
  }

  lemma DepthStaysUp(s: string, i: nat, k: nat)
    requires i <= k < |s| && s[i] == '{'
    requires forall m | i < m <= k :: After(s, i, m).depth > 0
    ensures After(s, i, k + 1).depth >= 0
  {
    if k > i {
      assert After(s, i, k).depth > 0;
    }
  }

  lemma SpanAtCloses(s: string, i: nat)
    requires i < |s|
    ensures forall j: nat :: SpanAt(s, i) == Some(j) <==> Closes(s, i, j)
    ensures SpanAt(s, i).Some? <==> Begins(s, i)
    ensures SpanAt(s, i).Some? ==> i <= SpanAt(s, i).value < |s|
  {
    if s[i] == '{' {
      EndFromCloses(s, i, i);
    }
    if SpanAt(s, i).Some? {
      assert Closes(s, i, SpanAt(s, i).value);
    }
  }

  /** Left to right: each span starts at the first balanced brace behind the one before. */
  ghost function LastSpan(s: string, i: nat, best: Option<Span>): Option<Span>
    decreases |s| - i
  {
    if i >= |s| then best
    else if SpanAt(s, i).Some? && SpanAt(s, i).value >= i then
      LastSpan(s, SpanAt(s, i).value + 1, Some(Span(i, SpanAt(s, i).value)))
    else LastSpan(s, i + 1, best)
  }

  /** Scan onwards from one opening brace. */
  method ScanObject(s: string, i: nat) returns (end: Option<nat>)
    requires i < |s| && s[i] == '{'
    ensures end == SpanAt(s, i)
  {
    var depth := 0;
    var inStr, esc := false, false;
    var j := i;
    while j < |s|
      invariant i <= j <= |s| && Scan(depth, inStr, esc) == After(s, i, j)
      invariant EndFrom(s, i, i) == EndFrom(s, i, j)
      invariant forall k | i < k <= j :: After(s, i, k).depth > 0
    {
      var c := s[j];
      j := j + 1;
      if inStr {
        if esc {
          esc := false;
        } else if c == '\\' {
          esc := true;
        } else if c == '"' {
          inStr := false;
        }
        continue;
      }
      if c == '"' {
        inStr := true;
      } else if c == '{' {
        depth := depth + 1;
      } else if c == '}' {
        depth := depth - 1;
        if depth == 0 { return Some(j - 1); }
      }
      DepthStaysUp(s, i, j - 1);
    }
    return None;
  }

  method LastBalancedObject(s: string) returns (best: Option<Span>)
    ensures best == LastSpan(s, 0, None)
  {
    best := None;
    var i := 0;
    while i < |s|
      invariant 0 <= i
      invariant LastSpan(s, 0, None) == LastSpan(s, i, best)
      decreases |s| - i
    {
      if s[i] == '{' {
        SpanAtCloses(s, i);
        var end := ScanObject(s, i);
        if end.Some? {
          best := Some(Span(i, end.value));
          i := end.value;
        }
      }
      i := i + 1;
    }
  }

  /** The span found is balanced and no balanced span begins behind its end; nothing is found exactly
      when no position begins one. */
  lemma LastBalancedObjectIsLast(s: string)
    ensures var r := LastSpan(s, 0, None);
      && (r.None? <==> forall p: nat :: !Begins(s, p))
      && (r.Some? ==> Closes(s, r.value.from, r.value.to) && forall p: nat | p > r.value.to :: !Begins(s, p))
  {
    LastSpanIsLast(s, 0, None);
    assert LastSpan(s, 0, None).None? ==> forall p: nat :: !Begins(s, p);
    var r := LastSpan(s, 0, None);
    if r.Some? {
      assert Begins(s, r.value.from);
    }
  }

  lemma {:induction false} LastSpanIsLast(s: string, i: nat, best: Option<Span>)
    requires best.Some? ==> Closes(s, best.value.from, best.value.to) && best.value.to < i
    requires best.Some? ==> forall p: nat | best.value.to < p < i :: !Begins(s, p)
    requires best.None? ==> forall p: nat | p < i :: !Begins(s, p)
    ensures var r := LastSpan(s, i, best);
      && (r.Some? ==> Closes(s, r.value.from, r.value.to) && forall p: nat | p > r.value.to :: !Begins(s, p))
      && (r.None? ==> forall p: nat :: !Begins(s, p))
    decreases |s| - i
  {
    if i < |s| {
      SpanAtCloses(s, i);
      if SpanAt(s, i).Some? {
        LastSpanIsLast(s, SpanAt(s, i).value + 1, Some(Span(i, SpanAt(s, i).value)));
      } else {
        LastSpanIsLast(s, i + 1, best);
      }
    }
  }
}
