/** What a balanced span is, without the automaton: a grammar of objects, string literals and other
    characters, and the proof that the scanner accepts exactly its objects. */
module BracesGrammar {
  import opened Braces
  import opened Wrappers

  /** The rest of a string literal behind its opening quote: escapes are pairs, and the first unescaped
      quote ends it. */
  predicate LiteralTail(t: string)
  {
    && t != ""
    && if t[0] == '"' then |t| == 1
       else if t[0] == '\\' then |t| >= 2 && LiteralTail(t[2..])
       else LiteralTail(t[1..])
  }

  predicate Plain(c: char) { c != '"' && c != '{' && c != '}' }

  predicate Item(t: string)
    decreases |t|, 1
  {
    || (|t| == 1 && Plain(t[0]))
    || (t != "" && t[0] == '"' && LiteralTail(t[1..]))
    || Object(t)
  }

  predicate Object(t: string)
    decreases |t|, 0
  {
    |t| >= 2 && t[0] == '{' && t[|t| - 1] == '}' && Body(t[1..|t| - 1])
  }

  /** A sequence of items. */
  predicate Body(t: string)
    decreases |t|, 2
  {
    t == "" || exists k | 0 < k <= |t| :: Item(t[..k]) && Body(t[k..])
  }

  // ---- The automaton over a text -----------------------------------------------------------------

  function Run(st: Scan, t: string): Scan
    decreases |t|
  {
    if t == "" then st else Run(Feed(st, t[0]), t[1..])
  }

  lemma {:induction false} RunSplit(st: Scan, t: string, a: nat)
    requires a <= |t|
    ensures Run(st, t) == Run(Run(st, t[..a]), t[a..])
    decreases |t|
  {
    if a > 0 {
      RunSplit(Feed(st, t[0]), t[1..], a - 1);
      assert t[1..][..a - 1] == t[..a][1..] && t[1..][a - 1..] == t[a..];
    } else {
      assert t[0..] == t && t[..0] == "";
    }
  }

  lemma RunLast(st: Scan, t: string)
    requires t != ""
    ensures Run(st, t) == Feed(Run(st, t[..|t| - 1]), t[|t| - 1])
  {
    var n := |t| - 1;
    RunSplit(st, t, n);
    assert t[n..] == [t[n]];
    assert t[n..][1..] == "";
  }

  lemma {:induction false} AfterIsRun(s: string, i: nat, k: nat)
    requires i <= k <= |s|
    ensures After(s, i, k) == Run(START, s[i..k])
    decreases k
  {
    if i < k {
      AfterIsRun(s, i, k - 1);
      RunLast(START, s[i..k]);
      assert s[i..k][..k - 1 - i] == s[i..k - 1];
    }
  }

  lemma {:induction false} NoEscapeOutside(st: Scan, t: string)
    requires st.esc ==> st.inStr
    ensures Run(st, t).esc ==> Run(st, t).inStr
    decreases |t|
  {
    if t != "" {
      NoEscapeOutside(Feed(st, t[0]), t[1..]);
    }
  }

  function At(d: int): Scan { Scan(d, false, false) }

  ghost predicate StaysUp(d: int, t: string)
  {
    forall k | 0 <= k <= |t| :: Run(At(d), t[..k]).depth >= d
  }

  /** The text starts and ends at depth d, outside strings, and never goes below d. */
  ghost predicate Level(d: int, t: string)
  {
    Run(At(d), t) == At(d) && StaysUp(d, t)
  }

  // ---- Every body is level -------------------------------------------------------------------------

  lemma LevelConcat(d: int, a: string, b: string)
    requires Level(d, a) && Level(d, b)
    ensures Level(d, a + b)
  {
    var t := a + b;
    RunSplit(At(d), t, |a|);
    assert t[..|a|] == a && t[|a|..] == b;
    forall k | 0 <= k <= |t|
      ensures Run(At(d), t[..k]).depth >= d
    {
      if k <= |a| {
        assert t[..k] == a[..k];
      } else {
        RunSplit(At(d), t[..k], |a|);
        assert t[..k][..|a|] == a && t[..k][|a|..] == b[..k - |a|];
      }
    }
  }

  /** One character of a literal: an escape takes the next one with it. */
  function Skip(t: string): nat
    requires t != ""
  {
    if t[0] == '\\' then 2 else 1
  }

  lemma SkipStays(d: int, t: string)
    requires t != "" && t[0] != '"' && Skip(t) <= |t|
    ensures Run(Scan(d, true, false), t[..Skip(t)]) == Scan(d, true, false)
    ensures Run(Scan(d, true, false), t[..1]).depth == d
  {
    var st := Scan(d, true, false);
    assert t[..1][1..] == "";
    assert Run(st, t[..1]) == Run(Feed(st, t[0]), t[..1][1..]);
    if t[0] == '\\' {
      var st' := Feed(st, t[0]);
      assert t[..2][1..] == [t[1]];
      assert Run(st, t[..2]) == Run(st', [t[1]]);
      assert [t[1]][1..] == "";
    }
  }

  lemma {:induction false} LiteralRuns(d: int, t: string)
    requires LiteralTail(t)
    ensures Run(Scan(d, true, false), t) == At(d)
    ensures forall k | 0 <= k <= |t| :: Run(Scan(d, true, false), t[..k]).depth == d
    decreases |t|
  {
    var skip := Skip(t);
    var st := Scan(d, true, false);
    RunSplit(st, t, skip);
    if t[0] == '"' {
      assert t[..1][1..] == "" && t[1..] == "";
      assert Run(st, t[..1]) == At(d);
    } else {
      SkipStays(d, t);
      LiteralRuns(d, t[skip..]);
    }
    forall k | 0 <= k <= |t|
      ensures Run(st, t[..k]).depth == d
    {
      if k >= skip && t[0] != '"' {
        RunSplit(st, t[..k], skip);
        assert t[..k][..skip] == t[..skip] && t[..k][skip..] == t[skip..][..k - skip];
      }
    }
  }

  lemma LiteralIsLevel(d: int, t: string)
    requires t != "" && t[0] == '"' && LiteralTail(t[1..])
    ensures Level(d, t)
  {
    LiteralRuns(d, t[1..]);
    forall k | 0 <= k <= |t|
      ensures Run(At(d), t[..k]).depth >= d
    {
      if k > 0 {
        assert t[..k][1..] == t[1..][..k - 1];
      }
    }
  }

  /** Reading an object from depth d: one level up inside, back down only at its last brace. */
  lemma ObjectRuns(d: int, t: string)
    requires |t| >= 2 && t[0] == '{' && t[|t| - 1] == '}' && Level(d + 1, t[1..|t| - 1])
    ensures Run(At(d), t) == At(d)
    ensures forall k | 0 < k < |t| :: Run(At(d), t[..k]).depth > d
  {
    var inner := t[1..|t| - 1];
    forall k | 0 < k < |t|
      ensures Run(At(d), t[..k]) == Run(At(d + 1), inner[..k - 1])
      ensures Run(At(d), t[..k]).depth > d
    {
      assert t[..k][1..] == inner[..k - 1];
    }
    RunLast(At(d), t);
    assert inner[..|t| - 2] == inner;
  }

  lemma ObjectIsLevel(d: int, t: string)
    requires |t| >= 2 && t[0] == '{' && t[|t| - 1] == '}' && Level(d + 1, t[1..|t| - 1])
    ensures Level(d, t)
  {
    ObjectRuns(d, t);
    assert t[..|t|] == t;
    forall k | 0 <= k <= |t|
      ensures Run(At(d), t[..k]).depth >= d
    {
      if 0 < k < |t| {
        assert Run(At(d), t[..k]).depth > d;
      }
    }
  }

  lemma PlainIsLevel(d: int, t: string)
    requires |t| == 1 && Plain(t[0])
    ensures Level(d, t)
  {
    assert t[1..] == "";
    forall k | 0 <= k <= |t|
      ensures Run(At(d), t[..k]).depth >= d
    {
      assert k == 1 ==> t[..k] == t;
    }
  }

  lemma {:induction false} ItemIsLevel(d: int, t: string)
    requires Item(t)
    ensures Level(d, t)
    decreases |t|, 0
  {
    if |t| == 1 && Plain(t[0]) {
      PlainIsLevel(d, t);
    } else if t[0] == '"' {
      LiteralIsLevel(d, t);
    } else {
      BodyIsLevel(d + 1, t[1..|t| - 1]);
      ObjectIsLevel(d, t);
    }
  }

  lemma {:induction false} BodyIsLevel(d: int, t: string)
    requires Body(t)
    ensures Level(d, t)
    decreases |t|, 1
  {
    if t == "" {
      assert forall k | 0 <= k <= |t| :: t[..k] == "";
    } else {
      var k :| 0 < k <= |t| && Item(t[..k]) && Body(t[k..]);
      ItemIsLevel(d, t[..k]);
      BodyIsLevel(d, t[k..]);
      LevelConcat(d, t[..k], t[k..]);
      assert t == t[..k] + t[k..];
    }
  }

  // ---- Every level text is a body --------------------------------------------------------------------

  lemma LevelSuffix(d: int, t: string, a: nat)
    requires Level(d, t) && a <= |t| && Run(At(d), t[..a]) == At(d)
    ensures Level(d, t[a..])
  {
    RunSplit(At(d), t, a);
    forall k | 0 <= k <= |t| - a
      ensures Run(At(d), t[a..][..k]).depth >= d
    {
      RunSplit(At(d), t[..a + k], a);
      assert t[..a + k][..a] == t[..a] && t[..a + k][a..] == t[a..][..k];
    }
  }

  /** A string that is closed somewhere has a first place where it closes. */
  lemma {:induction false} LiteralEnds(d: int, t: string) returns (n: nat)
    requires !Run(Scan(d, true, false), t).inStr
    ensures n <= |t| && LiteralTail(t[..n])
    ensures Run(Scan(d, true, false), t[..n]) == At(d)
    decreases |t|
  {
    var st := Scan(d, true, false);
    if t[0] == '"' {
      n := 1;
      assert t[..1] == [t[0]] && t[..1][1..] == "";
    } else {
      var skip := Skip(t);
      var rest := t[1..];
      assert |rest| == 0 ==> rest == "";
      SkipStays(d, t);
      RunSplit(st, t, skip);
      var m := LiteralEnds(d, t[skip..]);
      n := skip + m;
      RunSplit(st, t[..n], skip);
      assert t[..n][..skip] == t[..skip] && t[..n][skip..] == t[skip..][..m];
    }
  }

  /** Where the depth first comes back down to d. */
  lemma {:induction false} FirstReturn(d: int, t: string, from: nat) returns (n: nat)
    requires 0 < from <= |t| && Run(At(d), t).depth <= d
    requires forall k | 0 < k < from :: Run(At(d), t[..k]).depth > d
    ensures from <= n <= |t| && Run(At(d), t[..n]).depth <= d
    ensures forall k | 0 < k < n :: Run(At(d), t[..k]).depth > d
    decreases |t| - from
  {
    if from == |t| || Run(At(d), t[..from]).depth <= d {
      n := from;
      assert t[..|t|] == t;
    } else {
      n := FirstReturn(d, t, from + 1);
    }
  }

  /** A text whose depth is above d strictly inside and back at d at its end is an opening brace, a
      level text one up, and a closing brace. */
  lemma BracesAround(d: int, t: string)
    requires |t| >= 2 && t[0] == '{' && Run(At(d), t).depth <= d
    requires forall k | 0 < k < |t| :: Run(At(d), t[..k]).depth > d
    ensures t[|t| - 1] == '}' && Level(d + 1, t[1..|t| - 1])
    ensures Run(At(d), t) == At(d)
  {
    var n := |t| - 1;
    RunLast(At(d), t);
    NoEscapeOutside(At(d), t[..n]);
    var inner := t[1..n];
    forall k | 0 <= k <= |inner|
      ensures Run(At(d + 1), inner[..k]) == Run(At(d), t[..k + 1])
      ensures Run(At(d + 1), inner[..k]).depth >= d + 1
    {
      assert t[..k + 1][1..] == inner[..k];
    }
    assert inner[..|inner|] == inner;
  }

  lemma FirstObject(d: int, t: string) returns (n: nat)
    requires Level(d, t) && t != "" && t[0] == '{'
    ensures 2 <= n <= |t| && Run(At(d), t[..n]) == At(d)
    ensures t[n - 1] == '}' && Level(d + 1, t[1..n - 1])
  {
    assert t[..1] == ['{'] && t[..1][1..] == "";
    assert Run(At(d), t[..1]) == Scan(d + 1, false, false);
    n := FirstReturn(d, t, 1);
    var u := t[..n];
    forall k | 0 < k < n
      ensures Run(At(d), u[..k]).depth > d
    {
      assert u[..k] == t[..k];
    }
    BracesAround(d, u);
    assert u[1..n - 1] == t[1..n - 1];
  }

  lemma FirstLiteral(d: int, t: string) returns (n: nat)
    requires Level(d, t) && t != "" && t[0] == '"'
    ensures 0 < n <= |t| && Run(At(d), t[..n]) == At(d) && Item(t[..n])
  {
    var m := LiteralEnds(d, t[1..]);
    n := m + 1;
    assert t[..n][1..] == t[1..][..m];
  }

  lemma ConsBody(t: string, n: nat)
    requires 0 < n <= |t| && Item(t[..n]) && Body(t[n..])
    ensures Body(t)
  {
  }

  lemma {:induction false} LevelIsBody(d: int, t: string)
    requires Level(d, t)
    ensures Body(t)
    decreases |t|
  {
    if t != "" {
      assert t[..1] == [t[0]] && t[..1][1..] == "";
      assert Run(At(d), t[..1]) == Feed(At(d), t[0]);
      var n := 1;
      if t[0] == '{' {
        n := FirstObject(d, t);
        LevelIsBody(d + 1, t[1..n - 1]);
        assert t[..n][1..n - 1] == t[1..n - 1];
      } else if t[0] == '"' {
        n := FirstLiteral(d, t);
      }
      LevelSuffix(d, t, n);
      LevelIsBody(d, t[n..]);
      ConsBody(t, n);
    }
  }

  // ---- The scanner accepts exactly the objects ---------------------------------------------------------

  /** A span closes for the scanner exactly when its text is an object of the grammar. */
  lemma ClosesIffObject(s: string, i: nat, j: nat)
    requires i <= j < |s|
    ensures Closes(s, i, j) <==> Object(s[i..j + 1])
  {
    var t := s[i..j + 1];
    forall k | i <= k <= j + 1
      ensures After(s, i, k) == Run(At(0), t[..k - i])
    {
      AfterIsRun(s, i, k);
      assert s[i..k] == t[..k - i];
    }
    assert t[..|t|] == t;
    if Closes(s, i, j) {
      ClosedIsObject(s, i, j);
    }
    if Object(t) {
      BodyIsLevel(1, t[1..|t| - 1]);
      ObjectRuns(0, t);
      forall k | i < k <= j
        ensures After(s, i, k).depth > 0
      {
        assert Run(At(0), t[..k - i]).depth > 0;
      }
    }
  }

  lemma ClosedIsObject(s: string, i: nat, j: nat)
    requires Closes(s, i, j)
    ensures Object(s[i..j + 1])
  {
    var t := s[i..j + 1];
    forall k | 0 < k < |t|
      ensures Run(At(0), t[..k]).depth > 0
    {
      AfterIsRun(s, i, i + k);
      assert s[i..i + k] == t[..k];
    }
    AfterIsRun(s, i, j + 1);
    assert After(s, i, i + 1) == Feed(After(s, i, i), s[i]);
    BracesAround(0, t);
    LevelIsBody(1, t[1..|t| - 1]);
  }

  predicate ObjectAt(s: string, p: nat, q: nat)
  {
    p <= q < |s| && Object(s[p..q + 1])
  }

  /** In the grammar's terms: the text found is an object, no object begins behind its end, and nothing
      is found exactly when the text holds no object at all. */
  lemma LastBalancedObjectIsObject(s: string)
    ensures var r := LastSpan(s, 0, None);
      && (r.Some? ==> ObjectAt(s, r.value.from, r.value.to))
      && (r.Some? ==> forall p, q | p > r.value.to :: !ObjectAt(s, p, q))
      && (r.None? ==> forall p, q :: !ObjectAt(s, p, q))
  {
    LastBalancedObjectIsLast(s);
    var r := LastSpan(s, 0, None);
    if r.Some? {
      ClosesIffObject(s, r.value.from, r.value.to);
    }
    forall p: nat, q: nat | ObjectAt(s, p, q)
      ensures Begins(s, p)
    {
      ClosesIffObject(s, p, q);
    }
  }
}
