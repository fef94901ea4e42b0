/**
 * The compatibility shim applied to every synthesized Cypher statement: a
 * global regular-expression replacement that turns the legacy `id(x)`
 * node-identifier function into `elementId(x)`. The pattern is a whitespace
 * character, `id(`, a non-empty run of characters other than `)`, and `)`;
 * each match becomes a space, `elementId(`, the same run, and `)`.
 *
 * The regular expression is modelled exactly: a global, left-to-right scan
 * that, at each position, either rewrites one match and resumes after it or
 * copies one character.
 */
module IdRewrite {
  import opened Outcomes

  /** `\s` in an ECMAScript regular expression: the WhiteSpace and LineTerminator code points. */
  predicate IsWhitespace(c: char) {
    || c == '\t' || c == '\n' || c == '\U{000B}' || c == '\U{000C}' || c == '\r' || c == ' '
    || c == '\U{00A0}' || c == '\U{1680}' || ('\U{2000}' <= c <= '\U{200A}')
    || c == '\U{2028}' || c == '\U{2029}' || c == '\U{202F}' || c == '\U{205F}'
    || c == '\U{3000}' || c == '\U{FEFF}'
  }

  /** The prefix `\sid(` of the pattern occurs at index i of s. */
  predicate IdCallAt(s: string, i: nat) {
    i + 4 <= |s| && IsWhitespace(s[i]) && s[i + 1] == 'i' && s[i + 2] == 'd' && s[i + 3] == '('
  }

  /**
   * The whole pattern `\sid\(([^)]+)\)` matches s at index 0 and its closing
   * `)` is at index j: the captured argument s[4..j] is non-empty and holds no `)`.
   */
  predicate IsMatch(s: string, j: nat) {
    IdCallAt(s, 0) && 4 < j < |s| && s[j] == ')' && forall m :: 4 <= m < j ==> s[m] != ')'
  }

  /** Index of the first `)` in s, if there is one. */
  function FirstClose(s: string): (r: Option<nat>)
    ensures r.Some? ==> r.value < |s| && s[r.value] == ')' && forall m :: 0 <= m < r.value ==> s[m] != ')'
    ensures r.None? ==> forall m :: 0 <= m < |s| ==> s[m] != ')'
  {
    if |s| == 0 then None
    else if s[0] == ')' then Some(0)
    else match FirstClose(s[1..])
      case Some(k) => Some(k + 1)
      case None => None
  }

  /**
   * Attempts the pattern at index 0 of s. The greedy `[^)]+` can only stop at
   * the first `)`, so the attempt succeeds exactly when that `)` exists and is
   * not the character right after `id(`.
   */
  function MatchEnd(s: string): (r: Option<nat>)
    ensures r.Some? ==> IsMatch(s, r.value)
    ensures r.None? ==> forall j :: !IsMatch(s, j)
  {
    if !IdCallAt(s, 0) then None
    else match FirstClose(s[4..])
      case Some(k) => if k > 0 then Some(k + 4) else None
      case None => None
  }

  /** The pattern matches at index 0 of s with at most one end. */
  lemma MatchIsUnique(s: string, j: nat, j': nat)
    requires IsMatch(s, j) && IsMatch(s, j')
    ensures j == j'
  {
  }

  /** The global replacement of every `id(...)` call that follows whitespace by ` elementId(...)`. */
  function RewriteIdCalls(s: string): (r: string)
    ensures |r| >= |s|
    decreases |s|
  {
    if |s| == 0 then ""
    else match MatchEnd(s)
      case Some(j) => " elementId(" + s[4..j] + ")" + RewriteIdCalls(s[j + 1..])
      case None => [s[0]] + RewriteIdCalls(s[1..])
  }

  /** No position of s starts a match of the pattern. */
  predicate NoIdCall(s: string) {
    forall i | 0 <= i < |s| :: MatchEnd(s[i..]).None?
  }

  /**
   * Every `\sid(` in s is closed by a `)` before the next `\sid(` starts, so
   * no rewritten argument contains another call.
   */
  predicate CallsClosed(s: string) {
    forall i, k | 0 <= i && i + 4 <= k < |s| && IdCallAt(s, i) && IdCallAt(s, k) :: ')' in s[i + 4..k]
  }

  /** A prefix in which no match starts is copied through unchanged. */
  lemma {:induction false} RewriteCopiesPrefix(p: string, t: string)
    requires forall k | 0 <= k < |p| :: MatchEnd((p + t)[k..]).None?
    ensures RewriteIdCalls(p + t) == p + RewriteIdCalls(t)
    decreases |p|
  {
    if |p| > 0 {
      assert (p + t)[0..] == p + t;
      assert MatchEnd(p + t).None?;
      assert (p + t)[1..] == p[1..] + t;
      forall k | 0 <= k < |p[1..]| ensures MatchEnd((p[1..] + t)[k..]).None? {
        assert (p[1..] + t)[k..] == (p + t)[k + 1..];
      }
      RewriteCopiesPrefix(p[1..], t);
      assert p == [p[0]] + p[1..];
    } else {
      assert p + t == t;
    }
  }

  /** Text with no occurrence of the pattern is returned unchanged. */
  lemma RewriteUnchanged(s: string)
    requires NoIdCall(s)
    ensures RewriteIdCalls(s) == s
  {
    assert s + "" == s;
    forall k | 0 <= k < |s| ensures MatchEnd((s + "")[k..]).None? {
      assert (s + "")[k..] == s[k..];
    }
    RewriteCopiesPrefix(s, "");
  }

  /** Text without any `)` cannot match, so it is returned unchanged. */
  lemma RewriteWithoutClose(s: string)
    requires forall m | 0 <= m < |s| :: s[m] != ')'
    ensures RewriteIdCalls(s) == s
  {
    forall i | 0 <= i < |s| ensures MatchEnd(s[i..]).None? {
      assert forall m | 0 <= m < |s[i..]| :: s[i..][m] != ')';
    }
    RewriteUnchanged(s);
  }

  /** A whitespace character followed by `id(a)` becomes ` elementId(a)`, and the scan resumes after it. */
  lemma RewriteSingleCall(w: char, a: string, rest: string)
    requires IsWhitespace(w) && |a| > 0
    requires forall m | 0 <= m < |a| :: a[m] != ')'
    ensures RewriteIdCalls([w] + "id(" + a + ")" + rest) == " elementId(" + a + ")" + RewriteIdCalls(rest)
  {
    var s := [w] + "id(" + a + ")" + rest;
    var j := 4 + |a|;
    assert s[j] == ')';
    forall m | 4 <= m < j ensures s[m] != ')' {
      assert s[m] == a[m - 4];
    }
    assert IsMatch(s, j);
    MatchIsUnique(s, MatchEnd(s).value, j);
    assert s[4..j] == a;
    assert s[j + 1..] == rest;
  }

  /** An `id(` that is not preceded by whitespace, for one at the very start of the text, is left alone. */
  lemma LeadingIdUntouched(t: string)
    ensures RewriteIdCalls("id(" + t) == "id(" + RewriteIdCalls(t)
  {
    forall k | 0 <= k < 3 ensures MatchEnd(("id(" + t)[k..]).None? {
      assert !IsWhitespace(("id(" + t)[k]);
    }
    RewriteCopiesPrefix("id(", t);
  }

  /** A call that already reads ` elementId(` is left alone. */
  lemma ElementIdCallsUntouched(t: string)
    ensures RewriteIdCalls(" elementId(" + t) == " elementId(" + RewriteIdCalls(t)
  {
    var p := " elementId(";
    forall k | 0 <= k < |p| ensures MatchEnd((p + t)[k..]).None? {
      assert (p + t)[k..][0] == p[k];
      assert k == 0 ==> (p + t)[k..][1] == 'e';
    }
    RewriteCopiesPrefix(p, t);
  }

  /** CallsClosed holds of every suffix. */
  lemma CallsClosedSuffix(s: string, d: nat)
    requires CallsClosed(s) && d <= |s|
    ensures CallsClosed(s[d..])
  {
    var u := s[d..];
    forall i, k | 0 <= i && i + 4 <= k < |u| && IdCallAt(u, i) && IdCallAt(u, k) ensures ')' in u[i + 4..k] {
      assert IdCallAt(s, d + i) && IdCallAt(s, d + k);
      assert u[i + 4..k] == s[d + i + 4..d + k];
    }
  }

  /** The first character of the output: a copy of the input's, or the space that starts a rewrite. */
  lemma RewriteHead(t: string)
    requires |t| > 0
    ensures |RewriteIdCalls(t)| > 0
    ensures MatchEnd(t).Some? ==> RewriteIdCalls(t)[0] == ' '
    ensures MatchEnd(t).None? ==> RewriteIdCalls(t) == [t[0]] + RewriteIdCalls(t[1..])
  {
  }

  /** Where no match starts at index 0, none starts there after the rest has been rewritten either. */
  lemma NoMatchAfterCopy(s: string)
    requires |s| > 0 && MatchEnd(s).None?
    ensures MatchEnd([s[0]] + RewriteIdCalls(s[1..])).None?
  {
    var r := [s[0]] + RewriteIdCalls(s[1..]);
    if IdCallAt(r, 0) {
      // The characters `id(` after the whitespace can only have been copied.
      RewriteHead(s[1..]);
      assert s[1] == 'i';
      assert s[1..][1..] == s[2..];
      RewriteHead(s[2..]);
      assert s[2] == 'd';
      assert s[2..][1..] == s[3..];
      RewriteHead(s[3..]);
      assert s[3] == '(';
      assert s[3..][1..] == s[4..];
      var u := RewriteIdCalls(s[4..]);
      assert r == s[..4] + u;
      assert IdCallAt(s, 0);
      match FirstClose(s[4..])
      case Some(k) =>
        assert k == 0;
        assert s[4] == ')';
        RewriteHead(s[4..]);
        assert r[4] == ')';
      case None =>
        RewriteWithoutClose(s[4..]);
        assert r == s;
    }
  }

  /** No `\sid(` starts inside the argument of a match, when every call is closed before the next. */
  lemma NoCallInsideArgument(s: string, j: nat, i: nat)
    requires CallsClosed(s) && IsMatch(s, j) && 4 <= i < j
    ensures !IdCallAt(s, i)
  {
    assert ')' !in s[4..i];
  }

  /** Inside a rewritten call ` elementId(a)` no new match can start, when a holds no further call. */
  lemma NoMatchInRewrittenCall(s: string, j: nat, rt: string, k: nat)
    requires CallsClosed(s) && IsMatch(s, j)
    requires k < 12 + (j - 4)
    ensures MatchEnd((" elementId(" + s[4..j] + ")" + rt)[k..]).None?
  {
    var a := s[4..j];
    var x := " elementId(" + a + ")" + rt;
    if k == 0 {
      assert x[1] == 'e';
    } else if k <= 10 {
      assert x[k] == " elementId("[k];
    } else if k == 11 + |a| {
      assert x[k] == ')';
    } else if k + 3 < 11 + |a| {
      assert forall m | 11 <= m < 11 + |a| :: x[m] == s[m - 7];
      NoCallInsideArgument(s, j, k - 7);
    } else {
      assert x[11 + |a|] == ')';
    }
  }

  /**
   * Applying the rewrite twice gives the same text as applying it once,
   * provided every call is closed before the next one starts.
   */
  lemma {:induction false} RewriteIdempotent(s: string)
    requires CallsClosed(s)
    ensures RewriteIdCalls(RewriteIdCalls(s)) == RewriteIdCalls(s)
    decreases |s|
  {
    if |s| > 0 {
      match MatchEnd(s)
      case Some(j) =>
        var p := " elementId(" + s[4..j] + ")";
        var t := s[j + 1..];
        CallsClosedSuffix(s, j + 1);
        RewriteIdempotent(t);
        var rt := RewriteIdCalls(t);
        assert RewriteIdCalls(s) == p + rt;
        forall k | 0 <= k < |p| ensures MatchEnd((p + rt)[k..]).None? {
          NoMatchInRewrittenCall(s, j, rt, k);
        }
        RewriteCopiesPrefix(p, rt);
      case None =>
        CallsClosedSuffix(s, 1);
        RewriteIdempotent(s[1..]);
        var r := [s[0]] + RewriteIdCalls(s[1..]);
        NoMatchAfterCopy(s);
        assert r[1..] == RewriteIdCalls(s[1..]);
    }
  }

  /** A call whose argument holds a second call: ` id(a id(x))`. */
  function NestedCall(a: string, x: string): string {
    " id(" + a + " id(" + x + "))"
  }

  lemma NestedCallShape(a: string, x: string)
    ensures NestedCall(a, x) == [' '] + "id(" + (a + " id(" + x) + ")" + ")"
  {
  }

  lemma NestedArgumentHasNoClose(a: string, x: string)
    requires forall m | 0 <= m < |a| :: a[m] != ')'
    requires forall m | 0 <= m < |x| :: x[m] != ')'
    ensures forall m | 0 <= m < |a + " id(" + x| :: (a + " id(" + x)[m] != ')'
  {
    var inner := a + " id(" + x;
    forall m | 0 <= m < |inner| ensures inner[m] != ')' {
      if m >= |a| + 4 { assert inner[m] == x[m - |a| - 4]; }
    }
  }

  lemma RewriteCallThenClose(inner: string)
    requires |inner| > 0
    requires forall m | 0 <= m < |inner| :: inner[m] != ')'
    ensures RewriteIdCalls([' '] + "id(" + inner + ")" + ")") == " elementId(" + inner + ")" + ")"
  {
    RewriteSingleCall(' ', inner, ")");
    assert RewriteIdCalls(")") == ")";
  }

  /** The first pass rewrites only the outer call; the inner one lies inside its argument. */
  lemma NestedCallFirstPass(a: string, x: string)
    requires forall m | 0 <= m < |a| :: a[m] != ')'
    requires forall m | 0 <= m < |x| :: x[m] != ')'
    ensures RewriteIdCalls(NestedCall(a, x)) == " elementId(" + (a + " id(" + x) + ")" + ")"
  {
    NestedCallShape(a, x);
    NestedArgumentHasNoClose(a, x);
    RewriteCallThenClose(a + " id(" + x);
  }

  lemma NestedCallNotClosed(a: string, x: string)
    requires forall m | 0 <= m < |a| :: a[m] != ')'
    ensures !CallsClosed(NestedCall(a, x))
  {
    var s := NestedCall(a, x);
    assert IdCallAt(s, 0) && IdCallAt(s, |a| + 4);
    assert s[4..|a| + 4] == a;
  }

  /** Text free of whitespace starts no match, so it is copied through. */
  lemma RewriteCopiesWordPrefix(a: string, t: string)
    requires forall m | 0 <= m < |a| :: !IsWhitespace(a[m])
    ensures RewriteIdCalls(a + t) == a + RewriteIdCalls(t)
  {
    forall k | 0 <= k < |a| ensures MatchEnd((a + t)[k..]).None? {
      assert (a + t)[k..][0] == a[k];
    }
    RewriteCopiesPrefix(a, t);
  }

  lemma SecondPassShape(a: string, x: string)
    ensures " elementId(" + (a + " id(" + x) + ")" + ")" == " elementId(" + (a + ([' '] + "id(" + x + ")" + ")"))
    ensures " elementId(" + (a + (" elementId(" + x + ")" + ")")) == " elementId(" + a + " elementId(" + x + "))"
  {
  }

  /** The second pass finds the inner call, now preceded by ` elementId(a`, and rewrites it. */
  lemma NestedCallSecondPass(a: string, x: string)
    requires |x| > 0
    requires forall m | 0 <= m < |a| :: a[m] != ')' && !IsWhitespace(a[m])
    requires forall m | 0 <= m < |x| :: x[m] != ')'
    ensures RewriteIdCalls(" elementId(" + (a + " id(" + x) + ")" + ")")
         == " elementId(" + a + " elementId(" + x + "))"
  {
    var tail := [' '] + "id(" + x + ")" + ")";
    SecondPassShape(a, x);
    ElementIdCallsUntouched(a + tail);
    RewriteCopiesWordPrefix(a, tail);
    RewriteCallThenClose(x);
  }

  /**
   * Without the CallsClosed precondition the rewrite is not idempotent: a call
   * nested in another's argument is only rewritten on a second pass.
   */
  lemma NestedCallNeedsSecondPass(a: string, x: string)
    requires |x| > 0
    requires forall m | 0 <= m < |a| :: a[m] != ')' && !IsWhitespace(a[m])
    requires forall m | 0 <= m < |x| :: x[m] != ')'
    ensures !CallsClosed(NestedCall(a, x))
    ensures RewriteIdCalls(RewriteIdCalls(NestedCall(a, x))) != RewriteIdCalls(NestedCall(a, x))
  {
    NestedCallNotClosed(a, x);
    NestedCallFirstPass(a, x);
    NestedCallSecondPass(a, x);
    var once := " elementId(" + (a + " id(" + x) + ")" + ")";
    var twice := " elementId(" + a + " elementId(" + x + "))";
    assert |twice| == |once| + 7;
  }
}
