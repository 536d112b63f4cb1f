/**
 * String helpers the budget tracker relies on: `String.prototype.trim`, which
 * every form field goes through, and the ordering used to sort ISO dates.
 */
module Text {

  /**
   * The characters `trim` removes: ECMAScript's WhiteSpace (tab, vertical tab,
   * form feed, space, no-break space, the byte order mark and every other
   * Unicode "Zs" space) and its LineTerminator set (LF, CR, LS, PS).
   */
  predicate IsWhitespace(c: char) {
    || c == '\t' || c == '\U{000B}' || c == '\U{000C}' || c == ' '
    || c == '\U{00A0}' || c == '\U{FEFF}' || c == '\U{1680}'
    || ('\U{2000}' <= c <= '\U{200A}')
    || c == '\U{202F}' || c == '\U{205F}' || c == '\U{3000}'
    || c == '\n' || c == '\r' || c == '\U{2028}' || c == '\U{2029}'
  }

  /** `s` with its leading whitespace removed. */
  function TrimStart(s: string): string {
    if s != [] && IsWhitespace(s[0]) then TrimStart(s[1..]) else s
  }

  /** `s` with its trailing whitespace removed. */
  function TrimEnd(s: string): string {
    if s != [] && IsWhitespace(s[|s| - 1]) then TrimEnd(s[..|s| - 1]) else s
  }

  /** `String.prototype.trim`. */
  function Trim(s: string): string {
    TrimEnd(TrimStart(s))
  }

  /** `TrimStart` yields the suffix after the leading whitespace. */
  lemma {:induction false} TrimStartSpec(s: string)
    ensures var r := TrimStart(s);
      && |r| <= |s| && r == s[|s| - |r|..]
      && (r == [] || !IsWhitespace(r[0]))
      && (forall i :: 0 <= i < |s| - |r| ==> IsWhitespace(s[i]))
  {
    if s != [] && IsWhitespace(s[0]) {
      TrimStartSpec(s[1..]);
      var r := TrimStart(s[1..]);
      assert forall i :: 1 <= i < |s| - |r| ==> s[i] == s[1..][i - 1];
    }
  }

  /** `TrimEnd` yields the prefix before the trailing whitespace. */
  lemma {:induction false} TrimEndSpec(s: string)
    ensures var r := TrimEnd(s);
      && |r| <= |s| && r == s[..|r|]
      && (r == [] || !IsWhitespace(r[|r| - 1]))
      && (forall i :: |r| <= i < |s| ==> IsWhitespace(s[i]))
  {
    if s != [] && IsWhitespace(s[|s| - 1]) {
      TrimEndSpec(s[..|s| - 1]);
      var r := TrimEnd(s[..|s| - 1]);
      assert forall i :: |r| <= i < |s| - 1 ==> s[i] == s[..|s| - 1][i];
    }
  }

  /** The trimmed string is an infix of `s`, starting where `TrimStart` starts. */
  lemma TrimIsInfix(s: string)
    ensures var k := |s| - |TrimStart(s)|;
      0 <= k && k + |Trim(s)| <= |s| && Trim(s) == s[k..k + |Trim(s)|]
  {
    var t := TrimStart(s);
    TrimStartSpec(s);
    TrimEndSpec(t);
    var k := |s| - |t|;
    assert t == s[k..];
    assert Trim(s) == t[..|Trim(s)|];
  }

  /** Only whitespace lies outside that infix. */
  lemma TrimDropsWhitespace(s: string)
    ensures var k := |s| - |TrimStart(s)|;
      && 0 <= k && k + |Trim(s)| <= |s|
      && (forall i :: 0 <= i < k ==> IsWhitespace(s[i]))
      && (forall i :: k + |Trim(s)| <= i < |s| ==> IsWhitespace(s[i]))
  {
    var t := TrimStart(s);
    TrimStartSpec(s);
    TrimEndSpec(t);
    var n := |TrimEnd(t)|;
    var k := |s| - |t|;
    forall i | k + n <= i < |s| ensures IsWhitespace(s[i]) {
      assert s[i] == t[i - k];
    }
  }

  /** Nothing is left to trim at either end. */
  lemma TrimEnds(s: string)
    ensures Trim(s) == [] || (!IsWhitespace(Trim(s)[0]) && !IsWhitespace(Trim(s)[|Trim(s)| - 1]))
  {
    var t := TrimStart(s);
    TrimStartSpec(s);
    TrimEndSpec(t);
    var r := TrimEnd(t);
    assert r != [] ==> r[0] == t[0];
  }

  /**
   * A trimmed string is empty exactly when the input is blank, which is how
   * the forms' `if (!category)` test rejects a category of spaces.
   */
  lemma TrimBlank(s: string)
    ensures Trim(s) == [] <==> forall i :: 0 <= i < |s| ==> IsWhitespace(s[i])
  {
    TrimIsInfix(s);
    TrimDropsWhitespace(s);
    TrimEnds(s);
    var k := |s| - |TrimStart(s)|;
    if Trim(s) != [] {
      assert s[k] == Trim(s)[0];
    }
  }

  /** Trimming a trimmed string changes nothing. */
  lemma TrimIdempotent(s: string)
    ensures Trim(Trim(s)) == Trim(s)
  {
    var r := Trim(s);
    TrimEnds(s);
    assert TrimStart(r) == r;
    assert TrimEnd(r) == r;
  }

  /**
   * Code-point lexicographic order. The dates being compared are ISO 8601
   * `YYYY-MM-DD` strings, on which this order is chronological order.
   */
  predicate LexLe(a: string, b: string) {
    a == [] || (b != [] && (a[0] < b[0] || (a[0] == b[0] && LexLe(a[1..], b[1..]))))
  }

  lemma {:induction false} LexLeTotal(a: string, b: string)
    ensures LexLe(a, b) || LexLe(b, a)
  {
    if a != [] && b != [] && a[0] == b[0] {
      LexLeTotal(a[1..], b[1..]);
    }
  }

  lemma {:induction false} LexLeTransitive(a: string, b: string, c: string)
    requires LexLe(a, b) && LexLe(b, c)
    ensures LexLe(a, c)
  {
    if a != [] && a[0] == b[0] && b[0] == c[0] {
      LexLeTransitive(a[1..], b[1..], c[1..]);
    }
  }

  lemma {:induction false} LexLeAntisymmetric(a: string, b: string)
    requires LexLe(a, b) && LexLe(b, a)
    ensures a == b
  {
    if a != [] && b != [] {
      LexLeAntisymmetric(a[1..], b[1..]);
      assert a == [a[0]] + a[1..] && b == [b[0]] + b[1..];
    }
  }
}
