/** JavaScript strings as the form sees them: sequences of UTF-16 code units,
    with `String.prototype.trim` and the whitespace class shared by `trim` and
    the regular-expression escape `\s`. */
module JsText {

  /** One UTF-16 code unit. A JavaScript string's `length` counts these, so a
      character outside the Basic Multilingual Plane counts twice. */
  newtype CodeUnit = x: int | 0 <= x < 0x1_0000

  type JsString = seq<CodeUnit>

  /** WhiteSpace (section 12.2 of ECMA-262) and LineTerminator (section 12.3):
      the set removed by `trim` and matched by `\s`. */
  predicate IsWs(c: CodeUnit) {
    // WhiteSpace: TAB, VT, FF, ZWNBSP
    || c == 0x09 || c == 0x0B || c == 0x0C || c == 0xFEFF
    // WhiteSpace: the Space_Separator (Zs) category
    || c == 0x20 || c == 0xA0 || c == 0x1680 || (0x2000 <= c <= 0x200A)
    || c == 0x202F || c == 0x205F || c == 0x3000
    // LineTerminator: LF, CR, LINE SEPARATOR, PARAGRAPH SEPARATOR
    || c == 0x0A || c == 0x0D || c == 0x2028 || c == 0x2029
  }

  predicate AllWs(s: JsString) {
    forall i :: 0 <= i < |s| ==> IsWs(s[i])
  }

  /** The number of whitespace code units that `trim` removes from the front. */
  function LeadingWs(s: JsString): (n: nat)
    ensures n <= |s|
    ensures forall i :: 0 <= i < n ==> IsWs(s[i])
    ensures n < |s| ==> !IsWs(s[n])
  {
    if s == [] || !IsWs(s[0]) then 0 else 1 + LeadingWs(s[1..])
  }

  /** The number of whitespace code units that `trim` removes from the back. */
  function TrailingWs(s: JsString): (n: nat)
    ensures n <= |s|
    ensures forall i :: |s| - n <= i < |s| ==> IsWs(s[i])
    ensures n < |s| ==> !IsWs(s[|s| - 1 - n])
  {
    if s == [] || !IsWs(s[|s| - 1]) then 0 else 1 + TrailingWs(s[..|s| - 1])
  }

  /** `s.trim()`: the longest infix of `s` that neither starts nor ends with
      whitespace, everything around it being whitespace. */
  function Trim(s: JsString): (t: JsString)
    ensures |t| <= |s|
    ensures t == [] || (!IsWs(t[0]) && !IsWs(t[|t| - 1]))
    ensures LeadingWs(s) + |t| <= |s| && t == s[LeadingWs(s)..LeadingWs(s) + |t|]
    ensures forall i :: 0 <= i < LeadingWs(s) ==> IsWs(s[i])
    ensures forall i :: LeadingWs(s) + |t| <= i < |s| ==> IsWs(s[i])
    ensures t == [] <==> AllWs(s)
  {
    var rest := s[LeadingWs(s)..];
    rest[..|rest| - TrailingWs(rest)]
  }

  /** Trimming twice is trimming once. */
  lemma TrimIdempotent(s: JsString)
    ensures Trim(Trim(s)) == Trim(s)
  {
    var t := Trim(s);
    assert t[0..|t|] == t;
    TrimIs(t, 0, t);
  }

  /** A string that neither starts nor ends with whitespace is left alone. */
  lemma TrimOfTrimmed(s: JsString)
    requires s == [] || (!IsWs(s[0]) && !IsWs(s[|s| - 1]))
    ensures Trim(s) == s
  {
    assert s[0..|s|] == s;
    TrimIs(s, 0, s);
  }

  /** Trim is pinned down by its contract: whitespace around an infix that
      neither starts nor ends with whitespace is exactly what it removes. */
  lemma TrimIs(s: JsString, a: nat, t: JsString)
    requires a + |t| <= |s| && s[a..a + |t|] == t
    requires t == [] || (!IsWs(t[0]) && !IsWs(t[|t| - 1]))
    requires forall i :: 0 <= i < a ==> IsWs(s[i])
    requires forall i :: a + |t| <= i < |s| ==> IsWs(s[i])
    ensures Trim(s) == t
  {
    if t == [] {
      assert AllWs(s);
    } else {
      assert s[a] == t[0];
      LeadingWsIs(s, a);
      var rest := s[a..];
      assert rest[|rest| - 1 - (|rest| - |t|)] == t[|t| - 1];
      TrailingWsIs(rest, |rest| - |t|);
      assert rest[..|t|] == t;
    }
  }

  /** Padding a value with whitespace on either side does not change its trim. */
  lemma TrimIgnoresPadding(pre: JsString, s: JsString, post: JsString)
    requires AllWs(pre) && AllWs(post)
    ensures Trim(pre + s + post) == Trim(s)
  {
    var w := pre + s + post;
    var t := Trim(s);
    var a := LeadingWs(s);
    PaddedAt(pre, s, post);
    assert w[|pre| + a..|pre| + a + |t|] == t by {
      forall k | 0 <= k < |t| ensures w[|pre| + a + k] == t[k] {
        assert t[k] == s[a + k];
      }
    }
    TrimIs(w, |pre| + a, t);
  }

  /** Where each part of pre + s + post sits, and that the padding is whitespace. */
  lemma PaddedAt(pre: JsString, s: JsString, post: JsString)
    requires AllWs(pre) && AllWs(post)
    ensures forall i :: 0 <= i < |s| ==> (pre + s + post)[|pre| + i] == s[i]
    ensures forall i :: 0 <= i < |pre| ==> IsWs((pre + s + post)[i])
    ensures forall i :: |pre| + |s| <= i < |pre| + |s| + |post| ==> IsWs((pre + s + post)[i])
  {
    var w := pre + s + post;
    forall i | |pre| + |s| <= i < |w| ensures IsWs(w[i]) {
      assert w[i] == post[i - |pre| - |s|];
    }
  }

  /** LeadingWs is determined by where the first non-whitespace code unit is. */
  lemma LeadingWsIs(s: JsString, n: nat)
    requires n < |s| && !IsWs(s[n])
    requires forall i :: 0 <= i < n ==> IsWs(s[i])
    ensures LeadingWs(s) == n
  {
  }

  /** TrailingWs is determined by where the last non-whitespace code unit is. */
  lemma TrailingWsIs(s: JsString, n: nat)
    requires n < |s| && !IsWs(s[|s| - 1 - n])
    requires forall i :: |s| - n <= i < |s| ==> IsWs(s[i])
    ensures TrailingWs(s) == n
  {
  }
}
