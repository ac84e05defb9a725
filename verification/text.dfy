/**
 * The string operations the ingestion and metrics code relies on:
 * `strings.TrimSpace`, `strings.ToLower` and `strings.EqualFold`.
 * Whitespace is Go's `unicode.IsSpace`; case mapping covers ASCII letters.
 */
module Text {

  /** The characters `unicode.IsSpace` accepts. */
  predicate IsSpace(c: char) {
    || c == ' ' || c == '\t' || c == '\n' || c == '\U{000B}' || c == '\U{000C}' || c == '\r'
    || c == '\U{0085}' || c == '\U{00A0}' || c == '\U{1680}'
    || ('\U{2000}' <= c <= '\U{200A}')
    || c == '\U{2028}' || c == '\U{2029}' || c == '\U{202F}' || c == '\U{205F}' || c == '\U{3000}'
  }

  /** Drops every leading whitespace character. */
  function TrimLeft(s: string): (r: string)
    ensures |r| <= |s| && r == s[|s| - |r|..]
    ensures r == [] || !IsSpace(r[0])
  {
    if |s| > 0 && IsSpace(s[0]) then TrimLeft(s[1..]) else s
  }

  /** What `TrimLeft` drops is whitespace. */
  lemma {:induction false} TrimLeftDropsSpace(s: string)
    ensures forall i :: 0 <= i < |s| - |TrimLeft(s)| ==> IsSpace(s[i])
  {
    if |s| > 0 && IsSpace(s[0]) {
      TrimLeftDropsSpace(s[1..]);
    }
  }

  /** Drops every trailing whitespace character. */
  function TrimRight(s: string): (r: string)
    ensures |r| <= |s| && r == s[..|r|]
    ensures r == [] || !IsSpace(r[|r| - 1])
  {
    if |s| > 0 && IsSpace(s[|s| - 1]) then TrimRight(s[..|s| - 1]) else s
  }

  /** What `TrimRight` drops is whitespace. */
  lemma {:induction false} TrimRightDropsSpace(s: string)
    ensures forall i :: |TrimRight(s)| <= i < |s| ==> IsSpace(s[i])
  {
    if |s| > 0 && IsSpace(s[|s| - 1]) {
      TrimRightDropsSpace(s[..|s| - 1]);
    }
  }

  /** `strings.TrimSpace`: the longest infix of `s` that neither starts nor ends with whitespace. */
  function TrimSpace(s: string): (r: string)
    ensures r == [] || (!IsSpace(r[0]) && !IsSpace(r[|r| - 1]))
  {
    TrimRight(TrimLeft(s))
  }

  /** `TrimSpace` cuts a run of whitespace from each end and nothing else. */
  lemma TrimSpaceIsInfix(s: string)
    ensures exists i, j ::
              && 0 <= i <= j <= |s| && TrimSpace(s) == s[i..j]
              && (forall k :: 0 <= k < i ==> IsSpace(s[k]))
              && (forall k :: j <= k < |s| ==> IsSpace(s[k]))
  {
    var l := TrimLeft(s);
    var r := TrimRight(l);
    TrimLeftDropsSpace(s);
    TrimRightDropsSpace(l);
    assert r == s[|s| - |l|..|s| - |l| + |r|];
  }

  function LowerChar(c: char): (d: char)
    ensures 'A' <= c <= 'Z' ==> 'a' <= d <= 'z' && d as int - c as int == 32
    ensures !('A' <= c <= 'Z') ==> d == c
  {
    if 'A' <= c <= 'Z' then (c as int + 32) as char else c
  }

  /** `strings.ToLower`, character by character. */
  function ToLower(s: string): (r: string)
    ensures |r| == |s|
  {
    if s == [] then [] else [LowerChar(s[0])] + ToLower(s[1..])
  }

  /** `ToLower` maps each character through `LowerChar`. */
  lemma {:induction false} ToLowerAt(s: string, i: int)
    requires 0 <= i < |s|
    ensures ToLower(s)[i] == LowerChar(s[i])
  {
    if i > 0 {
      ToLowerAt(s[1..], i - 1);
    }
  }

  /** `strings.EqualFold`: walks both strings in step, comparing folded characters. */
  function EqualFold(a: string, b: string): bool {
    if a == [] || b == [] then a == b
    else LowerChar(a[0]) == LowerChar(b[0]) && EqualFold(a[1..], b[1..])
  }

  /** A field as ingestion stores it: trimmed and lower-cased. */
  predicate IsNormalized(s: string) {
    TrimSpace(s) == s && ToLower(s) == s
  }

  /** The normalisation ingestion applies to channels, stages and UTM fields. */
  function Normalize(s: string): string {
    ToLower(TrimSpace(s))
  }

  /** Folding characters one at a time agrees with comparing the lower-cased strings. */
  lemma {:induction false} EqualFoldIffLowerEqual(a: string, b: string)
    ensures EqualFold(a, b) <==> ToLower(a) == ToLower(b)
  {
    if a == [] || b == [] {
    } else {
      EqualFoldIffLowerEqual(a[1..], b[1..]);
      assert ToLower(a) == [LowerChar(a[0])] + ToLower(a[1..]);
      assert ToLower(b) == [LowerChar(b[0])] + ToLower(b[1..]);
      SplitHeadEquality(LowerChar(a[0]), LowerChar(b[0]), ToLower(a[1..]), ToLower(b[1..]));
    }
  }

  lemma SplitHeadEquality<T>(x: T, y: T, s: seq<T>, t: seq<T>)
    ensures [x] + s == [y] + t <==> x == y && s == t
  {
    if [x] + s == [y] + t {
      assert x == ([x] + s)[0];
      assert s == ([x] + s)[1..];
      assert t == ([y] + t)[1..];
    }
  }

  lemma LowerCharIdempotent(c: char)
    ensures LowerChar(LowerChar(c)) == LowerChar(c)
    ensures IsSpace(LowerChar(c)) <==> IsSpace(c)
  {
  }

  lemma TrimOfUntrimmable(s: string)
    requires s == [] || (!IsSpace(s[0]) && !IsSpace(s[|s| - 1]))
    ensures TrimSpace(s) == s
  {
  }

  lemma TrimSpaceIdempotent(s: string)
    ensures TrimSpace(TrimSpace(s)) == TrimSpace(s)
  {
    TrimOfUntrimmable(TrimSpace(s));
  }

  /** Normalising a field yields a stored-form field, and changes it only by case and outer whitespace. */
  lemma NormalizeIsNormalized(s: string)
    ensures IsNormalized(Normalize(s))
    ensures EqualFold(Normalize(s), TrimSpace(s))
    ensures Normalize(Normalize(s)) == Normalize(s)
  {
    var t := TrimSpace(s);
    var n := ToLower(t);
    if n != [] {
      ToLowerAt(t, 0);
      ToLowerAt(t, |t| - 1);
      LowerCharIdempotent(t[0]);
      LowerCharIdempotent(t[|t| - 1]);
    }
    TrimOfUntrimmable(n);
    ToLowerIdempotent(t);
    EqualFoldIffLowerEqual(n, t);
  }

  /** Text with no upper-case ASCII letter is its own lower-case form. */
  lemma {:induction false} ToLowerOfLower(s: string)
    requires forall i :: 0 <= i < |s| ==> !('A' <= s[i] <= 'Z')
    ensures ToLower(s) == s
  {
    if s != [] {
      ToLowerOfLower(s[1..]);
    }
  }

  /** Lower-casing lower-cased text changes nothing. */
  lemma ToLowerIdempotent(s: string)
    ensures ToLower(ToLower(s)) == ToLower(s)
  {
    var l := ToLower(s);
    forall i | 0 <= i < |l| ensures !('A' <= l[i] <= 'Z') {
      ToLowerAt(s, i);
    }
    ToLowerOfLower(l);
  }

  /** A normalised string folds to the same string as exactly its lower-cased, trimmed variants. */
  lemma EqualFoldNormalized(a: string, b: string)
    ensures IsNormalized(b) ==> (EqualFold(a, b) <==> ToLower(a) == b)
  {
    EqualFoldIffLowerEqual(a, b);
  }
}
