/**
 * The string primitives the controller relies on: `String.prototype.trim`,
 * `String.prototype.toLowerCase` (ASCII letters only) and the relational
 * operator `<` on strings.
 */
module Text {

  /** The characters `trim` removes: ECMAScript WhiteSpace and LineTerminator. */
  predicate IsSpace(c: char) {
    if c < '\U{00A0}' then ('\U{0009}' <= c <= '\U{000D}') || c == ' '   // tab, line feed, vertical tab, form feed, carriage return, space
    else if c < '\U{2000}' then c == '\U{00A0}' || c == '\U{1680}'
    else if c <= '\U{200A}' then true                                      // en quad through hair space
    else c == '\U{2028}' || c == '\U{2029}' || c == '\U{202F}' || c == '\U{205F}' || c == '\U{3000}' || c == '\U{FEFF}'
  }

  ghost predicate AllSpace(s: string) {
    forall i :: 0 <= i < |s| ==> IsSpace(s[i])
  }

  /** Every character of `s` is whitespace (so the empty string is blank). */
  predicate Blank(s: string)
    decreases |s|
  {
    s == [] || (IsSpace(s[0]) && Blank(s[1..]))
  }

  lemma {:induction false} BlankIsAllSpace(s: string)
    ensures Blank(s) <==> AllSpace(s)
    decreases |s|
  {
    if s != [] {
      BlankIsAllSpace(s[1..]);
      assert forall i :: 0 < i < |s| ==> s[1..][i - 1] == s[i];
    }
  }

  /** Neither end of `s` is a whitespace character. */
  predicate Clean(s: string) {
    s == [] || (!IsSpace(s[0]) && !IsSpace(s[|s| - 1]))
  }

  /** The first position at or after `i` that does not hold whitespace (`|s|` when there is none). */
  function SkipSpaces(s: string, i: nat): (k: nat)
    requires i <= |s|
    ensures i <= k <= |s|
    ensures forall j :: i <= j < k ==> IsSpace(s[j])
    ensures k == |s| || !IsSpace(s[k])
    decreases |s| - i
  {
    if i == |s| || !IsSpace(s[i]) then i else SkipSpaces(s, i + 1)
  }

  /** The end of `s[lo..j]` once its trailing whitespace is dropped. */
  function SkipSpacesBack(s: string, lo: nat, j: nat): (k: nat)
    requires lo <= j <= |s|
    ensures lo <= k <= j
    ensures forall m :: k <= m < j ==> IsSpace(s[m])
    ensures k == lo || !IsSpace(s[k - 1])
    decreases j - lo
  {
    if j == lo || !IsSpace(s[j - 1]) then j else SkipSpacesBack(s, lo, j - 1)
  }

  /** `s.trim()`: the slice of `s` between its leading and its trailing whitespace. */
  function Trim(s: string): (r: string)
    ensures |r| <= |s| && Clean(r)
    ensures Clean(s) ==> r == s
  {
    var a := SkipSpaces(s, 0);
    s[a..SkipSpacesBack(s, a, |s|)]
  }

  /** `trim` yields the empty string exactly when the input is all whitespace. */
  lemma TrimEmptyIffBlank(s: string)
    ensures Trim(s) == [] <==> AllSpace(s)
    ensures Trim(s) == [] <==> Blank(s)
  {
    BlankIsAllSpace(s);
    var a := SkipSpaces(s, 0);
    if a < |s| {
      assert !IsSpace(s[a]);
      assert SkipSpacesBack(s, a, |s|) > a;
    }
  }

  /**
   * `trim` is determined by where the kept slice starts and ends: whitespace
   * before `a`, whitespace from `b` on, and a slice with no whitespace at
   * either end.
   */
  lemma TrimUnique(s: string, a: nat, b: nat)
    requires a <= b <= |s|
    requires AllSpace(s[..a]) && AllSpace(s[b..]) && Clean(s[a..b])
    ensures Trim(s) == s[a..b]
  {
    if a == b {
      assert forall i :: 0 <= i < |s| ==> IsSpace(s[i]) by {
        forall i | 0 <= i < |s| ensures IsSpace(s[i]) {
          if i < a { assert s[..a][i] == s[i]; } else { assert s[b..][i - b] == s[i]; }
        }
      }
      TrimEmptyIffBlank(s);
    } else {
      assert s[a] == s[a..b][0] && s[b - 1] == s[a..b][b - a - 1];
      assert forall i :: 0 <= i < a ==> s[..a][i] == s[i];
      assert forall i :: b <= i < |s| ==> s[b..][i - b] == s[i];
      assert SkipSpaces(s, 0) == a;
      assert SkipSpacesBack(s, a, |s|) == b;
    }
  }

  /** Trimming twice is trimming once. */
  lemma TrimIdempotent(s: string)
    ensures Trim(Trim(s)) == Trim(s)
  {
  }

  /**
   * `Trim(s)` is the slice of `s` between `a` and `a + |Trim(s)|`, and every
   * character outside that slice is whitespace.
   */
  lemma TrimSlice(s: string) returns (a: nat)
    ensures a + |Trim(s)| <= |s|
    ensures Trim(s) == s[a..a + |Trim(s)|]
    ensures AllSpace(s[..a]) && AllSpace(s[a + |Trim(s)|..])
  {
    a := SkipSpaces(s, 0);
  }

  /** Joining two trimmed words with a space and trimming again, as a template literal and `trim` do. */
  lemma JoinTrimmed(b: string, s: string)
    requires Clean(b) && Clean(s)
    ensures Trim(b + " " + s) == if b == "" then s else if s == "" then b else b + " " + s
  {
    var x := b + " " + s;
    if b == "" {
      assert x == " " + s;
      assert SkipSpaces(x, 0) == SkipSpaces(x, 1) == 1;
      assert SkipSpacesBack(x, 1, |x|) == |x|;
      assert x[1..] == s;
    } else if s == "" {
      assert x == b + " ";
      assert SkipSpaces(x, 0) == 0;
      assert SkipSpacesBack(x, 0, |x|) == SkipSpacesBack(x, 0, |b|) == |b|;
      assert x[..|b|] == b;
    } else {
      assert Clean(x);
    }
  }

  /** The ASCII part of `toLowerCase`. */
  function LowerChar(c: char): char {
    if 'A' <= c <= 'Z' then (c as int + 32) as char else c
  }

  function Lower(s: string): (r: string)
    ensures |r| == |s|
    ensures forall i :: 0 <= i < |s| ==> r[i] == LowerChar(s[i])
  {
    if s == [] then [] else [LowerChar(s[0])] + Lower(s[1..])
  }

  /** Lower-casing never turns a character into whitespace or whitespace into something else. */
  lemma LowerKeepsClean(s: string)
    requires Clean(s)
    ensures Clean(Lower(s))
  {
  }

  /** Lower-casing is idempotent, so comparing lower-cased strings ignores case. */
  lemma LowerIdempotent(s: string)
    ensures Lower(Lower(s)) == Lower(s)
  {
  }

  /** The relational `<` on strings: lexicographic order of characters, a proper prefix first. */
  predicate Less(a: string, b: string)
    decreases |a|
  {
    if b == [] then false
    else if a == [] then true
    else if a[0] != b[0] then a[0] < b[0]
    else Less(a[1..], b[1..])
  }

  /** Strings that agree up to position `k` and differ there are ordered by that character. */
  lemma {:induction false} LessAt(a: string, b: string, k: nat)
    requires k < |a| && k < |b| && a[..k] == b[..k] && a[k] < b[k]
    ensures Less(a, b)
    decreases k
  {
    if k > 0 {
      assert a[0] == a[..k][0] == b[..k][0] == b[0];
      assert a[1..][..k - 1] == a[..k][1..] == b[..k][1..] == b[1..][..k - 1];
      LessAt(a[1..], b[1..], k - 1);
    }
  }

  lemma {:induction false} LessIrreflexive(a: string)
    ensures !Less(a, a)
    decreases |a|
  {
    if a != [] {
      LessIrreflexive(a[1..]);
    }
  }

  /** Any two distinct strings are ordered one way or the other. */
  lemma {:induction false} LessTotal(a: string, b: string)
    ensures a == b || Less(a, b) || Less(b, a)
    decreases |a|
  {
    if a != [] && b != [] && a[0] == b[0] {
      LessTotal(a[1..], b[1..]);
      if a[1..] == b[1..] {
        assert a == [a[0]] + a[1..] && b == [b[0]] + b[1..];
      }
    }
  }

  lemma {:induction false} LessTransitive(a: string, b: string, c: string)
    requires Less(a, b) && Less(b, c)
    ensures Less(a, c)
    decreases |a|
  {
    if a != [] && a[0] == b[0] && b[0] == c[0] {
      LessTransitive(a[1..], b[1..], c[1..]);
    }
  }

  /** "Not earlier than" is "the same or later": `!(b < a)` means `a == b || a < b`. */
  lemma NotLessIsAtLeast(a: string, b: string)
    ensures !Less(b, a) <==> (a == b || Less(a, b))
  {
    LessTotal(a, b);
    LessIrreflexive(a);
    if Less(a, b) && Less(b, a) {
      LessTransitive(a, b, a);
    }
  }
}
