/** String helpers with the meaning ECMAScript gives them: the whitespace that
    `\s` matches and `String.prototype.trim` strips, `\d` without the `u` flag,
    `startsWith`, and `replace(/[^...]/g, '')` as a character filter. */
module JsString {

  /** The Indian rupee sign, U+20B9. */
  const RUPEE: char := '\U{20B9}'

  /** ECMAScript WhiteSpace and LineTerminator code points. */
  predicate IsWhitespace(c: char) {
    || ('\t' <= c <= '\r')          // tab, line feed, vertical tab, form feed, carriage return
    || c == ' ' || c == '\U{00A0}' || c == '\U{1680}'
    || ('\U{2000}' <= c <= '\U{200A}')
    || c == '\U{2028}' || c == '\U{2029}' || c == '\U{202F}' || c == '\U{205F}'
    || c == '\U{3000}' || c == '\U{FEFF}'
  }

  /** `\d`: the ASCII digits only. */
  predicate IsDigit(c: char) {
    '0' <= c <= '9'
  }

  predicate StartsWith(s: string, prefix: string) {
    |prefix| <= |s| && s[..|prefix|] == prefix
  }

  /** No whitespace at either end. */
  predicate IsTrimmed(s: string) {
    s == [] || (!IsWhitespace(s[0]) && !IsWhitespace(s[|s| - 1]))
  }

  /** `a` is obtained from `b` by deleting characters, keeping the order. */
  predicate IsSubsequence(a: string, b: string)
    decreases |b|
  {
    if a == [] then true
    else if b == [] then false
    else (a[0] == b[0] && IsSubsequence(a[1..], b[1..])) || IsSubsequence(a, b[1..])
  }

  lemma {:induction false} SliceIsSubsequence(s: string, i: nat, j: nat)
    requires i <= j <= |s|
    ensures IsSubsequence(s[i..j], s)
    decreases |s|
  {
    if i == j {
    } else if 0 < i {
      assert s[i..j] == s[1..][i - 1..j - 1] by {
        assert forall k :: 0 <= k < j - i ==> s[i..j][k] == s[1..][i - 1..j - 1][k];
      }
      SliceIsSubsequence(s[1..], i - 1, j - 1);
    } else {
      assert s[i..j][1..] == s[1..][0..j - 1];
      SliceIsSubsequence(s[1..], 0, j - 1);
    }
  }

  lemma {:induction false} SubsequenceTransitive(a: string, b: string, c: string)
    requires IsSubsequence(a, b) && IsSubsequence(b, c)
    ensures IsSubsequence(a, c)
    decreases |c|
  {
    if a == [] {
    } else if IsSubsequence(b, c[1..]) {
      SubsequenceTransitive(a, b, c[1..]);
    } else if a[0] == b[0] && IsSubsequence(a[1..], b[1..]) {
      SubsequenceTransitive(a[1..], b[1..], c[1..]);
    } else {
      SubsequenceTransitive(a, b[1..], c[1..]);
    }
  }

  /** Every character of a subsequence occurs in the longer string. */
  lemma {:induction false} SubsequenceMembers(a: string, b: string, i: nat)
    requires IsSubsequence(a, b) && i < |a|
    ensures a[i] in b
    decreases |b|
  {
    if a[0] == b[0] && IsSubsequence(a[1..], b[1..]) {
      if 0 < i {
        SubsequenceMembers(a[1..], b[1..], i - 1);
        assert a[i] == a[1..][i - 1];
      }
    } else {
      SubsequenceMembers(a, b[1..], i);
    }
    assert b == [b[0]] + b[1..];
  }

  lemma SubsequenceChars(a: string, b: string)
    requires IsSubsequence(a, b)
    ensures forall i :: 0 <= i < |a| ==> a[i] in b
  {
    forall i | 0 <= i < |a| ensures a[i] in b {
      SubsequenceMembers(a, b, i);
    }
  }

  /** `s` with every character that fails `keep` deleted. */
  function Keep(s: string, keep: char -> bool): (r: string)
    ensures |r| <= |s|
    ensures forall i :: 0 <= i < |r| ==> keep(r[i])
  {
    if s == [] then []
    else (if keep(s[0]) then [s[0]] else []) + Keep(s[1..], keep)
  }

  /** Filtering works character by character: it distributes over concatenation. */
  lemma {:induction false} KeepAppend(a: string, b: string, keep: char -> bool)
    ensures Keep(a + b, keep) == Keep(a, keep) + Keep(b, keep)
  {
    if a == [] {
      assert a + b == b;
    } else {
      assert (a + b)[0] == a[0] && (a + b)[1..] == a[1..] + b;
      KeepAppend(a[1..], b, keep);
    }
  }

  /** A string whose characters all pass is left as it is. */
  lemma {:induction false} KeepAll(s: string, keep: char -> bool)
    requires forall i :: 0 <= i < |s| ==> keep(s[i])
    ensures Keep(s, keep) == s
  {
    if s != [] {
      KeepAll(s[1..], keep);
    }
  }

  lemma KeepIdempotent(s: string, keep: char -> bool)
    ensures Keep(Keep(s, keep), keep) == Keep(s, keep)
  {
    KeepAll(Keep(s, keep), keep);
  }

  /** Filtering only deletes characters. */
  lemma {:induction false} KeepIsSubsequence(s: string, keep: char -> bool)
    ensures IsSubsequence(Keep(s, keep), s)
  {
    if s != [] {
      KeepIsSubsequence(s[1..], keep);
      var rest := Keep(s[1..], keep);
      if keep(s[0]) {
        assert Keep(s, keep) == [s[0]] + rest;
        assert ([s[0]] + rest)[1..] == rest;
      } else {
        assert Keep(s, keep) == rest;
      }
    }
  }

  /** Filtering keeps every occurrence of a character that passes. */
  lemma {:induction false} KeepCounts(s: string, keep: char -> bool, c: char)
    requires keep(c)
    ensures multiset(Keep(s, keep))[c] == multiset(s)[c]
  {
    if s != [] {
      KeepCounts(s[1..], keep, c);
      HeadCount(s, c);
      if keep(s[0]) {
        assert Keep(s, keep)[1..] == Keep(s[1..], keep);
        HeadCount(Keep(s, keep), c);
      }
    }
  }

  function TrimStart(s: string): (r: string)
    ensures |r| <= |s| && r == s[|s| - |r|..]
    ensures r == [] || !IsWhitespace(r[0])
  {
    if s != [] && IsWhitespace(s[0]) then TrimStart(s[1..]) else s
  }

  function TrimEnd(s: string): (r: string)
    ensures |r| <= |s| && r == s[..|r|]
    ensures r == [] || !IsWhitespace(r[|r| - 1])
  {
    if s != [] && IsWhitespace(s[|s| - 1]) then TrimEnd(s[..|s| - 1]) else s
  }

  /** `TrimStart` removes only whitespace. */
  lemma {:induction false} TrimStartRemovesWhitespace(s: string)
    ensures forall i :: 0 <= i < |s| - |TrimStart(s)| ==> IsWhitespace(s[i])
  {
    if s != [] && IsWhitespace(s[0]) {
      TrimStartRemovesWhitespace(s[1..]);
      forall i | 1 <= i < |s| - |TrimStart(s)| ensures IsWhitespace(s[i]) {
        assert s[i] == s[1..][i - 1];
      }
    }
  }

  /** `TrimEnd` removes only whitespace. */
  lemma {:induction false} TrimEndRemovesWhitespace(s: string)
    ensures forall i :: |TrimEnd(s)| <= i < |s| ==> IsWhitespace(s[i])
  {
    if s != [] && IsWhitespace(s[|s| - 1]) {
      TrimEndRemovesWhitespace(s[..|s| - 1]);
      forall i | |TrimEnd(s)| <= i < |s| - 1 ensures IsWhitespace(s[i]) {
        assert s[i] == s[..|s| - 1][i];
      }
    }
  }

  /** `String.prototype.trim`. */
  function Trim(s: string): (r: string)
    ensures IsTrimmed(r)
    ensures |r| <= |s|
  {
    TrimEnd(TrimStart(s))
  }

  /** `trim` deletes only leading and trailing whitespace: what remains is the
      piece `s[k..k + |Trim(s)|]` of the input, with nothing but whitespace around it. */
  lemma PrefixOfSuffix(s: string, k: nat, n: nat)
    requires k + n <= |s|
    ensures s[k..][..n] == s[k..k + n]
  {
  }

  lemma TrimIsSlice(s: string, k: nat)
    requires k == |s| - |TrimStart(s)|
    ensures k + |Trim(s)| <= |s|
    ensures Trim(s) == s[k..k + |Trim(s)|]
    ensures forall i :: 0 <= i < k ==> IsWhitespace(s[i])
    ensures forall i :: k + |Trim(s)| <= i < |s| ==> IsWhitespace(s[i])
  {
    TrimSlice(s, k);
    TrimMargins(s, k);
  }

  lemma TrimSlice(s: string, k: nat)
    requires k == |s| - |TrimStart(s)|
    ensures k + |Trim(s)| <= |s| && Trim(s) == s[k..k + |Trim(s)|]
  {
    SliceOfSuffix(s, TrimStart(s), TrimEnd(TrimStart(s)), k);
  }

  lemma TrimMargins(s: string, k: nat)
    requires k == |s| - |TrimStart(s)|
    ensures forall i :: 0 <= i < k ==> IsWhitespace(s[i])
    ensures forall i :: k + |Trim(s)| <= i < |s| ==> IsWhitespace(s[i])
  {
    TrimStartRemovesWhitespace(s);
    TrimEndRemovesWhitespace(TrimStart(s));
    ShiftedWhitespace(s, TrimStart(s), k, |Trim(s)|);
  }

  lemma SliceOfSuffix(s: string, t: string, r: string, k: nat)
    requires k <= |s| && t == s[k..] && |r| <= |t| && r == t[..|r|]
    ensures k + |r| <= |s| && r == s[k..k + |r|]
  {
    PrefixOfSuffix(s, k, |r|);
  }

  lemma ShiftedWhitespace(s: string, t: string, k: nat, n: nat)
    requires k <= |s| && t == s[k..] && n <= |t|
    requires forall j :: n <= j < |t| ==> IsWhitespace(t[j])
    ensures forall i :: k + n <= i < |s| ==> IsWhitespace(s[i])
  {
    forall i | k + n <= i < |s| ensures IsWhitespace(s[i]) {
      assert s[i] == t[i - k];
    }
  }

  /** Counting a character splits off the first or the last one. */
  lemma HeadCount(s: string, c: char)
    requires s != []
    ensures multiset(s)[c] == multiset(s[1..])[c] + (if s[0] == c then 1 else 0)
  {
    assert s == [s[0]] + s[1..];
  }

  lemma LastCount(s: string, c: char)
    requires s != []
    ensures multiset(s)[c] == multiset(s[..|s| - 1])[c] + (if s[|s| - 1] == c then 1 else 0)
  {
    assert s == s[..|s| - 1] + [s[|s| - 1]];
  }

  /** `trim` keeps every occurrence of a character that is not whitespace. */
  lemma {:induction false} TrimStartCounts(s: string, c: char)
    requires !IsWhitespace(c)
    ensures multiset(TrimStart(s))[c] == multiset(s)[c]
  {
    if s != [] && IsWhitespace(s[0]) {
      TrimStartCounts(s[1..], c);
      HeadCount(s, c);
    }
  }

  lemma {:induction false} TrimEndCounts(s: string, c: char)
    requires !IsWhitespace(c)
    ensures multiset(TrimEnd(s))[c] == multiset(s)[c]
  {
    if s != [] && IsWhitespace(s[|s| - 1]) {
      TrimEndCounts(s[..|s| - 1], c);
      LastCount(s, c);
    }
  }

  lemma TrimCounts(s: string, c: char)
    requires !IsWhitespace(c)
    ensures multiset(Trim(s))[c] == multiset(s)[c]
  {
    TrimStartCounts(s, c);
    TrimEndCounts(TrimStart(s), c);
  }

  lemma TrimIsSubsequence(s: string)
    ensures IsSubsequence(Trim(s), s)
  {
    var k := |s| - |TrimStart(s)|;
    TrimSlice(s, k);
    SliceIsSubsequence(s, k, k + |Trim(s)|);
  }

  lemma TrimOfTrimmed(s: string)
    requires IsTrimmed(s)
    ensures Trim(s) == s
  {
  }
}
