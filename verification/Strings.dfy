/** The members of .NET's System.String and System.Char that the client relies
    on, with their ordinal (culture-independent) semantics. Case folding is
    modelled for ASCII letters only. */
module Strings {
  import opened Wrappers

  /** char.IsWhiteSpace: U+0009..U+000D, U+0085, and the space, line and
      paragraph separators of the Unicode character database. */
  predicate IsWhiteSpace(c: char) {
    || ('\t' <= c <= '\r') || c == ' ' || c == '\U{85}' || c == '\U{A0}'
    || c == '\U{1680}' || ('\U{2000}' <= c <= '\U{200A}') || c == '\U{2028}'
    || c == '\U{2029}' || c == '\U{202F}' || c == '\U{205F}' || c == '\U{3000}'
  }

  /** Every character is white space (true of the empty string). */
  predicate IsBlank(s: string) {
    forall i :: 0 <= i < |s| ==> IsWhiteSpace(s[i])
  }

  /** string.IsNullOrWhiteSpace. */
  predicate IsNullOrWhiteSpace(s: Option<string>) {
    s.None? || IsBlank(s.value)
  }

  /** string.TrimStart(): drops the leading white space. */
  function TrimStart(s: string): (r: string)
    ensures |r| <= |s| && r == s[|s| - |r|..]
    ensures forall i :: 0 <= i < |s| - |r| ==> IsWhiteSpace(s[i])
    ensures r == [] || !IsWhiteSpace(r[0])
  {
    if s != [] && IsWhiteSpace(s[0]) then TrimStart(s[1..]) else s
  }

  /** string.TrimEnd(): drops the trailing white space. */
  function TrimEnd(s: string): (r: string)
    ensures |r| <= |s| && r == s[..|r|]
    ensures forall i :: |r| <= i < |s| ==> IsWhiteSpace(s[i])
    ensures r == [] || !IsWhiteSpace(r[|r| - 1])
  {
    if s != [] && IsWhiteSpace(s[|s| - 1]) then TrimEnd(s[..|s| - 1]) else s
  }

  /** string.Trim(). */
  function Trim(s: string): string {
    TrimEnd(TrimStart(s))
  }

  /** Trimming empties exactly the blank strings, so "blank after Trim" and
      "blank" are the same test. */
  lemma TrimBlank(s: string)
    ensures Trim(s) == [] <==> IsBlank(s)
    ensures IsBlank(Trim(s)) <==> IsBlank(s)
  {
    var t := TrimStart(s);
    if !IsBlank(s) {
      var k :| 0 <= k < |s| && !IsWhiteSpace(s[k]);
      assert |s| - |t| <= k;
      assert t[k - (|s| - |t|)] == s[k];
      assert Trim(s) != [];
    }
    if Trim(s) != [] {
      assert Trim(s)[0] == t[0];
    }
  }

  /** string.TrimEnd(c): drops every trailing occurrence of one character. */
  function TrimEndChar(s: string, c: char): (r: string)
    ensures |r| <= |s| && r == s[..|r|]
    ensures forall i :: |r| <= i < |s| ==> s[i] == c
    ensures r == [] || r[|r| - 1] != c
  {
    if s != [] && s[|s| - 1] == c then TrimEndChar(s[..|s| - 1], c) else s
  }

  /** char.ToLowerInvariant, for ASCII letters. */
  function LowerChar(c: char): char {
    if 'A' <= c <= 'Z' then (c as int + 32) as char else c
  }

  /** string.ToLowerInvariant, for ASCII letters. */
  function ToLower(s: string): (r: string)
    ensures |r| == |s|
    ensures forall i :: 0 <= i < |s| ==> r[i] == LowerChar(s[i])
  {
    if s == [] then [] else [LowerChar(s[0])] + ToLower(s[1..])
  }

  /** string.Equals(a, b, StringComparison.OrdinalIgnoreCase): equal
      lengths and equal characters once folded. */
  predicate EqualsIgnoreCase(a: string, b: string) {
    |a| == |b| && forall i :: 0 <= i < |a| ==> LowerChar(a[i]) == LowerChar(b[i])
  }

  /** Comparing ignoring case is comparing the lower-case forms. */
  lemma EqualsIgnoreCaseLower(a: string, b: string)
    ensures EqualsIgnoreCase(a, b) <==> ToLower(a) == ToLower(b)
  {
    if ToLower(a) == ToLower(b) {
      assert forall i :: 0 <= i < |a| ==> LowerChar(a[i]) == ToLower(a)[i];
    }
  }

  /** s.StartsWith(p, StringComparison.OrdinalIgnoreCase). */
  predicate StartsWithIgnoreCase(s: string, p: string) {
    |p| <= |s| && EqualsIgnoreCase(s[..|p|], p)
  }

  predicate IsPrefix(p: string, s: string) {
    |p| <= |s| && s[..|p|] == p
  }

  /** string.Contains(t), ordinal. */
  predicate Contains(s: string, t: string)
    decreases |s|
  {
    IsPrefix(t, s) || (s != [] && Contains(s[1..], t))
  }

  /** The number of occurrences string.Replace finds: leftmost first, never
      overlapping. */
  function Occurrences(s: string, pat: string): nat
    requires pat != []
    decreases |s|
  {
    if |s| < |pat| then 0
    else if s[..|pat|] == pat then 1 + Occurrences(s[|pat|..], pat)
    else Occurrences(s[1..], pat)
  }

  /** string.Replace(pat, rep), ordinal: scans left to right, replacing each
      occurrence and resuming after it; the replacement is never rescanned. */
  function ReplaceAll(s: string, pat: string, rep: string): string
    requires pat != []
    decreases |s|
  {
    if |s| < |pat| then s
    else if s[..|pat|] == pat then rep + ReplaceAll(s[|pat|..], pat, rep)
    else [s[0]] + ReplaceAll(s[1..], pat, rep)
  }

  /** Each occurrence changes the length by |rep| - |pat|. */
  lemma {:induction false} ReplaceAllLength(s: string, pat: string, rep: string)
    requires pat != []
    ensures |ReplaceAll(s, pat, rep)| == |s| + Occurrences(s, pat) * (|rep| - |pat|)
    decreases |s|
  {
    if |s| < |pat| {
    } else if s[..|pat|] == pat {
      var rest := s[|pat|..];
      ReplaceAllLength(rest, pat, rep);
      assert ReplaceAll(s, pat, rep) == rep + ReplaceAll(rest, pat, rep);
      assert Occurrences(s, pat) == 1 + Occurrences(rest, pat);
      assert |rest| == |s| - |pat|;
      Distribute(Occurrences(rest, pat), |rep| - |pat|);
    } else {
      ReplaceAllLength(s[1..], pat, rep);
      assert ReplaceAll(s, pat, rep) == [s[0]] + ReplaceAll(s[1..], pat, rep);
      assert Occurrences(s, pat) == Occurrences(s[1..], pat);
    }
  }

  lemma Distribute(n: int, d: int)
    ensures (1 + n) * d == d + n * d
  {
  }

  /** A string in which the pattern does not occur is returned unchanged. */
  lemma {:induction false} ReplaceAllAbsent(s: string, pat: string, rep: string)
    requires pat != [] && !Contains(s, pat)
    ensures ReplaceAll(s, pat, rep) == s
    decreases |s|
  {
    if |s| >= |pat| {
      ReplaceAllAbsent(s[1..], pat, rep);
    }
  }

  /** No occurrence of the pattern starts inside x, so Replace copies x and
      goes on with y. */
  lemma {:induction false} ReplaceAllSkip(x: string, y: string, pat: string, rep: string)
    requires pat != []
    requires forall i :: 0 <= i < |x| ==> !IsPrefix(pat, (x + y)[i..])
    ensures ReplaceAll(x + y, pat, rep) == x + ReplaceAll(y, pat, rep)
    decreases |x|
  {
    var s := x + y;
    if x == [] {
      assert s == y;
    } else if |s| < |pat| {
      ReplaceAllAbsent(y, pat, rep) by {
        ShortNotContains(y, pat);
      }
    } else {
      assert !IsPrefix(pat, s[0..]);
      assert s[0..] == s;
      assert s[1..] == x[1..] + y;
      forall i | 0 <= i < |x[1..]|
        ensures !IsPrefix(pat, (x[1..] + y)[i..])
      {
        assert (x[1..] + y)[i..] == s[i + 1..];
      }
      ReplaceAllSkip(x[1..], y, pat, rep);
    }
  }

  /** Where the pattern does not start, Replace copies the first character. */
  lemma ReplaceAllHead(s: string, pat: string, rep: string)
    requires pat != [] && s != [] && !IsPrefix(pat, s)
    ensures ReplaceAll(s, pat, rep) == [s[0]] + ReplaceAll(s[1..], pat, rep)
  {
    if |s| < |pat| {
      ShortNotContains(s[1..], pat);
      ReplaceAllAbsent(s[1..], pat, rep);
      assert s == [s[0]] + s[1..];
    }
  }

  /** An occurrence at the start is replaced and skipped whole. */
  lemma ReplaceAllAtStart(pat: string, t: string, rep: string)
    requires pat != []
    ensures ReplaceAll(pat + t, pat, rep) == rep + ReplaceAll(t, pat, rep)
  {
    var s := pat + t;
    assert s[..|pat|] == pat && s[|pat|..] == t;
  }

  /** A pattern whose first character is missing from s does not occur in
      s. */
  lemma {:induction false} NotContainsWithoutHead(s: string, p: string)
    requires p != [] && p[0] !in s
    ensures !Contains(s, p)
    decreases |s|
  {
    if s != [] {
      assert s[0] != p[0];
      NotContainsWithoutHead(s[1..], p);
    }
  }

  /** A text that starts with a non-empty p is p followed by the rest. */
  lemma PrefixSplit(p: string, s: string)
    requires p != [] && IsPrefix(p, s)
    ensures s == p + s[|p|..]
    ensures s[0] == p[0] && s[1..] == p[1..] + s[|p|..]
  {
    assert s == s[..|p|] + s[|p|..];
  }

  lemma ConsSplit(p: string, t: string)
    requires p != []
    ensures [p[0]] + (p[1..] + t) == p + t
  {
    assert p == [p[0]] + p[1..];
  }

  /** An occurrence at the start is counted and skipped whole. */
  lemma OccurrencesHead(pat: string, tail: string)
    requires pat != []
    ensures Occurrences(pat + tail, pat) == 1 + Occurrences(tail, pat)
  {
    var s := pat + tail;
    assert s[..|pat|] == pat && s[|pat|..] == tail;
  }

  /** A pattern longer than the string does not occur in it. */
  lemma {:induction false} ShortNotContains(s: string, pat: string)
    requires |s| < |pat|
    ensures !Contains(s, pat)
    decreases |s|
  {
    if s != [] {
      ShortNotContains(s[1..], pat);
    }
  }

  /** The same for counting: occurrences starting inside x are none. */
  lemma {:induction false} OccurrencesSkip(x: string, y: string, pat: string)
    requires pat != []
    requires forall i :: 0 <= i < |x| ==> !IsPrefix(pat, (x + y)[i..])
    ensures Occurrences(x + y, pat) == Occurrences(y, pat)
    decreases |x|
  {
    var s := x + y;
    if x == [] {
      assert s == y;
    } else if |s| < |pat| {
      assert Occurrences(y, pat) == 0;
    } else {
      assert !IsPrefix(pat, s[0..]);
      assert s[0..] == s;
      assert s[1..] == x[1..] + y;
      forall i | 0 <= i < |x[1..]|
        ensures !IsPrefix(pat, (x[1..] + y)[i..])
      {
        assert (x[1..] + y)[i..] == s[i + 1..];
      }
      OccurrencesSkip(x[1..], y, pat);
    }
  }

  /** Replacing a pattern by itself is the identity. */
  lemma {:induction false} ReplaceAllSelf(s: string, pat: string)
    requires pat != []
    ensures ReplaceAll(s, pat, pat) == s
    decreases |s|
  {
    if |s| < |pat| {
    } else if s[..|pat|] == pat {
      ReplaceAllSelf(s[|pat|..], pat);
      assert s == s[..|pat|] + s[|pat|..];
    } else {
      ReplaceAllSelf(s[1..], pat);
      assert s == [s[0]] + s[1..];
    }
  }

  /** Replacement of one character, character by character. */
  function SubstChar(s: string, c: char, rep: string): string {
    if s == [] then [] else (if s[0] == c then rep else [s[0]]) + SubstChar(s[1..], c, rep)
  }

  lemma {:induction false} SubstCharAppend(a: string, b: string, c: char, rep: string)
    ensures SubstChar(a + b, c, rep) == SubstChar(a, c, rep) + SubstChar(b, c, rep)
  {
    if a != [] {
      assert (a + b)[0] == a[0];
      assert (a + b)[1..] == a[1..] + b;
      SubstCharAppend(a[1..], b, c, rep);
      var head := if a[0] == c then rep else [a[0]];
      assert SubstChar(a + b, c, rep) == head + SubstChar(a[1..] + b, c, rep);
      assert SubstChar(a, c, rep) == head + SubstChar(a[1..], c, rep);
      assert head + (SubstChar(a[1..], c, rep) + SubstChar(b, c, rep))
          == (head + SubstChar(a[1..], c, rep)) + SubstChar(b, c, rep);
    } else {
      assert a + b == b;
    }
  }

  /** string.Replace with a one-character pattern is SubstChar. */
  lemma {:induction false} ReplaceOneChar(s: string, c: char, rep: string)
    ensures ReplaceAll(s, [c], rep) == SubstChar(s, c, rep)
  {
    if s != [] {
      ReplaceOneChar(s[1..], c, rep);
    }
  }

  /** The pieces of s between occurrences of sep: string.Split(sep) with no
      options. There is always at least one piece. */
  function Fields(s: string, sep: char): (r: seq<string>)
    ensures |r| >= 1
    ensures forall i :: 0 <= i < |r| ==> sep !in r[i]
  {
    if s == [] then [[]]
    else
      var rest := Fields(s[1..], sep);
      if s[0] == sep then [[]] + rest else [[s[0]] + rest[0]] + rest[1..]
  }

  /** string.Join(sep, parts). */
  function JoinWith(parts: seq<string>, sep: string): string {
    if |parts| == 0 then []
    else if |parts| == 1 then parts[0]
    else parts[0] + sep + JoinWith(parts[1..], sep)
  }

  /** Joining the pieces with the separator rebuilds the input. */
  lemma {:induction false} FieldsJoin(s: string, sep: char)
    ensures JoinWith(Fields(s, sep), [sep]) == s
  {
    if s != [] {
      FieldsJoin(s[1..], sep);
      var rest := Fields(s[1..], sep);
      if s[0] == sep {
        assert JoinWith([[]] + rest, [sep]) == [sep] + JoinWith(rest, [sep]);
        assert s == [s[0]] + s[1..];
      } else {
        if |rest| == 1 {
          assert s == [s[0]] + rest[0];
        } else {
          assert ([[s[0]] + rest[0]] + rest[1..])[1..] == rest[1..];
          assert JoinWith(rest, [sep]) == rest[0] + [sep] + JoinWith(rest[1..], [sep]);
          assert s == [s[0]] + s[1..];
        }
      }
    }
  }

  /** The non-empty elements, in order. */
  function NonEmpty(parts: seq<string>): (r: seq<string>)
    ensures |r| <= |parts|
    ensures forall i :: 0 <= i < |r| ==> r[i] != [] && r[i] in parts
    ensures forall i :: 0 <= i < |parts| && parts[i] != [] ==> parts[i] in r
    ensures (forall i :: 0 <= i < |parts| ==> parts[i] != []) ==> r == parts
  {
    if parts == [] then []
    else if parts[0] == [] then NonEmpty(parts[1..])
    else [parts[0]] + NonEmpty(parts[1..])
  }

  /** string.Split(new[] { sep }, StringSplitOptions.RemoveEmptyEntries). */
  function SplitRemoveEmpty(s: string, sep: char): (r: seq<string>)
    ensures forall i :: 0 <= i < |r| ==> r[i] != [] && sep !in r[i]
  {
    NonEmpty(Fields(s, sep))
  }

  /** One more piece is kept, at the end, exactly when it is not empty:
      NonEmpty keeps every non-empty piece, in order, and drops only the
      empty ones. */
  lemma {:induction false} NonEmptySnoc(parts: seq<string>, p: string)
    ensures NonEmpty(parts + [p]) == NonEmpty(parts) + (if p == [] then [] else [p])
    decreases |parts|
  {
    if parts == [] {
      assert parts + [p] == [p];
      assert [p][1..] == [];
    } else {
      assert (parts + [p])[0] == parts[0];
      assert (parts + [p])[1..] == parts[1..] + [p];
      NonEmptySnoc(parts[1..], p);
    }
  }

  /** When no piece of the split is empty (no separator at either end and
      no two in a row), the kept pieces are all the pieces, and joining them
      with the separator rebuilds the input: the pieces are the maximal
      separator-free runs. */
  lemma SplitRemoveEmptyJoin(s: string, sep: char)
    requires forall i :: 0 <= i < |Fields(s, sep)| ==> Fields(s, sep)[i] != []
    ensures SplitRemoveEmpty(s, sep) == Fields(s, sep)
    ensures JoinWith(SplitRemoveEmpty(s, sep), [sep]) == s
  {
    FieldsJoin(s, sep);
  }

  function Concat(parts: seq<string>): string {
    if parts == [] then [] else parts[0] + Concat(parts[1..])
  }

  /** s with every occurrence of c deleted. */
  function Without(s: string, c: char): string {
    if s == [] then [] else (if s[0] == c then [] else [s[0]]) + Without(s[1..], c)
  }

  lemma {:induction false} ConcatNonEmpty(parts: seq<string>)
    ensures Concat(NonEmpty(parts)) == Concat(parts)
  {
    if parts != [] {
      ConcatNonEmpty(parts[1..]);
    }
  }

  lemma {:induction false} ConcatFields(s: string, sep: char)
    ensures Concat(Fields(s, sep)) == Without(s, sep)
  {
    if s != [] {
      ConcatFields(s[1..], sep);
      var rest := Fields(s[1..], sep);
      if s[0] != sep {
        assert Concat(rest) == rest[0] + Concat(rest[1..]);
        assert ([[s[0]] + rest[0]] + rest[1..])[1..] == rest[1..];
      }
    }
  }

  /** Splitting with empty entries removed loses exactly the separators: the
      pieces, in order, spell out the input with the separators deleted. */
  lemma SplitRemoveEmptySpells(s: string, sep: char)
    ensures Concat(SplitRemoveEmpty(s, sep)) == Without(s, sep)
  {
    ConcatNonEmpty(Fields(s, sep));
    ConcatFields(s, sep);
  }
}
