/** The substring search of the EuroScope plugin: a failure table and a single left-to-right scan
    (openfsd-patch-for-es-main/src/VATSIMAuthPatch.cpp). */
module Kmp {

  /** The first k characters of s are also its last k characters, and k is shorter than s. */
  ghost predicate IsBorder<T>(s: seq<T>, k: nat) {
    k < |s| && s[..k] == s[|s| - k..]
  }

  ghost predicate IsLongestBorder<T>(s: seq<T>, k: nat) {
    IsBorder(s, k) && forall other: nat :: IsBorder(s, other) ==> other <= k
  }

  /** The first n entries of the table are right: entry i describes the prefix of length i + 1. */
  ghost predicate TableUpTo<T>(pattern: seq<T>, table: seq<nat>, n: nat) {
    n <= |pattern| == |table| && forall i :: 0 <= i < n ==> IsLongestBorder(pattern[..i + 1], table[i])
  }

  ghost predicate OccursAt<T>(text: seq<T>, pattern: seq<T>, at: int) {
    0 <= at <= |text| - |pattern| && text[at..at + |pattern|] == pattern
  }

  /** The first k characters of the pattern are the last k characters of the text read so far. */
  ghost predicate Matches<T>(read: seq<T>, pattern: seq<T>, k: nat) {
    k <= |read| && k <= |pattern| && pattern[..k] == read[|read| - k..]
  }

  /** Below a match of length j, the shorter matches are exactly the borders of pattern[..j]. */
  lemma MatchBelow<T>(read: seq<T>, pattern: seq<T>, j: nat, k: nat)
    requires Matches(read, pattern, j) && k < j
    ensures Matches(read, pattern, k) <==> IsBorder(pattern[..j], k)
  {
    assert pattern[..j][j - k..] == read[|read| - j..][j - k..] == read[|read| - k..];
    assert pattern[..j][..k] == pattern[..k];
  }

  /** Reading one more character extends exactly the matches that continue with it. */
  lemma MatchExtend<T>(read: seq<T>, pattern: seq<T>, c: T, k: nat)
    requires k < |pattern|
    ensures Matches(read + [c], pattern, k + 1) <==> Matches(read, pattern, k) && pattern[k] == c
  {
    if k <= |read| {
      assert (read + [c])[|read| - k..] == read[|read| - k..] + [c];
      assert pattern[..k + 1] == pattern[..k] + [pattern[k]];
      if pattern[..k + 1] == read[|read| - k..] + [c] {
        assert pattern[..k] == pattern[..k + 1][..k] == (read[|read| - k..] + [c])[..k] == read[|read| - k..];
        assert pattern[k] == pattern[..k + 1][k] == c;
      }
    }
  }

  /** A border of pattern[..i] is a match of the pattern against pattern[1..i], and back. */
  lemma BorderIsMatch<T>(pattern: seq<T>, i: nat, k: nat)
    requires 1 <= i <= |pattern|
    ensures IsBorder(pattern[..i], k) <==> Matches(pattern[1..i], pattern, k)
  {
    if k < i {
      assert pattern[..i][..k] == pattern[..k];
      assert pattern[..i][i - k..] == pattern[i - k..i] == pattern[1..i][i - 1 - k..];
    }
  }

  /** An occurrence ending at position i is a full-length match of the first i + 1 characters. */
  lemma OccurrenceIsMatch<T>(text: seq<T>, pattern: seq<T>, end: nat)
    requires |pattern| <= end <= |text|
    ensures OccursAt(text, pattern, end - |pattern|) <==> Matches(text[..end], pattern, |pattern|)
  {
    assert pattern[..|pattern|] == pattern;
    assert text[..end][end - |pattern|..] == text[end - |pattern|..end];
  }

  /** A match of length j, every longer one having been tried against the next character c and
      rejected: the state of the inner loops. */
  ghost predicate Candidate<T>(read: seq<T>, pattern: seq<T>, j: nat, c: T) {
    && Matches(read, pattern, j)
    && forall k: nat :: j < k < |pattern| && Matches(read, pattern, k) ==> pattern[k] != c
  }

  ghost predicate IsLongestMatch<T>(read: seq<T>, pattern: seq<T>, j: nat) {
    Matches(read, pattern, j) && forall k: nat :: Matches(read, pattern, k) ==> k <= j
  }

  /** Falling back from a rejected j to the table's entry for it skips no candidate. */
  lemma FallBack<T>(read: seq<T>, pattern: seq<T>, table: seq<nat>, n: nat, j: nat, c: T)
    requires TableUpTo(pattern, table, n)
    requires 0 < j <= n && j < |pattern| && pattern[j] != c
    requires Candidate(read, pattern, j, c)
    ensures table[j - 1] < j && Candidate(read, pattern, table[j - 1], c)
  {
    var next := table[j - 1];
    assert IsLongestBorder(pattern[..j - 1 + 1], next) && j - 1 + 1 == j;
    MatchBelow(read, pattern, j, next);
    forall k: nat | next < k < |pattern| && Matches(read, pattern, k) ensures pattern[k] != c {
      if k < j {
        MatchBelow(read, pattern, j, k);
      }
    }
  }

  /** The comparison after the fallbacks leaves j at the longest match of the extended text. */
  lemma Advance<T>(read: seq<T>, pattern: seq<T>, j: nat, c: T)
    requires j < |pattern| && Candidate(read, pattern, j, c)
    requires j == 0 || pattern[j] == c
    ensures IsLongestMatch(read + [c], pattern, if pattern[j] == c then j + 1 else 0)
  {
    MatchExtend(read, pattern, c, j);
    forall k: nat | Matches(read + [c], pattern, k) ensures k <= if pattern[j] == c then j + 1 else 0 {
      if k > 0 {
        MatchExtend(read, pattern, c, k - 1);
      }
    }
  }

  /** The longest border of pattern[..i] is the longest match of the pattern against pattern[1..i]:
      the builder searches the pattern in itself. */
  lemma LongestBorderIsMatch<T>(pattern: seq<T>, i: nat, j: nat)
    requires 1 <= i <= |pattern|
    ensures IsLongestBorder(pattern[..i], j) <==> IsLongestMatch(pattern[1..i], pattern, j)
  {
    forall k: nat ensures IsBorder(pattern[..i], k) <==> Matches(pattern[1..i], pattern, k) {
      BorderIsMatch(pattern, i, k);
    }
  }

  lemma StartRow<T>(pattern: seq<T>, table: seq<nat>, i: nat)
    requires 1 <= i < |pattern| && TableUpTo(pattern, table, i)
    ensures table[i - 1] < i && Candidate(pattern[1..i], pattern, table[i - 1], pattern[i])
  {
    var j := table[i - 1];
    assert IsLongestBorder(pattern[..i - 1 + 1], j) && i - 1 + 1 == i;
    LongestBorderIsMatch(pattern, i, j);
  }

  lemma FinishRow<T>(pattern: seq<T>, table: seq<nat>, i: nat, j: nat)
    requires 1 <= i < |pattern| && TableUpTo(pattern, table, i)
    requires j < |pattern| && Candidate(pattern[1..i], pattern, j, pattern[i])
    requires j == 0 || pattern[j] == pattern[i]
    ensures TableUpTo(pattern, table[i := if pattern[j] == pattern[i] then j + 1 else 0], i + 1)
  {
    Advance(pattern[1..i], pattern, j, pattern[i]);
    assert pattern[1..i] + [pattern[i]] == pattern[1..i + 1];
    LongestBorderIsMatch(pattern, i + 1, if pattern[j] == pattern[i] then j + 1 else 0);
  }

  /** buildKMPTable: every entry is the length of the longest proper border of its prefix, and all
      the fallbacks together number less than the pattern's length. */
  method BuildKmpTable(pattern: string) returns (kmpTable: array<nat>, ghost fallbacks: nat)
    ensures fresh(kmpTable)
    ensures TableUpTo(pattern, kmpTable[..], |pattern|)
    ensures fallbacks <= if |pattern| == 0 then 0 else |pattern| - 1
  {
    var m := |pattern|;
    kmpTable := new nat[m](_ => 0);
    fallbacks := 0;
    var j: nat := 0;
    var i := 1;
    while i < m
      invariant 1 <= i
      invariant i <= m || (m == 0 && i == 1)
      invariant TableUpTo(pattern, kmpTable[..], if m == 0 then 0 else i)
      invariant m > 0 ==> j == kmpTable[i - 1]
      invariant fallbacks + j <= i - 1
    {
      ghost var table := kmpTable[..];
      StartRow(pattern, table, i);
      while j > 0 && pattern[i] != pattern[j]
        modifies {}
        invariant j < i && Candidate(pattern[1..i], pattern, j, pattern[i])
        invariant fallbacks + j <= i - 1
      {
        FallBack(pattern[1..i], pattern, table, i, j, pattern[i]);
        j := kmpTable[j - 1];
        fallbacks := fallbacks + 1;
      }
      FinishRow(pattern, table, i, j);
      if pattern[i] == pattern[j] {
        j := j + 1;
      }
      kmpTable[i] := j;
      assert kmpTable[..] == table[i := j];
      i := i + 1;
    }
  }

  /** After the first n characters: no occurrence ends there yet, and j is the longest match. */
  ghost predicate Scanned<T>(text: seq<T>, pattern: seq<T>, n: nat, j: nat) {
    && n <= |text| && j < |pattern|
    && IsLongestMatch(text[..n], pattern, j)
    && forall at :: OccursAt(text, pattern, at) ==> at + |pattern| > n
  }

  /** The answer the search promises: the first occurrence, or -1 when there is none. */
  ghost predicate IsFirstOccurrence<T>(text: seq<T>, pattern: seq<T>, index: int) {
    && (index == -1 || OccursAt(text, pattern, index))
    && forall at :: OccursAt(text, pattern, at) ==> 0 <= index <= at
  }

  lemma ScanStart<T>(text: seq<T>, pattern: seq<T>)
    requires |pattern| > 0
    ensures Scanned(text, pattern, 0, 0)
  {
  }

  lemma ScanStep<T>(text: seq<T>, pattern: seq<T>, i: nat, before: nat, j: nat)
    requires i < |text| && Scanned(text, pattern, i, before)
    requires j < |pattern| && Candidate(text[..i], pattern, j, text[i])
    requires j == 0 || pattern[j] == text[i]
    ensures var next := if text[i] == pattern[j] then j + 1 else 0;
            if next < |pattern| then Scanned(text, pattern, i + 1, next)
            else IsFirstOccurrence(text, pattern, i + 1 - |pattern|)
  {
    Advance(text[..i], pattern, j, text[i]);
    assert text[..i] + [text[i]] == text[..i + 1];
    if i + 1 >= |pattern| {
      OccurrenceIsMatch(text, pattern, i + 1);
    }
  }

  lemma ScanEnd<T>(text: seq<T>, pattern: seq<T>, j: nat)
    requires Scanned(text, pattern, |text|, j)
    ensures IsFirstOccurrence(text, pattern, -1)
  {
  }

  /** KMPSearch: the smallest index at which the pattern occurs, or -1 exactly when it occurs
      nowhere; at most |text| fallbacks over the whole scan. */
  method KmpSearch(text: string, pattern: string) returns (index: int, ghost fallbacks: nat)
    requires |pattern| > 0
    ensures IsFirstOccurrence(text, pattern, index)
    ensures fallbacks <= |text|
  {
    var kmpTable, tableFallbacks := BuildKmpTable(pattern);
    ghost var table := kmpTable[..];
    var n, m := |text|, |pattern|;
    var j: nat := 0;
    fallbacks := 0;
    ScanStart(text, pattern);
    var i := 0;
    while i < n
      modifies {}
      invariant 0 <= i <= n
      invariant Scanned(text, pattern, i, j)
      invariant fallbacks + j <= i
    {
      ghost var before := j;
      while j > 0 && text[i] != pattern[j]
        modifies {}
        invariant j < m && Candidate(text[..i], pattern, j, text[i])
        invariant fallbacks + j <= i
      {
        FallBack(text[..i], pattern, table, m, j, text[i]);
        j := kmpTable[j - 1];
        fallbacks := fallbacks + 1;
      }
      ScanStep(text, pattern, i, before, j);
      if text[i] == pattern[j] {
        j := j + 1;
      }
      if j == m {
        return i - m + 1, fallbacks;
      }
      i := i + 1;
    }
    ScanEnd(text, pattern, j);
    return -1, fallbacks;
  }
}
