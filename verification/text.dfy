/** String helpers with Python's meaning: `str.strip()` with no argument,
    the ASCII filter of the PDF exporter and the "…" previews of notes. */
module Text {

  /** Python's `str.isspace()`: the characters `str.strip()` removes. */
  predicate IsSpace(c: char) {
    var k := c as int;
    || (0x09 <= k <= 0x0D)
    || (0x1C <= k <= 0x20)
    || k == 0x85 || k == 0xA0 || k == 0x1680
    || (0x2000 <= k <= 0x200A)
    || k == 0x2028 || k == 0x2029 || k == 0x202F || k == 0x205F
    || k == 0x3000
  }

  /** Every character is whitespace (the empty string included). */
  predicate IsBlank(s: string) {
    forall i :: 0 <= i < |s| ==> IsSpace(s[i])
  }

  /** Neither the first nor the last character is whitespace. */
  predicate NoEdgeSpace(s: string) {
    |s| > 0 ==> !IsSpace(s[0]) && !IsSpace(s[|s| - 1])
  }

  predicate IsAscii(c: char) {
    (c as int) < 128
  }

  predicate AllAscii(s: string) {
    forall i :: 0 <= i < |s| ==> IsAscii(s[i])
  }

  /** `a` can be obtained from `b` by deleting characters. */
  predicate IsSubsequence<T(==)>(a: seq<T>, b: seq<T>)
    decreases |b|
  {
    || |a| == 0
    || (|b| > 0 && ((a[0] == b[0] && IsSubsequence(a[1..], b[1..])) || IsSubsequence(a, b[1..])))
  }

  /** Length of the run of whitespace at the front of `s`. */
  function LeadingSpaces(s: string): (n: nat)
    ensures n <= |s|
    ensures forall i :: 0 <= i < n ==> IsSpace(s[i])
    ensures n < |s| ==> !IsSpace(s[n])
  {
    if |s| == 0 || !IsSpace(s[0]) then 0 else 1 + LeadingSpaces(s[1..])
  }

  /** Length of the run of whitespace at the back of `s`. */
  function TrailingSpaces(s: string): (n: nat)
    ensures n <= |s|
    ensures forall i :: |s| - n <= i < |s| ==> IsSpace(s[i])
    ensures n < |s| ==> !IsSpace(s[|s| - n - 1])
  {
    if |s| == 0 || !IsSpace(s[|s| - 1]) then 0 else 1 + TrailingSpaces(s[..|s| - 1])
  }

  /** Python `s.strip()`: the longest slice of `s` without whitespace at
      either end, obtained by removing only whitespace. */
  function Strip(s: string): (r: string)
    ensures |r| <= |s|
    ensures NoEdgeSpace(r)
    ensures r == [] <==> IsBlank(s)
    ensures LeadingSpaces(s) + |r| <= |s| && r == s[LeadingSpaces(s)..LeadingSpaces(s) + |r|]
    ensures IsBlank(s[..LeadingSpaces(s)]) && IsBlank(s[LeadingSpaces(s) + |r|..])
  {
    var lo := LeadingSpaces(s);
    var hi := |s| - TrailingSpaces(s[lo..]);
    EdgeRuns(s, lo, hi);
    s[lo..hi]
  }

  /** The whitespace runs at either end of `s` leave the slice `s[lo..hi]`
      between them. */
  lemma EdgeRuns(s: string, lo: nat, hi: int)
    requires lo == LeadingSpaces(s) && hi == |s| - TrailingSpaces(s[lo..])
    ensures lo <= hi <= |s|
    ensures IsBlank(s[..lo]) && IsBlank(s[hi..])
    ensures NoEdgeSpace(s[lo..hi])
    ensures s[lo..hi] == [] <==> IsBlank(s)
  {
    var rest := s[lo..];
    var t := TrailingSpaces(rest);
    TrailingRunIsBlank(s, rest, lo, t);
    if lo < |s| {
      VisibleAt(s, lo);
      SliceEnds(s, rest, lo, t);
    } else {
      assert s[..lo] == s;
    }
  }

  lemma TrailingRunIsBlank(s: string, rest: string, lo: nat, t: nat)
    requires lo <= |s| && rest == s[lo..] && t <= |rest|
    requires forall i :: |rest| - t <= i < |rest| ==> IsSpace(rest[i])
    ensures IsBlank(s[|s| - t..])
  {
    var back := s[|s| - t..];
    forall i | 0 <= i < |back|
      ensures IsSpace(back[i])
    {
      assert back[i] == rest[|rest| - t + i];
    }
  }

  /** The first character after the leading run is visible, so `s` is not
      blank. */
  lemma VisibleAt(s: string, lo: nat)
    requires lo == LeadingSpaces(s) && lo < |s|
    ensures !IsSpace(s[lo]) && !IsBlank(s)
  {
  }

  lemma SliceEnds(s: string, rest: string, lo: nat, t: nat)
    requires lo < |s| && rest == s[lo..] && t == TrailingSpaces(rest)
    requires !IsSpace(s[lo])
    ensures t < |rest|
    ensures NoEdgeSpace(s[lo..|s| - t]) && s[lo..|s| - t] != []
  {
    assert rest[0] == s[lo];
    var r := s[lo..|s| - t];
    assert r[0] == s[lo];
    assert r[|r| - 1] == rest[|rest| - t - 1];
  }

  lemma StripIdempotent(s: string)
    ensures Strip(Strip(s)) == Strip(s)
  {
    var r := Strip(s);
    var r' := Strip(r);
    if |r| > 0 {
      assert LeadingSpaces(r) == 0;
      assert TrailingSpaces(r) == 0;
    }
  }

  /** A string without edge whitespace is its own strip. */
  lemma StripOfTrimmed(s: string)
    requires NoEdgeSpace(s)
    ensures Strip(s) == s
  {
    if |s| > 0 {
      assert LeadingSpaces(s) == 0;
      assert TrailingSpaces(s) == 0;
    }
  }

  /** The characters of `s` whose code is below 128, in order. */
  function AsciiOnly(s: string): (r: string)
    ensures |r| <= |s|
    ensures AllAscii(r)
    ensures forall c :: c in r <==> c in s && IsAscii(c)
    ensures forall c :: multiset(r)[c] == if IsAscii(c) then multiset(s)[c] else 0
  {
    if |s| == 0 then []
    else
      var tail := AsciiOnly(s[1..]);
      assert s == [s[0]] + s[1..];
      assert forall c :: c in s <==> c == s[0] || c in s[1..];
      if IsAscii(s[0]) then [s[0]] + tail else tail
  }

  lemma {:induction false} AsciiOnlyIsSubsequence(s: string)
    ensures IsSubsequence(AsciiOnly(s), s)
  {
    if |s| > 0 {
      AsciiOnlyIsSubsequence(s[1..]);
      var tail := AsciiOnly(s[1..]);
      if IsAscii(s[0]) {
        assert AsciiOnly(s)[1..] == tail;
      }
    }
  }

  lemma {:induction false} AsciiOnlyOfAscii(s: string)
    requires AllAscii(s)
    ensures AsciiOnly(s) == s
  {
    if |s| > 0 {
      AsciiOnlyOfAscii(s[1..]);
      assert [s[0]] + s[1..] == s;
    }
  }

  lemma {:induction false} SubsequenceReflexive<T>(a: seq<T>)
    ensures IsSubsequence(a, a)
  {
    if |a| > 0 {
      SubsequenceReflexive(a[1..]);
    }
  }

  lemma {:induction false} SubsequenceTransitive<T>(a: seq<T>, b: seq<T>, c: seq<T>)
    requires IsSubsequence(a, b) && IsSubsequence(b, c)
    ensures IsSubsequence(a, c)
    decreases |c|
  {
    if |a| == 0 {
    } else if |b| == 0 {
    } else if IsSubsequence(b, c[1..]) {
      SubsequenceTransitive(a, b, c[1..]);
    } else {
      assert b[0] == c[0] && IsSubsequence(b[1..], c[1..]);
      if a[0] == b[0] && IsSubsequence(a[1..], b[1..]) {
        SubsequenceTransitive(a[1..], b[1..], c[1..]);
      } else {
        SubsequenceTransitive(a, b[1..], c[1..]);
      }
    }
  }

  lemma {:induction false} SuffixIsSubsequence<T>(s: seq<T>, lo: nat)
    requires lo <= |s|
    ensures IsSubsequence(s[lo..], s)
    decreases lo
  {
    if lo == 0 {
      SubsequenceReflexive(s);
    } else {
      SuffixIsSubsequence(s[1..], lo - 1);
      assert s[1..][lo - 1..] == s[lo..];
    }
  }

  lemma {:induction false} PrefixIsSubsequence<T>(s: seq<T>, hi: nat)
    requires hi <= |s|
    ensures IsSubsequence(s[..hi], s)
  {
    if hi > 0 {
      PrefixIsSubsequence(s[1..], hi - 1);
      assert s[..hi][1..] == s[1..][..hi - 1];
    }
  }

  /** Any slice of `s` is a subsequence of `s`. */
  lemma SliceIsSubsequence<T>(s: seq<T>, lo: nat, hi: nat)
    requires lo <= hi <= |s|
    ensures IsSubsequence(s[lo..hi], s)
  {
    var p := s[..hi];
    var q := p[lo..];
    PrefixIsSubsequence(s, hi);
    SuffixIsSubsequence(p, lo);
    SubsequenceTransitive(q, p, s);
    assert q == s[lo..hi];
  }

  /** Stripping only deletes characters. */
  lemma StripIsSubsequence(s: string)
    ensures IsSubsequence(Strip(s), s)
  {
    SliceIsSubsequence(s, LeadingSpaces(s), LeadingSpaces(s) + |Strip(s)|);
  }

  /** Stripping keeps every occurrence of every character that is not
      whitespace. */
  lemma StripKeepsVisible(s: string, c: char)
    requires !IsSpace(c)
    ensures multiset(Strip(s))[c] == multiset(s)[c]
  {
    var r := Strip(s);
    var lo := LeadingSpaces(s);
    var front := s[..lo];
    var back := s[lo + |r|..];
    assert s == front + r + back;
    BlankLacksVisible(front, c);
    BlankLacksVisible(back, c);
  }

  lemma BlankLacksVisible(t: string, c: char)
    requires IsBlank(t) && !IsSpace(c)
    ensures multiset(t)[c] == 0
  {
    assert c !in t;
  }

  /** A preview of `s`: unchanged when at most `n` characters, otherwise its
      first `n` characters followed by "...". */
  function Truncate(s: string, n: nat): (r: string)
    ensures |s| <= n ==> r == s
    ensures |s| > n ==> |r| == n + 3 && r[..n] == s[..n] && r[n..] == "..."
    ensures |r| <= n + 3
    ensures r[..if |r| < n then |r| else n] <= s
  {
    if |s| > n then s[..n] + "..." else s
  }

  /** Shortening a preview again changes nothing. */
  lemma TruncateIdempotent(s: string, n: nat)
    ensures Truncate(Truncate(s, n), n) == Truncate(s, n)
  {
  }
}
