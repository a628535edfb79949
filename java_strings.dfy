/** The few `java.lang.String` and Apache Commons `StringUtils` operations the crawlers
    depend on, each characterised by what it returns rather than how. */
module JavaStrings {

  import opened Common

  /** `s.startsWith(prefix)`. */
  predicate StartsWith(s: string, prefix: string) {
    prefix <= s
  }

  /** `sub` occurs in `s` at index `i`. */
  ghost predicate OccursAt(s: string, sub: string, i: int) {
    0 <= i && i + |sub| <= |s| && s[i..i + |sub|] == sub
  }

  /** `s.contains(sub)`: scans `s` for an occurrence of `sub`. */
  function Contains(s: string, sub: string): (b: bool)
    decreases |s|
  {
    if sub <= s then true
    else if s == [] then false
    else Contains(s[1..], sub)
  }

  /** An occurrence at index 0 is a prefix. */
  lemma OccursAtZero(s: string, sub: string)
    ensures OccursAt(s, sub, 0) <==> sub <= s
  {
    if sub <= s {
      assert s[..|sub|] == sub;
    }
  }

  /** `Contains` holds exactly when `sub` occurs somewhere in `s`. */
  lemma {:induction false} ContainsIffOccurs(s: string, sub: string)
    ensures Contains(s, sub) <==> exists i :: OccursAt(s, sub, i)
    decreases |s|
  {
    OccursAtZero(s, sub);
    if sub <= s {
    } else if s == [] {
      forall i ensures !OccursAt(s, sub, i) {
      }
    } else {
      assert Contains(s, sub) == Contains(s[1..], sub);
      ContainsIffOccurs(s[1..], sub);
      if Contains(s, sub) {
        var i :| OccursAt(s[1..], sub, i);
        assert s[1..][i..i + |sub|] == s[i + 1..i + 1 + |sub|];
        assert OccursAt(s, sub, i + 1);
      }
      if i :| OccursAt(s, sub, i) {
        assert s[1..][i - 1..i - 1 + |sub|] == s[i..i + |sub|];
        assert OccursAt(s[1..], sub, i - 1);
      }
    }
  }

  /** The characters `String.trim()` removes: every code point up to and including U+0020. */
  predicate IsTrimmable(c: char) {
    c <= ' '
  }

  /** Drops the leading trimmable characters. */
  function TrimStart(s: string): (r: string)
    ensures |r| <= |s| && r == s[|s| - |r|..]
    ensures forall i :: 0 <= i < |s| - |r| ==> IsTrimmable(s[i])
    ensures r == [] || !IsTrimmable(r[0])
  {
    if s != [] && IsTrimmable(s[0]) then TrimStart(s[1..]) else s
  }

  /** Drops the trailing trimmable characters. */
  function TrimEnd(s: string): (r: string)
    ensures |r| <= |s| && r == s[..|r|]
    ensures forall i :: |r| <= i < |s| ==> IsTrimmable(s[i])
    ensures r == [] || !IsTrimmable(r[|r| - 1])
  {
    if s != [] && IsTrimmable(s[|s| - 1]) then TrimEnd(s[..|s| - 1]) else s
  }

  /** `r` is the infix of `s` starting at `k`, and everything outside it is trimmable. */
  ghost predicate TrimmedAt(s: string, r: string, k: int) {
    && 0 <= k && k + |r| <= |s| && r == s[k..k + |r|]
    && (forall i :: 0 <= i < k ==> IsTrimmable(s[i]))
    && (forall i :: k + |r| <= i < |s| ==> IsTrimmable(s[i]))
  }

  /** `s.trim()`: the longest infix of `s` that neither starts nor ends with a
      trimmable character; everything cut off on either side is trimmable. */
  function Trim(s: string): (r: string)
    ensures exists k :: TrimmedAt(s, r, k)
    ensures forall i :: 0 <= i < |r| ==> r[i] in s
    ensures r == [] || (!IsTrimmable(r[0]) && !IsTrimmable(r[|r| - 1]))
  {
    TrimCutsTrimmable(s);
    TrimKeepsChars(s);
    TrimEnd(TrimStart(s))
  }

  /** Trimming cuts off trimmable characters only, on both sides. */
  lemma TrimCutsTrimmable(s: string)
    ensures TrimmedAt(s, TrimEnd(TrimStart(s)), |s| - |TrimStart(s)|)
  {
    var t := TrimStart(s);
    var r := TrimEnd(t);
    var k := |s| - |t|;
    assert t == s[k..];
    assert r == t[..|r|];
    assert r == s[k..k + |r|];
    forall i | k + |r| <= i < |s|
      ensures IsTrimmable(s[i])
    {
      assert s[i] == t[i - k];
    }
  }

  /** Trimming keeps characters of `s` only. */
  lemma TrimKeepsChars(s: string)
    ensures var r := TrimEnd(TrimStart(s)); forall i :: 0 <= i < |r| ==> r[i] in s
  {
    var t := TrimStart(s);
    var r := TrimEnd(t);
    var k := |s| - |t|;
    forall i | 0 <= i < |r|
      ensures r[i] in s
    {
      assert r[i] == t[i] == s[k + i];
    }
  }

  /** Trimming is idempotent. */
  lemma TrimIdempotent(s: string)
    ensures Trim(Trim(s)) == Trim(s)
  {
    var r := Trim(s);
    assert TrimStart(r) == r;
    assert TrimEnd(r) == r;
  }

  /** The part of `s` before the first occurrence of `c` (all of `s` if there is none). */
  function BeforeFirst(s: string, c: char): (r: string)
    ensures r <= s && c !in r
    ensures |r| < |s| ==> s[|r|] == c
  {
    if s == [] || s[0] == c then [] else [s[0]] + BeforeFirst(s[1..], c)
  }

  /** `Character.isWhitespace(c)`: the Unicode space, line and paragraph separators other
      than the non-breaking ones, and the ASCII controls U+0009 to U+000D and U+001C to U+001F. */
  predicate IsJavaWhitespace(c: char) {
    || c == ' ' || c == '\U{1680}' || ('\U{2000}' <= c <= '\U{2006}') || ('\U{2008}' <= c <= '\U{200A}')
    || c == '\U{205F}' || c == '\U{3000}' || c == '\U{2028}' || c == '\U{2029}'
    || ('\t' <= c <= '\r') || ('\U{001C}' <= c <= '\U{001F}')
  }

  /** `StringUtils.isBlank(s)`: null, empty, or whitespace only. */
  predicate IsBlank(s: Option<string>) {
    s.None? || forall i :: 0 <= i < |s.value| ==> IsJavaWhitespace(s.value[i])
  }


  /** Every piece of `s` between occurrences of `c`, empty pieces included; there is
      always at least one. */
  function SplitPieces(s: string, c: char): (ps: seq<string>)
    ensures |ps| >= 1 && ps[0] == BeforeFirst(s, c)
    decreases |s|
  {
    if c !in s then [s]
    else
      var head := BeforeFirst(s, c);
      [head] + SplitPieces(s[|head| + 1..], c)
  }

  /** Every piece is the empty string. */
  predicate AllEmpty(ps: seq<string>) {
    forall i :: 0 <= i < |ps| ==> ps[i] == []
  }

  /** Every character of `s` is `c`. */
  predicate AllChar(s: string, c: char) {
    forall j :: 0 <= j < |s| ==> s[j] == c
  }

  /** Removes the empty strings at the end of a list of pieces. */
  function DropTrailingEmpty(ps: seq<string>): (r: seq<string>)
    ensures r <= ps
    ensures r == [] <==> AllEmpty(ps)
  {
    if ps != [] && ps[|ps| - 1] == [] then DropTrailingEmpty(ps[..|ps| - 1]) else ps
  }

  /** `s.split(String.valueOf(c))` for a character `c` that is not a regular-expression
      metacharacter: the string itself when `c` does not occur, otherwise the pieces
      with the trailing empty ones removed, which can leave no piece at all. */
  function JavaSplit(s: string, c: char): seq<string> {
    if c !in s then [s] else DropTrailingEmpty(SplitPieces(s, c))
  }

  /** The first piece is empty exactly when `s` starts with `c`. */
  lemma HeadEmptyIff(s: string, c: char)
    requires c in s
    ensures BeforeFirst(s, c) == [] <==> s[0] == c
  {
    var head := BeforeFirst(s, c);
    if head != [] {
      assert s[0] == head[0];
    }
  }

  /** A string made of `c` only splits into empty pieces. */
  lemma {:induction false} AllCharGivesEmptyPieces(s: string, c: char)
    requires AllChar(s, c)
    ensures AllEmpty(SplitPieces(s, c))
    decreases |s|
  {
    if c in s {
      HeadEmptyIff(s, c);
      var rest := s[1..];
      assert BeforeFirst(s, c) == [];
      var tail := SplitPieces(rest, c);
      assert SplitPieces(s, c) == [[]] + tail;
      assert AllChar(rest, c) by {
        forall j | 0 <= j < |rest| ensures rest[j] == c {
          assert rest[j] == s[j + 1];
        }
      }
      AllCharGivesEmptyPieces(rest, c);
    } else {
      assert forall x :: x in s ==> x == c;
    }
  }

  /** Empty pieces only come from a string made of `c` only. */
  lemma {:induction false} EmptyPiecesGiveAllChar(s: string, c: char)
    requires AllEmpty(SplitPieces(s, c))
    ensures AllChar(s, c)
    decreases |s|
  {
    if c in s {
      var head := BeforeFirst(s, c);
      var rest := s[|head| + 1..];
      var tail := SplitPieces(rest, c);
      assert SplitPieces(s, c) == [head] + tail;
      assert head == [];
      assert rest == s[1..];
      assert AllEmpty(tail) by {
        forall i | 0 <= i < |tail| ensures tail[i] == [] {
          assert tail[i] == SplitPieces(s, c)[i + 1];
        }
      }
      EmptyPiecesGiveAllChar(rest, c);
      forall j | 0 <= j < |s| ensures s[j] == c {
        if j > 0 {
          assert s[j] == rest[j - 1];
        }
      }
    } else {
      assert SplitPieces(s, c) == [s];
    }
  }

  /** Every piece is empty exactly when the string consists of separators only. */
  lemma PiecesAllEmptyIff(s: string, c: char)
    ensures AllEmpty(SplitPieces(s, c)) <==> AllChar(s, c)
  {
    if AllChar(s, c) {
      AllCharGivesEmptyPieces(s, c);
    }
    if AllEmpty(SplitPieces(s, c)) {
      EmptyPiecesGiveAllChar(s, c);
    }
  }

  /** `s.split(c)` has no element exactly when `s` is non-empty and made of `c` only;
      otherwise its first element is the text before the first `c`. */
  lemma JavaSplitFirst(s: string, c: char)
    ensures |JavaSplit(s, c)| == 0 <==> |s| > 0 && AllChar(s, c)
    ensures |JavaSplit(s, c)| > 0 ==> JavaSplit(s, c)[0] == BeforeFirst(s, c)
  {
    if c in s {
      assert |s| > 0;
      PiecesAllEmptyIff(s, c);
      var ps := SplitPieces(s, c);
      var r := DropTrailingEmpty(ps);
      assert r == [] <==> AllEmpty(ps);
      if |r| > 0 {
        assert r[0] == ps[0];
      }
    } else if |s| > 0 {
      assert s[0] != c;
    }
  }
}
