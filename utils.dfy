/**
 * Excerpt truncation (src/lib/utils.ts). HTML stripping is done by the
 * browser's DOMParser, so it is a parameter here; `trim` and `substring`
 * are modelled after their ECMAScript definitions.
 */
module Utils {

  /** The `length` an excerpt gets when the caller gives none. */
  const DefaultExcerptLength: int := 160

  /** The characters String.prototype.trim removes: ECMAScript's WhiteSpace and LineTerminator code points. */
  predicate IsWhitespace(c: char) {
    || c == '\t' || c == '\n' || c == '\U{000B}' || c == '\U{000C}' || c == '\r' || c == ' '
    || c == '\U{00A0}' || c == '\U{1680}' || ('\U{2000}' <= c <= '\U{200A}')
    || c == '\U{2028}' || c == '\U{2029}' || c == '\U{202F}' || c == '\U{205F}'
    || c == '\U{3000}' || c == '\U{FEFF}'
  }

  /** s without its leading whitespace. */
  function TrimStart(s: string): (r: string)
    ensures |r| <= |s| && r == s[|s| - |r|..]
    ensures r == [] || !IsWhitespace(r[0])
    ensures forall k :: 0 <= k < |s| - |r| ==> IsWhitespace(s[k])
  {
    if s != [] && IsWhitespace(s[0]) then TrimStart(s[1..]) else s
  }

  /** s without its trailing whitespace. */
  function TrimEnd(s: string): (r: string)
    ensures |r| <= |s| && r == s[..|r|]
    ensures r == [] || !IsWhitespace(r[|r| - 1])
    ensures forall k :: |r| <= k < |s| ==> IsWhitespace(s[k])
  {
    if s != [] && IsWhitespace(s[|s| - 1]) then TrimEnd(s[..|s| - 1]) else s
  }

  /** r is the slice of s starting at i, and only whitespace of s lies outside that slice. */
  ghost predicate TrimAt(r: string, s: string, i: int) {
    && 0 <= i <= |s| - |r| && r == s[i..i + |r|]
    && (forall k :: 0 <= k < i ==> IsWhitespace(s[k]))
    && (forall k :: i + |r| <= k < |s| ==> IsWhitespace(s[k]))
  }

  /** r is what is left of s once the whitespace at both of its ends is gone. */
  ghost predicate IsTrimOf(r: string, s: string) {
    && (r == [] || (!IsWhitespace(r[0]) && !IsWhitespace(r[|r| - 1])))
    && exists i :: TrimAt(r, s, i)
  }

  /** String.prototype.trim. */
  function Trim(s: string): (r: string)
    ensures IsTrimOf(r, s)
  {
    TrimBothEnds(s);
    TrimEnd(TrimStart(s))
  }

  /** Trimming the start and then the end leaves the inner slice of s. */
  lemma TrimBothEnds(s: string)
    ensures IsTrimOf(TrimEnd(TrimStart(s)), s)
  {
    var t := TrimStart(s);
    var r := TrimEnd(t);
    assert r == s[|s| - |t|..][..|r|] == s[|s| - |t|..|s| - |t| + |r|];
    assert r != [] ==> r[0] == t[0];
    assert TrimAt(r, s, |s| - |t|) by {
      forall k | |s| - |t| + |r| <= k < |s| ensures IsWhitespace(s[k]) {
        assert s[k] == t[k - (|s| - |t|)];
      }
    }
  }

  /** At most one string is the trim of s, so the contract of Trim pins its result down. */
  lemma TrimOfUnique(r1: string, r2: string, s: string)
    requires IsTrimOf(r1, s) && IsTrimOf(r2, s)
    ensures r1 == r2
  {
    var i1 :| TrimAt(r1, s, i1);
    var i2 :| TrimAt(r2, s, i2);
    if r1 != [] && r2 != [] {
      assert s[i1] == r1[0] && s[i2] == r2[0];
      assert i1 == i2;
      assert s[i1 + |r1| - 1] == r1[|r1| - 1] && s[i2 + |r2| - 1] == r2[|r2| - 1];
      assert |r1| == |r2|;
    } else if r1 != [] || r2 != [] {
      assert false;
    }
  }

  /** Trimming twice is trimming once. */
  lemma TrimIdempotent(s: string)
    ensures Trim(Trim(s)) == Trim(s)
  {
    var t := Trim(s);
    assert IsTrimOf(t, t) by {
      assert TrimAt(t, t, 0);
    }
    TrimOfUnique(Trim(t), t, t);
  }

  /** String.prototype.substring: both indices are clamped to [0, |s|] and swapped when out of order. */
  function Substring(s: string, start: int, end: int): (r: string)
    ensures |r| <= |s|
  {
    var a, b := Clamp(start, |s|), Clamp(end, |s|);
    if a <= b then s[a..b] else s[b..a]
  }

  /** The order of the two indices does not matter. */
  lemma SubstringSymmetric(s: string, start: int, end: int)
    ensures Substring(s, start, end) == Substring(s, end, start)
  {
  }

  /** Indices in order and inside s select exactly the slice between them. */
  lemma SubstringSlice(s: string, start: int, end: int)
    requires 0 <= start <= end <= |s|
    ensures Substring(s, start, end) == s[start..end]
  {
  }

  /** An index at or below 0 acts as 0, one at or past the end of s acts as |s|. */
  lemma SubstringClamps(s: string, start: int, end: int)
    ensures start <= 0 ==> Substring(s, start, end) == Substring(s, 0, end)
    ensures end <= 0 ==> Substring(s, start, end) == Substring(s, start, 0)
    ensures start >= |s| ==> Substring(s, start, end) == Substring(s, |s|, end)
    ensures end >= |s| ==> Substring(s, start, end) == Substring(s, start, |s|)
    ensures start == end ==> Substring(s, start, end) == []
  {
  }

  function Clamp(i: int, len: nat): (r: nat)
    ensures r <= len
  {
    if i < 0 then 0 else if i > len then len else i
  }

  /**
   * getExcerpt: the visible text of `content`, kept whole when it fits in
   * `length` characters and otherwise cut to `length`, trimmed and followed
   * by "...".
   */
  function GetExcerpt(stripHtmlTags: string -> string, content: string, length: int): (r: string)
    ensures var raw := stripHtmlTags(content);
      && (|raw| <= length ==> r == raw)
      && (|raw| > length ==>
            && |r| >= 3 && r[|r| - 3..] == "..."
            && IsTrimOf(r[..|r| - 3], raw[..Clamp(length, |raw|)]))
      && (length >= 0 ==> |r| <= length + 3)
  {
    var raw := stripHtmlTags(content);
    if |raw| <= length then raw
    else
      var t := Trim(Substring(raw, 0, length));
      assert (t + "...")[..|t|] == t;
      t + "..."
  }

  /** getExcerpt(content) with the default length of 160. */
  function GetExcerptDefault(stripHtmlTags: string -> string, content: string): (r: string)
    ensures r == GetExcerpt(stripHtmlTags, content, DefaultExcerptLength)
    ensures |r| <= 163
    ensures |stripHtmlTags(content)| <= 160 ==> r == stripHtmlTags(content)
  {
    GetExcerpt(stripHtmlTags, content, DefaultExcerptLength)
  }
}
