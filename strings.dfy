/** The functions of Go's `strings` package that the command layer calls,
    restricted to the one-character separators it passes them. */
module GoStrings {

  /** Go's unicode.IsSpace: the ASCII white space, NEL, NO-BREAK SPACE and the
      other characters with the Unicode White_Space property. */
  predicate IsSpace(c: char) {
    || c == ' ' || c == '\t' || c == '\n' || c == '\U{000B}' || c == '\U{000C}' || c == '\r'
    || c == '\U{0085}' || c == '\U{00A0}' || c == '\U{1680}'
    || ('\U{2000}' <= c <= '\U{200A}')
    || c == '\U{2028}' || c == '\U{2029}' || c == '\U{202F}' || c == '\U{205F}' || c == '\U{3000}'
  }

  /** strings.Index with a one-character needle: the first position of `c`, or -1. */
  function Index(s: string, c: char): (idx: int)
    ensures -1 <= idx < |s|
    ensures idx == -1 <==> c !in s
    ensures 0 <= idx ==> s[idx] == c && c !in s[..idx]
  {
    if |s| == 0 then -1
    else if s[0] == c then 0
    else
      var i := Index(s[1..], c);
      assert s[1..] == s[..|s|][1..];
      if i == -1 then -1
      else
        assert s[..i + 1] == [s[0]] + s[1..][..i];
        i + 1
  }

  /** Index finds the separator right after a prefix that does not contain it. */
  lemma IndexAfterPrefix(k: string, c: char, v: string)
    requires c !in k
    ensures Index(k + [c] + v, c) == |k|
  {
    var s := k + [c] + v;
    assert s[|k|] == c;
    assert s[..|k|] == k;
  }

  /** strings.Split with a one-character separator: the pieces between the
      separators, in order (an empty string splits into one empty piece). */
  function Split(s: string, sep: char): (pieces: seq<string>)
    ensures |pieces| >= 1
    ensures forall p :: p in pieces ==> sep !in p
    decreases |s|
  {
    var i := Index(s, sep);
    if i == -1 then [s] else [s[..i]] + Split(s[i + 1..], sep)
  }

  /** strings.Join with a one-character separator, the inverse of Split. */
  function Join(pieces: seq<string>, sep: char): string {
    if |pieces| == 0 then ""
    else if |pieces| == 1 then pieces[0]
    else pieces[0] + [sep] + Join(pieces[1..], sep)
  }

  /** Joining a piece in front of at least one more puts a separator between. */
  lemma JoinCons(p: string, tail: seq<string>, sep: char)
    requires |tail| >= 1
    ensures Join([p] + tail, sep) == p + [sep] + Join(tail, sep)
  {
    assert ([p] + tail)[1..] == tail;
  }

  /** Joining the pieces of a split gives back the string. */
  lemma {:induction false} SplitThenJoin(s: string, sep: char)
    ensures Join(Split(s, sep), sep) == s
    decreases |s|
  {
    var i := Index(s, sep);
    if i != -1 {
      assert Split(s, sep) == [s[..i]] + Split(s[i + 1..], sep);
      JoinCons(s[..i], Split(s[i + 1..], sep), sep);
      SplitThenJoin(s[i + 1..], sep);
      assert s == s[..i] + [sep] + s[i + 1..];
    }
  }

  /** Splitting a join of separator-free pieces gives back the pieces. */
  lemma {:induction false} JoinThenSplit(pieces: seq<string>, sep: char)
    requires |pieces| >= 1
    requires forall p :: p in pieces ==> sep !in p
    ensures Split(Join(pieces, sep), sep) == pieces
  {
    if |pieces| > 1 {
      var rest := Join(pieces[1..], sep);
      IndexAfterPrefix(pieces[0], sep, rest);
      var s := pieces[0] + [sep] + rest;
      assert s[..|pieces[0]|] == pieces[0];
      assert s[|pieces[0]| + 1..] == rest;
      JoinThenSplit(pieces[1..], sep);
    } else {
      assert Join(pieces, sep) == pieces[0];
    }
  }

  /** The number of white space characters `s` starts with. */
  function LeadingSpaces(s: string): (n: nat)
    ensures n <= |s|
    ensures forall i :: 0 <= i < n ==> IsSpace(s[i])
    ensures n < |s| ==> !IsSpace(s[n])
  {
    if |s| > 0 && IsSpace(s[0]) then 1 + LeadingSpaces(s[1..]) else 0
  }

  /** The number of white space characters `s` ends with. */
  function TrailingSpaces(s: string): (n: nat)
    ensures n <= |s|
    ensures forall i :: |s| - n <= i < |s| ==> IsSpace(s[i])
    ensures n < |s| ==> !IsSpace(s[|s| - n - 1])
  {
    if |s| > 0 && IsSpace(s[|s| - 1]) then 1 + TrailingSpaces(s[..|s| - 1]) else 0
  }

  /** strings.TrimSpace: `s` without its leading and trailing white space. */
  function TrimSpace(s: string): (r: string)
    ensures |r| <= |s|
    ensures r == [] || (!IsSpace(r[0]) && !IsSpace(r[|r| - 1]))
  {
    var l := LeadingSpaces(s);
    if l == |s| then ""
    else
      var t := TrailingSpaces(s);
      assert l < |s| - t;
      s[l..|s| - t]
  }

  /** What TrimSpace keeps is taken from `s`, and it keeps nothing exactly
      when `s` is all white space. */
  lemma TrimSpaceContents(s: string)
    ensures forall c :: c in TrimSpace(s) ==> c in s
    ensures TrimSpace(s) == [] <==> forall i :: 0 <= i < |s| ==> IsSpace(s[i])
  {
    var l := LeadingSpaces(s);
    if l < |s| {
      var t := TrailingSpaces(s);
      assert l < |s| - t;
      assert TrimSpace(s)[0] == s[l];
    }
  }

  /** TrimSpace cuts white space only, from the two ends: with the ensures of
      TrimSpace this fixes the result. */
  lemma TrimSpaceCutsOnlySpace(s: string)
    ensures exists i, j ::
      && 0 <= i <= j <= |s|
      && TrimSpace(s) == s[i..j]
      && (forall k :: 0 <= k < i ==> IsSpace(s[k]))
      && (forall k :: j <= k < |s| ==> IsSpace(s[k]))
  {
    var l := LeadingSpaces(s);
    if l == |s| {
      assert TrimSpace(s) == s[l..l];
    } else {
      var t := TrailingSpaces(s);
      assert l < |s| - t;
      assert TrimSpace(s) == s[l..|s| - t];
    }
  }

  /** A string without leading or trailing white space is its own trim. */
  lemma TrimSpaceOfTrimmed(s: string)
    requires s == [] || (!IsSpace(s[0]) && !IsSpace(s[|s| - 1]))
    ensures TrimSpace(s) == s
  {
  }

  /** ASCII case folding of one character: an upper-case letter becomes the
      lower-case letter at the same place in the alphabet, anything else is
      kept. */
  function LowerChar(c: char): (r: char)
    ensures 'A' <= c <= 'Z' ==> 'a' <= r <= 'z' && r as int - 'a' as int == c as int - 'A' as int
    ensures !('A' <= c <= 'Z') ==> r == c
    ensures !('A' <= r <= 'Z')
  {
    if 'A' <= c <= 'Z' then (c as int + 32) as char else c
  }

  /** strings.ToLower over ASCII: the same length, each character folded
      where it stands. */
  function ToLower(s: string): (r: string)
    ensures |r| == |s|
    ensures forall i :: 0 <= i < |s| ==> r[i] == LowerChar(s[i])
    ensures forall i :: 0 <= i < |r| ==> !('A' <= r[i] <= 'Z')
  {
    seq(|s|, i requires 0 <= i < |s| => LowerChar(s[i]))
  }

  /** strings.ReplaceAll with one-character old and new strings: the same
      length, every `from` turned into `to`, every other character kept. */
  function ReplaceAll(s: string, from: char, to: char): (r: string)
    ensures |r| == |s|
    ensures forall i :: 0 <= i < |s| && s[i] == from ==> r[i] == to
    ensures forall i :: 0 <= i < |s| && s[i] != from ==> r[i] == s[i]
    ensures from != to ==> from !in r
  {
    seq(|s|, i requires 0 <= i < |s| => if s[i] == from then to else s[i])
  }
}
