/**
  The ECMAScript string built-ins the configuration code relies on:
  `String.prototype.trim`, `String.prototype.split` with a one-character
  separator, and the `.map(trim).filter(nonEmpty)` chain that the code
  applies after every split. `Join` is not called by the code; it is the
  inverse of `Split` that states the round trips.
 */
module JsString {

  /** ECMAScript WhiteSpace and LineTerminator code points: what `trim` removes and `parseInt` skips. */
  predicate IsWhiteSpace(c: char) {
    || c == '\t' || c == '\U{000B}' || c == '\U{000C}' || c == ' '
    || c == '\U{00A0}' || c == '\U{FEFF}' || c == '\U{1680}'
    || ('\U{2000}' <= c <= '\U{200A}')
    || c == '\U{202F}' || c == '\U{205F}' || c == '\U{3000}'
    || c == '\n' || c == '\r' || c == '\U{2028}' || c == '\U{2029}'
  }

  predicate AllWhiteSpace(s: string) {
    forall k :: 0 <= k < |s| ==> IsWhiteSpace(s[k])
  }

  /** Neither starts nor ends with white space: a fixed point of `trim`. */
  predicate IsTrimmed(s: string) {
    |s| == 0 || (!IsWhiteSpace(s[0]) && !IsWhiteSpace(s[|s| - 1]))
  }

  /** Length of the longest all-white-space prefix. */
  function LeadingWhiteSpace(s: string): (n: nat)
    ensures n <= |s|
    ensures AllWhiteSpace(s[..n])
    ensures n < |s| ==> !IsWhiteSpace(s[n])
  {
    if |s| == 0 || !IsWhiteSpace(s[0]) then 0
    else
      var m := LeadingWhiteSpace(s[1..]);
      assert s[1..][..m] == s[1..m + 1];
      1 + m
  }

  /** Length of the longest all-white-space suffix. */
  function TrailingWhiteSpace(s: string): (n: nat)
    ensures n <= |s|
    ensures forall k :: |s| - n <= k < |s| ==> IsWhiteSpace(s[k])
    ensures n < |s| ==> !IsWhiteSpace(s[|s| - 1 - n])
  {
    if |s| == 0 || !IsWhiteSpace(s[|s| - 1]) then 0
    else 1 + TrailingWhiteSpace(s[..|s| - 1])
  }

  /** The whitespace-skipping first step of `parseInt`. */
  function TrimStart(s: string): (r: string)
    ensures |r| <= |s| && r == s[|s| - |r|..]
    ensures AllWhiteSpace(s[..|s| - |r|])
    ensures |r| == 0 || !IsWhiteSpace(r[0])
  {
    s[LeadingWhiteSpace(s)..]
  }

  /** `s.trim()`: the middle of `s` left once the white space at both ends is removed. */
  function Trim(s: string): (r: string)
    ensures IsTrimmed(r)
    ensures forall c :: c in r ==> c in s
    ensures exists i :: 0 <= i <= |s| - |r| && r == s[i..i + |r|] && AllWhiteSpace(s[..i]) && AllWhiteSpace(s[i + |r|..])
  {
    var i := LeadingWhiteSpace(s);
    var t := s[i..];
    var j := |t| - TrailingWhiteSpace(t);
    assert t[..j] == s[i..i + j];
    assert t[j..] == s[i + j..];
    assert AllWhiteSpace(s[i + j..]);
    t[..j]
  }

  /** `s.split(sep)` for a one-character separator: the pieces between separators, `[""]` for `""`. */
  function Split(s: string, sep: char): (parts: seq<string>)
    ensures |parts| >= 1
    ensures forall i :: 0 <= i < |parts| ==> sep !in parts[i]
    ensures forall i, c :: 0 <= i < |parts| && c in parts[i] ==> c in s
    ensures sep !in s ==> parts == [s]
    decreases |s|
  {
    if |s| == 0 then [""]
    else
      var rest := Split(s[1..], sep);
      assert forall c :: c in s[1..] ==> c in s;
      if s[0] == sep then [""] + rest
      else
        assert [s[0]] + s[1..] == s;
        [[s[0]] + rest[0]] + rest[1..]
  }

  /** `parts.join(sep)`, the inverse of `Split`. */
  function Join(parts: seq<string>, sep: char): string
  {
    if |parts| == 0 then ""
    else if |parts| == 1 then parts[0]
    else parts[0] + [sep] + Join(parts[1..], sep)
  }

  /** `.map(p => p.trim()).filter(p => p.length > 0)`: trimmed pieces, empty ones dropped, order kept. */
  function NonEmptyTrimmed(parts: seq<string>): (r: seq<string>)
    ensures |r| <= |parts|
    ensures forall i :: 0 <= i < |r| ==> r[i] != "" && IsTrimmed(r[i])
  {
    if |parts| == 0 then []
    else
      var t := Trim(parts[0]);
      (if t == "" then [] else [t]) + NonEmptyTrimmed(parts[1..])
  }

  /** `s.split(sep).map(trim).filter(nonEmpty)`: the non-blank, trimmed, separator-free fields of `s`. */
  function Tokens(s: string, sep: char): (r: seq<string>)
    ensures forall i :: 0 <= i < |r| ==> r[i] != "" && IsTrimmed(r[i]) && sep !in r[i]
    ensures forall i, c :: 0 <= i < |r| && c in r[i] ==> c in s
  {
    var parts := Split(s, sep);
    NonEmptyTrimmedAvoids(parts, sep);
    NonEmptyTrimmedChars(parts, s);
    NonEmptyTrimmed(parts)
  }

  /** A character absent from every piece is absent from every token. */
  lemma {:induction false} NonEmptyTrimmedAvoids(parts: seq<string>, c: char)
    requires forall j :: 0 <= j < |parts| ==> c !in parts[j]
    ensures forall i :: 0 <= i < |NonEmptyTrimmed(parts)| ==> c !in NonEmptyTrimmed(parts)[i]
  {
    if |parts| > 0 {
      NonEmptyTrimmedAvoids(parts[1..], c);
    }
  }

  /** Every character of a token comes from `s` when every character of every piece does. */
  lemma {:induction false} NonEmptyTrimmedChars(parts: seq<string>, s: string)
    requires forall j, c :: 0 <= j < |parts| && c in parts[j] ==> c in s
    ensures forall i, c :: 0 <= i < |NonEmptyTrimmed(parts)| && c in NonEmptyTrimmed(parts)[i] ==> c in s
  {
    if |parts| > 0 {
      NonEmptyTrimmedChars(parts[1..], s);
      var t := Trim(parts[0]);
      assert forall c :: c in t ==> c in parts[0];
    }
  }

  /** Trimming is the identity on a string that is already trimmed. */
  lemma TrimOfTrimmed(s: string)
    requires IsTrimmed(s)
    ensures Trim(s) == s
  {
    if |s| > 0 {
      assert LeadingWhiteSpace(s) == 0;
      assert TrailingWhiteSpace(s) == 0;
    }
  }

  /** `trim` is idempotent. */
  lemma TrimIdempotent(s: string)
    ensures Trim(Trim(s)) == Trim(s)
  {
    TrimOfTrimmed(Trim(s));
  }

  /** `trim` removes exactly the white space around a trimmed core: `Trim(ws + m + ws') == m`. */
  lemma TrimStripsSurroundingWhiteSpace(a: string, m: string, b: string)
    requires AllWhiteSpace(a) && AllWhiteSpace(b) && IsTrimmed(m)
    ensures Trim(a + m + b) == m
  {
    var s := a + m + b;
    var i := LeadingWhiteSpace(s);
    if |m| == 0 {
      assert s == a + b;
      assert AllWhiteSpace(s);
      assert i == |s|;
    } else {
      assert s[|a|] == m[0];
      assert i == |a|;
      var t := s[i..];
      assert t == m + b;
      assert t[|t| - 1 - |b|] == m[|m| - 1];
      assert TrailingWhiteSpace(t) == |b|;
      assert t[..|m|] == m;
    }
  }

  /** Splitting at a separator splits the pieces on either side independently. */
  lemma {:induction false} SplitAtSeparator(x: string, y: string, sep: char)
    ensures Split(x + [sep] + y, sep) == Split(x, sep) + Split(y, sep)
    decreases |x|
  {
    var s := x + [sep] + y;
    if |x| == 0 {
      assert s[1..] == y;
    } else {
      assert s[1..] == x[1..] + [sep] + y;
      SplitAtSeparator(x[1..], y, sep);
    }
  }

  /** Joining the pieces of a split gives back the original string. */
  lemma {:induction false} JoinSplit(s: string, sep: char)
    ensures Join(Split(s, sep), sep) == s
    decreases |s|
  {
    if |s| > 0 {
      JoinSplit(s[1..], sep);
      var rest := Split(s[1..], sep);
      if s[0] != sep && |rest| > 1 {
        assert rest == [rest[0]] + rest[1..];
        assert Join(rest, sep) == rest[0] + [sep] + Join(rest[1..], sep);
        var parts := Split(s, sep);
        assert parts[1..] == rest[1..];
      }
    }
  }

  /** Splitting a join of separator-free pieces gives back the pieces. */
  lemma {:induction false} SplitJoin(parts: seq<string>, sep: char)
    requires |parts| >= 1
    requires forall i :: 0 <= i < |parts| ==> sep !in parts[i]
    ensures Split(Join(parts, sep), sep) == parts
    decreases |parts|
  {
    if |parts| > 1 {
      SplitJoin(parts[1..], sep);
      SplitAtSeparator(parts[0], Join(parts[1..], sep), sep);
      assert parts == [parts[0]] + parts[1..];
    }
  }

  /** Trimming and dropping empties distributes over concatenation: order is preserved. */
  lemma {:induction false} NonEmptyTrimmedAppend(a: seq<string>, b: seq<string>)
    ensures NonEmptyTrimmed(a + b) == NonEmptyTrimmed(a) + NonEmptyTrimmed(b)
    decreases |a|
  {
    if |a| == 0 {
      assert a + b == b;
    } else {
      assert (a + b)[1..] == a[1..] + b;
      NonEmptyTrimmedAppend(a[1..], b);
    }
  }

  /** A token is exactly a non-empty trimmed piece. */
  lemma {:induction false} NonEmptyTrimmedMembers(parts: seq<string>, x: string)
    ensures x in NonEmptyTrimmed(parts) <==> x != "" && exists j :: 0 <= j < |parts| && Trim(parts[j]) == x
  {
    if |parts| > 0 {
      NonEmptyTrimmedMembers(parts[1..], x);
      if x != "" && Trim(parts[0]) != x && exists j :: 0 <= j < |parts| && Trim(parts[j]) == x {
        var j :| 0 <= j < |parts| && Trim(parts[j]) == x;
        assert parts[1..][j - 1] == parts[j];
      }
    }
  }

  /** A character that is neither the separator nor in any piece is not in the join. */
  lemma {:induction false} JoinAvoids(parts: seq<string>, sep: char, c: char)
    requires c != sep && forall k :: 0 <= k < |parts| ==> c !in parts[k]
    ensures c !in Join(parts, sep)
    decreases |parts|
  {
    if |parts| > 1 {
      JoinAvoids(parts[1..], sep, c);
    }
  }

  /** Joining non-empty trimmed pieces gives a non-empty trimmed string. */
  lemma {:induction false} JoinOfTrimmed(parts: seq<string>, sep: char)
    requires |parts| >= 1 && forall k :: 0 <= k < |parts| ==> parts[k] != "" && IsTrimmed(parts[k])
    ensures var j := Join(parts, sep);
            j != "" && IsTrimmed(j) && j[0] == parts[0][0] && j[|j| - 1] == parts[|parts| - 1][|parts[|parts| - 1]| - 1]
    decreases |parts|
  {
    if |parts| > 1 {
      JoinOfTrimmed(parts[1..], sep);
    }
  }

  /** Trimming and dropping empties leaves a list of non-empty trimmed strings unchanged. */
  lemma {:induction false} NonEmptyTrimmedOfTrimmed(parts: seq<string>)
    requires forall k :: 0 <= k < |parts| ==> parts[k] != "" && IsTrimmed(parts[k])
    ensures NonEmptyTrimmed(parts) == parts
    decreases |parts|
  {
    if |parts| > 0 {
      TrimOfTrimmed(parts[0]);
      NonEmptyTrimmedOfTrimmed(parts[1..]);
    }
  }

  /** `Tokens` inverts `Join` on non-empty, trimmed, separator-free fields. */
  lemma TokensOfJoin(parts: seq<string>, sep: char)
    requires |parts| >= 1
    requires forall k :: 0 <= k < |parts| ==> parts[k] != "" && IsTrimmed(parts[k]) && sep !in parts[k]
    ensures Tokens(Join(parts, sep), sep) == parts
  {
    SplitJoin(parts, sep);
    NonEmptyTrimmedOfTrimmed(parts);
  }
}
