/** JavaScript string helpers the configuration loader relies on: `split` on a
    single-character separator, `join`, and `trim` with the exact set of
    characters ECMAScript counts as white space or line terminators. */
module Strings {

  /** ECMAScript WhiteSpace and LineTerminator code points, which `trim` removes. */
  predicate IsWhiteSpace(c: char) {
    c in {'\t', '\n', '\U{000B}', '\U{000C}', '\r', ' ', '\U{00A0}', '\U{1680}',
          '\U{2000}', '\U{2001}', '\U{2002}', '\U{2003}', '\U{2004}', '\U{2005}', '\U{2006}',
          '\U{2007}', '\U{2008}', '\U{2009}', '\U{200A}', '\U{2028}', '\U{2029}', '\U{202F}',
          '\U{205F}', '\U{3000}', '\U{FEFF}'}
  }

  predicate AllWhiteSpace(s: string) {
    forall i :: 0 <= i < |s| ==> IsWhiteSpace(s[i])
  }

  /** Neither end of `s` is white space. */
  predicate Trimmed(s: string) {
    s == [] || (!IsWhiteSpace(s[0]) && !IsWhiteSpace(s[|s| - 1]))
  }

  /** The length of the run of white space at the front of `s`. */
  function LeadingSpace(s: string): (i: nat)
    ensures i <= |s| && AllWhiteSpace(s[..i])
    ensures i < |s| ==> !IsWhiteSpace(s[i])
  {
    if s != [] && IsWhiteSpace(s[0]) then
      var i := 1 + LeadingSpace(s[1..]);
      assert s[..i] == [s[0]] + s[1..][..i - 1];
      i
    else 0
  }

  /** Where the run of white space at the end of `s` starts. */
  function TrailingStart(s: string): (j: nat)
    ensures j <= |s| && AllWhiteSpace(s[j..])
    ensures j > 0 ==> !IsWhiteSpace(s[j - 1])
  {
    if s != [] && IsWhiteSpace(s[|s| - 1]) then
      var init := s[..|s| - 1];
      var j := TrailingStart(init);
      assert s[j..] == init[j..] + [s[|s| - 1]];
      j
    else |s|
  }

  /** `s.trim()`: what is left after removing the white space at both ends. */
  function Trim(s: string): (r: string)
    ensures Trimmed(r)
    ensures |r| <= |s|
    ensures forall k :: 0 <= k < |r| ==> r[k] in s
    ensures exists i, j :: 0 <= i <= j <= |s| && r == s[i..j] && AllWhiteSpace(s[..i]) && AllWhiteSpace(s[j..])
  {
    var i := LeadingSpace(s);
    var t := s[i..];
    var j := TrailingStart(t);
    assert t != [] ==> !IsWhiteSpace(t[0]);
    assert forall k :: 0 <= k < j ==> t[..j][k] == s[i + k];
    assert t[..j] == s[i..i + j] && t[j..] == s[i + j..];
    t[..j]
  }

  /** Trimming twice is trimming once. */
  lemma TrimIdempotent(s: string)
    ensures Trim(Trim(s)) == Trim(s)
  {
    var t := Trim(s);
    assert LeadingSpace(t) == 0;
    assert t[0..] == t;
    assert TrailingStart(t) == |t|;
  }

  /** The number of occurrences of `c` in `s`. */
  function Count(s: string, c: char): nat {
    if s == [] then 0 else (if s[0] == c then 1 else 0) + Count(s[1..], c)
  }

  /** `s.split(sep)` for a one-character separator: the pieces between
      separators, empty pieces included. */
  function Split(s: string, sep: char): (r: seq<string>)
    ensures |r| == Count(s, sep) + 1
    ensures forall i :: 0 <= i < |r| ==> sep !in r[i]
  {
    if s == [] then [""]
    else
      var rest := Split(s[1..], sep);
      if s[0] == sep then [""] + rest
      else [[s[0]] + rest[0]] + rest[1..]
  }

  /** `parts.join(sep)`. */
  function Join(parts: seq<string>, sep: string): string {
    if parts == [] then ""
    else if |parts| == 1 then parts[0]
    else parts[0] + sep + Join(parts[1..], sep)
  }

  lemma JoinOne(parts: seq<string>, sep: string)
    requires |parts| == 1
    ensures Join(parts, sep) == parts[0]
  {
  }

  lemma JoinCons(parts: seq<string>, sep: string)
    requires |parts| >= 2
    ensures Join(parts, sep) == parts[0] + sep + Join(parts[1..], sep)
  {
  }

  /** Joining the pieces with the separator gives the string back. */
  lemma {:induction false} JoinSplit(s: string, sep: char)
    ensures Join(Split(s, sep), [sep]) == s
  {
    if s != [] {
      var rest := Split(s[1..], sep);
      JoinSplit(s[1..], sep);
      if s[0] != sep {
        var j := Join(rest, [sep]);
        if |rest| == 1 {
          assert Join(Split(s, sep), [sep]) == [s[0]] + rest[0];
        } else {
          assert j == rest[0] + [sep] + Join(rest[1..], [sep]);
          assert Join(Split(s, sep), [sep]) == [s[0]] + rest[0] + [sep] + Join(rest[1..], [sep]);
        }
        assert s == [s[0]] + s[1..];
      } else {
        assert Join(Split(s, sep), [sep]) == "" + [sep] + Join(rest, [sep]);
        assert s == [sep] + s[1..];
      }
    }
  }

  /** Splitting the join of pieces that do not contain the separator gives the
      pieces back. */
  lemma {:induction false} SplitJoin(parts: seq<string>, sep: char)
    requires |parts| >= 1
    requires forall i :: 0 <= i < |parts| ==> sep !in parts[i]
    ensures Split(Join(parts, [sep]), sep) == parts
    decreases |parts|, |parts[0]|
  {
    var p := parts[0];
    if |parts| == 1 {
      SplitPiece(p, sep, []);
      assert p + [] == p && p + "" == p;
    } else {
      var tail := Join(parts[1..], [sep]);
      SplitJoin(parts[1..], sep);
      SplitPiece(p, sep, [sep] + tail);
      assert Join(parts, [sep]) == p + ([sep] + tail);
      assert Split([sep] + tail, sep) == [""] + parts[1..] by {
        assert ([sep] + tail)[1..] == tail;
      }
      assert p + "" == p && [p] + parts[1..] == parts;
    }
  }

  /** A piece without the separator, followed by `rest`, is glued to the first
      piece of `rest`. */
  lemma {:induction false} SplitPiece(p: string, sep: char, rest: string)
    requires sep !in p
    ensures var r := Split(rest, sep);
      Split(p + rest, sep) == [p + r[0]] + r[1..]
    decreases |p|
  {
    if p != [] {
      SplitPiece(p[1..], sep, rest);
      assert (p + rest)[0] == p[0] && (p + rest)[1..] == p[1..] + rest;
      assert [p[0]] + (p[1..] + Split(rest, sep)[0]) == p + Split(rest, sep)[0];
    } else {
      var r := Split(rest, sep);
      assert p + rest == rest && p + r[0] == r[0] && r == [r[0]] + r[1..];
    }
  }
}
