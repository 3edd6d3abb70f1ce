/** Texts such as "2h 30m 15s" that the server and the dashboard build from a
    number of seconds: space-separated tokens, each an integer followed by the
    unit `h`, `m` or `s`. `ParseClock` reads such a text back to seconds; every
    formatter is proved against it. */
module Durations {
  import opened Wrappers
  import opened Decimal
  import opened Strings

  /** Seconds per unit. */
  function UnitSeconds(u: char): Option<int> {
    if u == 'h' then Some(3600)
    else if u == 'm' then Some(60)
    else if u == 's' then Some(1)
    else None
  }

  /** `${n}h`, `${n}m` or `${n}s`. */
  function Token(n: int, u: char): string {
    IntToString(n) + [u]
  }

  predicate ValidUnits(tokens: seq<(int, char)>) {
    forall i :: 0 <= i < |tokens| ==> UnitSeconds(tokens[i].1).Some?
  }

  function Tokens(tokens: seq<(int, char)>): (r: seq<string>)
    ensures |r| == |tokens|
  {
    if tokens == [] then [] else [Token(tokens[0].0, tokens[0].1)] + Tokens(tokens[1..])
  }

  /** The seconds the tokens stand for. */
  function Seconds(tokens: seq<(int, char)>): int
    requires ValidUnits(tokens)
  {
    if tokens == [] then 0
    else tokens[0].0 * UnitSeconds(tokens[0].1).value + Seconds(tokens[1..])
  }

  /** Reads a text of tokens back to the number of seconds it denotes. */
  function ParseClock(t: string): Option<int>
    decreases |t|, 1
  {
    var r := ReadInt(t);
    if r.None? then None else ParseUnit(r.value.0, r.value.1)
  }

  /** The rest of a token whose number `n` has been read. */
  function ParseUnit(n: int, rest: string): Option<int>
    decreases |rest|, 0
  {
    if rest == [] || UnitSeconds(rest[0]).None? then None
    else
      var w := UnitSeconds(rest[0]).value;
      var after := rest[1..];
      if after == [] then Some(n * w)
      else if after[0] != ' ' then None
      else
        var more := ParseClock(after[1..]);
        if more.None? then None else Some(n * w + more.value)
  }

  lemma ConcatAssoc(a: string, b: string, c: string)
    ensures (a + b) + c == a + (b + c)
  {
  }

  /** Reading the number back stops at the unit. */
  lemma ReadToken(n: int, u: char, tail: string)
    requires UnitSeconds(u).Some?
    ensures ReadInt(Token(n, u) + tail) == Some((n, [u] + tail))
  {
    ReadIntString(n, [u] + tail);
    ConcatAssoc(IntToString(n), [u], tail);
  }

  /** A token that ends the text. */
  lemma ParseLastToken(n: int, u: char)
    requires UnitSeconds(u).Some?
    ensures ParseClock(Token(n, u)) == Some(n * UnitSeconds(u).value)
  {
    ReadToken(n, u, []);
    assert Token(n, u) + [] == Token(n, u);
    assert ([u] + [])[1..] == [];
  }

  /** A text made of a token, a space and more text that reads as `k` seconds. */
  lemma ParseTokenThenMore(text: string, n: int, u: char, w: int, more: string, k: int, total: int)
    requires UnitSeconds(u) == Some(w) && ParseClock(more) == Some(k)
    requires text == Token(n, u) + (" " + more) && total == n * w + k
    ensures ParseClock(text) == Some(total)
  {
    ReadToken(n, u, " " + more);
    ParseAfterNumber(text, n, [u] + (" " + more), u, w, more, k, total);
  }

  /** The same, once the number at the front has been read. */
  lemma ParseAfterNumber(text: string, n: int, rest: string, u: char, w: int, more: string, k: int, total: int)
    requires UnitSeconds(u) == Some(w) && ParseClock(more) == Some(k)
    requires ReadInt(text) == Some((n, rest)) && rest == [u] + (" " + more) && total == n * w + k
    ensures ParseClock(text) == Some(total)
  {
    UnitThenMore(n, u, w, rest, more, k);
    ParseClockStep(text, n, rest);
  }

  /** A text whose leading number is `n` reads as its rest after `n`. */
  lemma ParseClockStep(text: string, n: int, rest: string)
    requires ReadInt(text) == Some((n, rest))
    ensures ParseClock(text) == ParseUnit(n, rest)
  {
  }

  /** A unit, a space and more text that reads as `k` seconds. */
  lemma UnitThenMore(n: int, u: char, w: int, rest: string, more: string, k: int)
    requires UnitSeconds(u) == Some(w) && ParseClock(more) == Some(k)
    requires rest == [u] + (" " + more)
    ensures ParseUnit(n, rest) == Some(n * w + k)
  {
    assert rest[0] == u;
    assert rest[1..] == " " + more;
    assert rest[1..][1..] == more;
  }

  /** The text of two or more tokens: the first, a space, the text of the rest. */
  lemma JoinTokensCons(tokens: seq<(int, char)>)
    requires |tokens| >= 2
    ensures Join(Tokens(tokens), " ") == Token(tokens[0].0, tokens[0].1) + (" " + Join(Tokens(tokens[1..]), " "))
  {
    var ts := Tokens(tokens);
    assert ts[0] == Token(tokens[0].0, tokens[0].1) && ts[1..] == Tokens(tokens[1..]);
    JoinCons(ts, " ");
    ConcatAssoc(ts[0], " ", Join(ts[1..], " "));
  }

  /** The seconds of a token list: its first token's plus the rest's. */
  lemma SecondsCons(tokens: seq<(int, char)>)
    requires |tokens| >= 1 && ValidUnits(tokens)
    ensures ValidUnits(tokens[1..])
    ensures Seconds(tokens) == tokens[0].0 * UnitSeconds(tokens[0].1).value + Seconds(tokens[1..])
  {
  }

  /** One step of `ParseTokens`: the first token in front of a text that parses. */
  lemma ParseTokensCons(tokens: seq<(int, char)>)
    requires |tokens| >= 2 && ValidUnits(tokens)
    requires ParseClock(Join(Tokens(tokens[1..]), " ")) == Some(Seconds(tokens[1..]))
    ensures ParseClock(Join(Tokens(tokens), " ")) == Some(Seconds(tokens))
  {
    JoinTokensCons(tokens);
    SecondsCons(tokens);
    ParseTokenThenMore(Join(Tokens(tokens), " "), tokens[0].0, tokens[0].1, UnitSeconds(tokens[0].1).value,
                       Join(Tokens(tokens[1..]), " "), Seconds(tokens[1..]), Seconds(tokens));
  }

  /** Parsing the tokens joined by spaces gives back the seconds they stand for. */
  lemma {:induction false} ParseTokens(tokens: seq<(int, char)>)
    requires |tokens| >= 1 && ValidUnits(tokens)
    ensures ParseClock(Join(Tokens(tokens), " ")) == Some(Seconds(tokens))
  {
    if |tokens| == 1 {
      var ts := Tokens(tokens);
      assert ts[0] == Token(tokens[0].0, tokens[0].1);
      JoinOne(ts, " ");
      SecondsCons(tokens);
      ParseLastToken(tokens[0].0, tokens[0].1);
    } else {
      ParseTokens(tokens[1..]);
      ParseTokensCons(tokens);
    }
  }

  /** Whole minutes below an hour, read back. */
  lemma WholeMinutesLabel(d: int)
    requires 60 <= d && d / 60 < 60
    ensures ParseClock(Token(d / 60, 'm')) == Some(d - d % 60)
  {
    ParseLastToken(d / 60, 'm');
    assert UnitSeconds('m') == Some(60);
  }

  /** The text and the seconds of a list of two tokens. */
  lemma TwoTokensText(a: int, u: char, b: int, v: char)
    requires UnitSeconds(u).Some? && UnitSeconds(v).Some?
    ensures ValidUnits([(a, u), (b, v)])
    ensures Join(Tokens([(a, u), (b, v)]), " ") == Token(a, u) + " " + Token(b, v)
    ensures Seconds([(a, u), (b, v)]) == a * UnitSeconds(u).value + b * UnitSeconds(v).value
  {
    var ts := [(a, u), (b, v)];
    assert ts[1..] == [(b, v)];
    assert Tokens(ts) == [Token(a, u), Token(b, v)];
    JoinCons(Tokens(ts), " ");
    JoinOne([Token(b, v)], " ");
    SecondsCons(ts);
    SecondsCons([(b, v)]);
    assert [(b, v)][1..] == [];
  }

  /** Two tokens separated by one space. */
  lemma ParseTwoTokens(a: int, u: char, b: int, v: char)
    requires UnitSeconds(u).Some? && UnitSeconds(v).Some?
    ensures ParseClock(Token(a, u) + " " + Token(b, v)) == Some(a * UnitSeconds(u).value + b * UnitSeconds(v).value)
  {
    TwoTokensText(a, u, b, v);
    ParseTokens([(a, u), (b, v)]);
  }

  lemma {:induction false} TokensAppend(a: seq<(int, char)>, b: seq<(int, char)>)
    ensures Tokens(a + b) == Tokens(a) + Tokens(b)
  {
    if a != [] {
      assert (a + b)[0] == a[0] && (a + b)[1..] == a[1..] + b;
      TokensAppend(a[1..], b);
    } else {
      assert a + b == b;
    }
  }

  lemma {:induction false} SecondsAppend(a: seq<(int, char)>, b: seq<(int, char)>)
    requires ValidUnits(a) && ValidUnits(b)
    ensures ValidUnits(a + b) && Seconds(a + b) == Seconds(a) + Seconds(b)
  {
    assert ValidUnits(a + b) by {
      forall i | 0 <= i < |a + b| ensures UnitSeconds((a + b)[i].1).Some? {
        if i < |a| { assert (a + b)[i] == a[i]; } else { assert (a + b)[i] == b[i - |a|]; }
      }
    }
    if a != [] {
      assert (a + b)[0] == a[0] && (a + b)[1..] == a[1..] + b;
      SecondsAppend(a[1..], b);
    } else {
      assert a + b == b;
    }
  }
}
