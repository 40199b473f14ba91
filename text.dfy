/**
 * The two pieces of JavaScript string behaviour the uploader relies on:
 * `String.prototype.split(' ')`, which cuts a string at EVERY single space
 * (so consecutive spaces yield empty tokens), and the decimal rendering of
 * an integer inside a template literal.
 */
module Text {

  /** Tokens glued back with one space between neighbours. */
  function Join(tokens: seq<string>): string
    requires |tokens| >= 1
  {
    if |tokens| == 1 then tokens[0] else tokens[0] + " " + Join(tokens[1..])
  }

  /** `s.split(' ')`: the text between consecutive single spaces, so two
      spaces in a row give an empty token. */
  function Split(s: string): seq<string>
  {
    if s == [] then [""]
    else
      var rest := Split(s[1..]);
      if s[0] == ' ' then [""] + rest
      else [[s[0]] + rest[0]] + rest[1..]
  }

  /** The split is never empty, no token holds a space, and the tokens
      joined with single spaces give back `s`. */
  lemma {:induction false} SplitTokens(s: string)
    ensures var tokens := Split(s);
      && |tokens| >= 1
      && (forall i :: 0 <= i < |tokens| ==> ' ' !in tokens[i])
      && Join(tokens) == s
  {
    if s != [] {
      var rest := Split(s[1..]);
      SplitTokens(s[1..]);
      if s[0] == ' ' {
        assert Split(s) == [""] + rest;
        assert Split(s)[1..] == rest;
      } else {
        var tokens := Split(s);
        assert tokens == [[s[0]] + rest[0]] + rest[1..];
        assert forall i :: 1 <= i < |tokens| ==> tokens[i] == rest[i];
        if |rest| > 1 {
          assert tokens[1..] == rest[1..];
          assert Join(rest) == rest[0] + " " + Join(rest[1..]);
        }
        assert s == [s[0]] + s[1..];
      }
    }
  }

  /** A string without spaces is a single token. */
  lemma {:induction false} SplitWord(w: string)
    requires ' ' !in w
    ensures Split(w) == [w]
  {
    if w != [] {
      SplitWord(w[1..]);
      assert [w[0]] + w[1..] == w;
    }
  }

  /** Splitting at the first space of `a + " " + b` when `a` holds none. */
  lemma {:induction false} SplitAtSpace(a: string, b: string)
    requires ' ' !in a
    ensures Split(a + " " + b) == [a] + Split(b)
  {
    if a == [] {
      assert a + " " + b == [' '] + b;
      assert (a + " " + b)[1..] == b;
    } else {
      assert (a + " " + b)[1..] == a[1..] + " " + b;
      SplitAtSpace(a[1..], b);
      assert [a[0]] + a[1..] == a;
    }
  }

  /** Split inverts Join on space-free tokens. */
  lemma {:induction false} SplitJoin(tokens: seq<string>)
    requires |tokens| >= 1
    requires forall i :: 0 <= i < |tokens| ==> ' ' !in tokens[i]
    ensures Split(Join(tokens)) == tokens
  {
    if |tokens| == 1 {
      SplitWord(tokens[0]);
    } else {
      SplitJoin(tokens[1..]);
      SplitAtSpace(tokens[0], Join(tokens[1..]));
      assert [tokens[0]] + tokens[1..] == tokens;
    }
  }

  /** Joining one more token at the end. */
  lemma {:induction false} JoinSnoc(tokens: seq<string>, t: string)
    requires |tokens| >= 1
    ensures Join(tokens + [t]) == Join(tokens) + " " + t
  {
    if |tokens| > 1 {
      assert (tokens + [t])[1..] == tokens[1..] + [t];
      JoinSnoc(tokens[1..], t);
    }
  }

  /** The split of `a + " " + w`, for a space-free `w`, is the split of `a`
      followed by `w` as its own last token. */
  lemma SplitAppendWord(a: string, w: string)
    requires ' ' !in w
    ensures Split(a + " " + w) == Split(a) + [w]
  {
    var tokens := Split(a) + [w];
    SplitTokens(a);
    JoinSnoc(Split(a), w);
    SplitJoin(tokens);
  }

  function DigitChar(d: nat): (c: char)
    requires d < 10
    ensures '0' <= c <= '9'
  {
    (48 + d) as char
  }

  predicate IsDigits(s: string)
  {
    forall i :: 0 <= i < |s| ==> '0' <= s[i] <= '9'
  }

  /** The value of a string of decimal digits. */
  function DigitsValue(s: string): nat
    requires IsDigits(s)
  {
    if s == [] then 0
    else DigitsValue(s[..|s| - 1]) * 10 + (s[|s| - 1] as int - 48)
  }

  /** Decimal digits of `n`, most significant first, without leading zeros. */
  function NatToString(n: nat): (s: string)
    ensures |s| >= 1 && IsDigits(s)
    ensures s[0] == '0' ==> n == 0
  {
    if n < 10 then [DigitChar(n)] else NatToString(n / 10) + [DigitChar(n % 10)]
  }

  /** Reading the digits back gives the number. */
  lemma {:induction false} NatToStringValue(n: nat)
    ensures DigitsValue(NatToString(n)) == n
  {
    if n >= 10 {
      NatToStringValue(n / 10);
      var s := NatToString(n);
      assert s[..|s| - 1] == NatToString(n / 10);
    }
  }

  /** How a JavaScript integer is written in a template literal: a minus
      sign for a negative number, then the decimal digits of its magnitude. */
  function IntToString(i: int): (s: string)
    ensures |s| >= 1 && ' ' !in s
  {
    if i < 0 then "-" + NatToString(-i) else NatToString(i)
  }

  /** Reading the rendering back gives the integer, sign included. */
  lemma IntToStringValue(i: int)
    ensures var s := IntToString(i);
      && (i >= 0 ==> IsDigits(s) && DigitsValue(s) == i)
      && (i < 0 ==> s[0] == '-' && IsDigits(s[1..]) && DigitsValue(s[1..]) == -i)
  {
    NatToStringValue(if i < 0 then -i else i);
    if i < 0 {
      assert IntToString(i)[1..] == NatToString(-i);
    }
  }
}
