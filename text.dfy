/**
 * The string operations the text animations use: `split` on a one-character
 * separator or on `''`, `join`, and the decimal form of an index.
 */
module Text {

  /** `s.split(sep)` for a one-character separator: an empty piece stands between adjacent separators. */
  function Split(s: string, sep: char): (parts: seq<string>)
    ensures |parts| >= 1
    ensures forall i :: 0 <= i < |parts| ==> sep !in parts[i]
  {
    if s == [] then [""]
    else
      var rest := Split(s[1..], sep);
      assert s == [s[0]] + s[1..];
      if s[0] == sep then [""] + rest
      else [[s[0]] + rest[0]] + rest[1..]
  }

  /** A split has one more piece than the text has separators. */
  lemma {:induction false} SplitCount(s: string, sep: char)
    ensures |Split(s, sep)| == multiset(s)[sep] + 1
  {
    if s != [] {
      SplitCount(s[1..], sep);
      assert s == [s[0]] + s[1..];
      assert multiset(s) == multiset{s[0]} + multiset(s[1..]);
    }
  }

  /** `parts.join(sep)`. */
  function Join(parts: seq<string>, sep: char): (s: string)
  {
    if |parts| == 0 then ""
    else if |parts| == 1 then parts[0]
    else parts[0] + [sep] + Join(parts[1..], sep)
  }

  /** Joining the pieces of a split gives back the text. */
  lemma {:induction false} JoinSplit(s: string, sep: char)
    ensures Join(Split(s, sep), sep) == s
  {
    if s != [] {
      JoinSplit(s[1..], sep);
      var rest := Split(s[1..], sep);
      assert s == [s[0]] + s[1..];
      if s[0] == sep {
        JoinCons("", rest, sep);
      } else {
        JoinExtendHead(s[0], rest, sep);
      }
    }
  }

  lemma JoinCons(w: string, rest: seq<string>, sep: char)
    requires |rest| >= 1
    ensures Join([w] + rest, sep) == w + [sep] + Join(rest, sep)
  {
    assert ([w] + rest)[1..] == rest;
  }

  /** Prepending a character to the first piece prepends it to the join. */
  lemma JoinExtendHead(c: char, rest: seq<string>, sep: char)
    requires |rest| >= 1
    ensures Join([[c] + rest[0]] + rest[1..], sep) == [c] + Join(rest, sep)
  {
    if |rest| > 1 {
      JoinCons([c] + rest[0], rest[1..], sep);
      assert rest == [rest[0]] + rest[1..];
      JoinCons(rest[0], rest[1..], sep);
    }
  }

  /** Splitting a join of separator-free pieces gives back the pieces. */
  lemma {:induction false} SplitJoin(parts: seq<string>, sep: char)
    requires |parts| >= 1
    requires forall i :: 0 <= i < |parts| ==> sep !in parts[i]
    ensures Split(Join(parts, sep), sep) == parts
  {
    if |parts| == 1 {
      SplitFree(parts[0], sep);
    } else {
      SplitJoin(parts[1..], sep);
      SplitPrefix(parts[0], Join(parts[1..], sep), sep);
      assert parts == [parts[0]] + parts[1..];
    }
  }

  /** A separator-free string splits into itself. */
  lemma {:induction false} SplitFree(s: string, sep: char)
    requires sep !in s
    ensures Split(s, sep) == [s]
  {
    if s != [] {
      SplitFree(s[1..], sep);
      assert s == [s[0]] + s[1..];
    }
  }

  /** Splitting `w + sep + t` for a separator-free `w` puts `w` before the pieces of `t`. */
  lemma {:induction false} SplitPrefix(w: string, t: string, sep: char)
    requires sep !in w
    ensures Split(w + [sep] + t, sep) == [w] + Split(t, sep)
  {
    if w == [] {
      assert w + [sep] + t == [sep] + t;
      SplitStep(sep, t, sep);
    } else {
      var u := w[1..] + [sep] + t;
      assert sep !in w[1..];
      SplitPrefix(w[1..], t, sep);
      assert w + [sep] + t == [w[0]] + u;
      SplitStep(w[0], u, sep);
      assert [w[0]] + w[1..] == w;
    }
  }

  /** One step of `Split`: a separator starts a new piece, any other character extends the first. */
  lemma SplitStep(c: char, u: string, sep: char)
    ensures c == sep ==> Split([c] + u, sep) == [""] + Split(u, sep)
    ensures c != sep ==> Split([c] + u, sep) == [[c] + Split(u, sep)[0]] + Split(u, sep)[1..]
  {
    assert ([c] + u)[0] == c && ([c] + u)[1..] == u;
  }

  /** `s.split('')`: one piece per character. */
  function Chars(s: string): (parts: seq<string>)
    ensures |parts| == |s|
    ensures forall i :: 0 <= i < |parts| ==> parts[i] == [s[i]]
  {
    seq(|s|, i requires 0 <= i < |s| => [s[i]])
  }

  /** Concatenating the pieces of a string. */
  function Concat(parts: seq<string>): string
  {
    if |parts| == 0 then "" else parts[0] + Concat(parts[1..])
  }

  /** Concatenating the characters gives back the text. */
  lemma {:induction false} ConcatChars(s: string)
    ensures Concat(Chars(s)) == s
  {
    if s != [] {
      ConcatChars(s[1..]);
      assert Chars(s)[1..] == Chars(s[1..]);
      assert s == [s[0]] + s[1..];
    }
  }

  function Digit(d: nat): (c: char)
    requires d < 10
    ensures '0' <= c <= '9'
  {
    ('0' as int + d) as char
  }

  function DigitValue(c: char): nat
  {
    if '0' <= c <= '9' then (c - '0') as nat else 0
  }

  /** Reading a printed digit gives the digit. */
  lemma DigitRoundTrip(d: nat)
    requires d < 10
    ensures DigitValue(Digit(d)) == d
  {
  }

  /** The decimal form of `n`, as a template literal prints it. */
  function Decimal(n: nat): (s: string)
    ensures |s| >= 1
    ensures forall i :: 0 <= i < |s| ==> '0' <= s[i] <= '9'
    ensures |s| > 1 ==> s[0] != '0'
  {
    if n < 10 then [Digit(n)] else Decimal(n / 10) + [Digit(n % 10)]
  }

  /** The number a string of decimal digits denotes. */
  function DecimalValue(s: string): nat
  {
    if |s| == 0 then 0 else DecimalValue(s[..|s| - 1]) * 10 + DigitValue(s[|s| - 1])
  }

  /** Reading back the printed index gives the index. */
  lemma {:induction false} DecimalRoundTrip(n: nat)
    ensures DecimalValue(Decimal(n)) == n
  {
    if n >= 10 {
      var q, r := n / 10, n % 10;
      DecimalRoundTrip(q);
      DigitRoundTrip(r);
      var s := Decimal(n);
      assert s == Decimal(q) + [Digit(r)];
      assert s[..|s| - 1] == Decimal(q) && s[|s| - 1] == Digit(r);
      assert DecimalValue(s) == q * 10 + r;
    } else {
      DigitRoundTrip(n);
    }
  }
}
