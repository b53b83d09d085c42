/** Splitting at '|', and decimal numerals: what decides whether the signed string can be read back. */
module Fields {
  import Float

  const PIPE: char := '|'

  predicate NoPipe(s: string) {
    PIPE !in s
  }

  /** The segments between the pipes: always at least one. */
  function Split(s: string): (r: seq<string>)
    ensures r != []
  {
    if s == "" then [""] else Prepend(s[0], Split(s[1..]))
  }

  /** One more character in front. */
  function Prepend(c: char, rest: seq<string>): (r: seq<string>)
    requires rest != []
    ensures r != []
  {
    if c == PIPE then [""] + rest else [[c] + rest[0]] + rest[1..]
  }

  lemma PrependConcat(c: char, a: seq<string>, b: seq<string>)
    requires a != []
    ensures Prepend(c, a + b) == Prepend(c, a) + b
  {
    assert (a + b)[1..] == a[1..] + b;
  }

  function Join(segments: seq<string>): string
    requires segments != []
  {
    if |segments| == 1 then segments[0] else segments[0] + [PIPE] + Join(segments[1..])
  }

  /** Prepending a character commutes with joining. */
  lemma JoinPrepend(c: char, rest: seq<string>)
    requires rest != []
    ensures Join(Prepend(c, rest)) == [c] + Join(rest)
  {
    var r := Prepend(c, rest);
    if c == PIPE {
      assert r[1..] == rest;
    } else if |rest| > 1 {
      assert r[1..] == rest[1..];
      assert ([c] + rest[0]) + [PIPE] + Join(rest[1..]) == [c] + (rest[0] + [PIPE] + Join(rest[1..]));
    }
  }

  lemma {:induction false} JoinSplit(s: string)
    ensures Join(Split(s)) == s
  {
    hide Join, Prepend;
    if s != "" {
      JoinSplit(s[1..]);
      JoinPrepend(s[0], Split(s[1..]));
      assert s == [s[0]] + s[1..];
    } else {
      JoinOne("");
    }
  }

  lemma JoinOne(s: string)
    ensures Join([s]) == s
  {
  }

  lemma {:induction false} JoinConcat(a: seq<string>, b: seq<string>)
    requires a != [] && b != []
    ensures Join(a + b) == Join(a) + [PIPE] + Join(b)
  {
    if |a| == 1 {
      assert (a + b)[1..] == b;
    } else {
      JoinConcat(a[1..], b);
      assert (a + b)[1..] == a[1..] + b;
      assert (a[0] + [PIPE] + Join(a[1..])) + [PIPE] + Join(b) == a[0] + [PIPE] + (Join(a[1..]) + [PIPE] + Join(b));
    }
  }

  lemma {:induction false} SplitNoPipe(s: string)
    ensures |Split(s)| == 1 <==> NoPipe(s)
    ensures NoPipe(s) ==> Split(s) == [s]
  {
    if s != "" {
      SplitNoPipe(s[1..]);
      assert s == [s[0]] + s[1..];
    }
  }

  /** A pipe between two strings separates their segments. */
  lemma {:induction false} SplitConcat(a: string, b: string)
    ensures Split(a + [PIPE] + b) == Split(a) + Split(b)
  {
    var s := a + [PIPE] + b;
    if a == "" {
      assert s[1..] == b;
      assert Prepend(PIPE, Split(b)) == [""] + Split(b);
    } else {
      hide Prepend;
      SplitConcat(a[1..], b);
      assert s[1..] == a[1..] + [PIPE] + b;
      PrependConcat(a[0], Split(a[1..]), Split(b));
    }
  }

  /** A string with a pipe is cut at the first one. */
  lemma CutAtPipe(s: string) returns (a: string, b: string)
    requires !NoPipe(s)
    ensures s == a + [PIPE] + b
  {
    var i :| 0 <= i < |s| && s[i] == PIPE;
    a, b := s[..i], s[i + 1..];
  }

  // Decimal numerals

  function Digit(d: nat): char
    requires d < 10
  {
    "0123456789"[d]
  }

  function Digits(n: nat): (r: string)
    ensures r != ""
  {
    if n < 10 then [Digit(n)] else Digits(n / 10) + [Digit(n % 10)]
  }

  /** The %d of an integer. */
  function Decimal(n: int): string {
    if n < 0 then "-" + Digits(-n) else Digits(n)
  }

  lemma {:induction false} DigitsInjective(a: nat, b: nat)
    requires Digits(a) == Digits(b)
    ensures a == b
  {
    var da, db := Digits(a), Digits(b);
    assert da[|da| - 1] == Digit(a % 10) && db[|db| - 1] == Digit(b % 10);
    assert a % 10 == b % 10;
    if a >= 10 && b >= 10 {
      assert da[..|da| - 1] == Digits(a / 10) && db[..|db| - 1] == Digits(b / 10);
      DigitsInjective(a / 10, b / 10);
    }
  }

  lemma {:induction false} DigitsPlain(n: nat)
    ensures forall c <- Digits(n) :: c in "0123456789"
  {
    if n >= 10 {
      DigitsPlain(n / 10);
    }
  }

  /** The number that a string of digits stands for. */
  function ValueOf(digits: string): int {
    if digits == "" then 0
    else 10 * ValueOf(digits[..|digits| - 1]) + (digits[|digits| - 1] as int - '0' as int)
  }

  lemma {:induction false} DigitsValue(n: nat)
    ensures ValueOf(Digits(n)) == n && (n > 0 ==> Digits(n)[0] != '0')
  {
    assert Digit(n % 10) as int - '0' as int == n % 10;
    if n < 10 {
      assert [Digit(n)][..0] == "";
    } else {
      DigitsValue(n / 10);
      assert Digits(n)[..|Digits(n)| - 1] == Digits(n / 10);
    }
  }

  /** A numeral reads as its number, has no leading zero and a sign only in front of a negative one. */
  lemma DecimalReads(n: int)
    ensures n >= 0 ==> ValueOf(Decimal(n)) == n && (n > 0 ==> Decimal(n)[0] != '0') && |Decimal(0)| == 1
    ensures n < 0 ==> Decimal(n)[0] == '-' && Decimal(n)[1] != '0' && ValueOf(Decimal(n)[1..]) == -n
  {
    DigitsValue(Float.Abs(n));
  }

  lemma DecimalInjective(a: int, b: int)
    requires Decimal(a) == Decimal(b)
    ensures a == b
  {
    var x, y := Float.Abs(a), Float.Abs(b);
    DigitsPlain(x);
    DigitsPlain(y);
    assert Digits(x)[0] in Digits(x) && Digits(y)[0] in Digits(y);
    assert Decimal(a)[0] == Decimal(b)[0];
    assert a < 0 ==> Decimal(a)[1..] == Digits(x);
    assert b < 0 ==> Decimal(b)[1..] == Digits(y);
    DigitsInjective(x, y);
  }

  lemma DecimalNoPipe(n: int)
    ensures NoPipe(Decimal(n))
  {
    DigitsPlain(Float.Abs(n));
  }
}
