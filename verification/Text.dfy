/** The text operations of Python that the modelled code relies on. */
module Text {

  /** `str.isspace` for one character: the characters that `str.strip` removes. */
  predicate IsSpace(c: char) {
    var n := c as int;
    || 9 <= n <= 13 || 28 <= n <= 32 || n == 133 || n == 160 || n == 5760
    || 8192 <= n <= 8202 || n == 8232 || n == 8233 || n == 8239 || n == 8287 || n == 12288
  }

  function StripLeft(s: string): (r: string)
    ensures |r| <= |s|
  {
    if s != "" && IsSpace(s[0]) then StripLeft(s[1..]) else s
  }

  function StripRight(s: string): (r: string)
    ensures |r| <= |s|
  {
    if s != "" && IsSpace(s[|s|-1]) then StripRight(s[..|s|-1]) else s
  }

  /** `str.strip()` */
  function Strip(s: string): string { StripRight(StripLeft(s)) }

  /** s starts and ends with a non-blank character. */
  predicate Trimmed(s: string) {
    s != "" && !IsSpace(s[0]) && !IsSpace(s[|s|-1])
  }

  predicate Blank(s: string) { forall i :: 0 <= i < |s| ==> IsSpace(s[i]) }

  lemma {:induction false} StripLeftCuts(s: string)
    ensures var k := |s| - |StripLeft(s)|; StripLeft(s) == s[k..] && Blank(s[..k])
    ensures StripLeft(s) != "" ==> !IsSpace(StripLeft(s)[0])
  {
    if s != "" && IsSpace(s[0]) {
      StripLeftCuts(s[1..]);
      var k := |s| - |StripLeft(s)|;
      assert s[..k] == [s[0]] + s[1..][..k-1];
    }
  }

  lemma {:induction false} StripRightCuts(s: string)
    ensures var k := |StripRight(s)|; StripRight(s) == s[..k] && Blank(s[k..])
    ensures StripRight(s) != "" ==> !IsSpace(StripRight(s)[|StripRight(s)|-1])
  {
    if s != "" && IsSpace(s[|s|-1]) {
      StripRightCuts(s[..|s|-1]);
      var k := |StripRight(s)|;
      assert s[k..] == s[..|s|-1][k..] + [s[|s|-1]];
    }
  }

  /** Where `strip` cuts: s is blanks, then Strip(s), then blanks. */
  lemma StripCuts(s: string) returns (i: nat, j: nat)
    ensures i <= j <= |s| && Strip(s) == s[i..j]
    ensures Blank(s[..i]) && Blank(s[j..])
    ensures Strip(s) == "" || Trimmed(Strip(s))
  {
    StripLeftCuts(s);
    StripRightCuts(StripLeft(s));
    var l := StripLeft(s);
    i := |s| - |l|;
    j := i + |Strip(s)|;
    assert s[j..] == l[|Strip(s)|..];
  }

  lemma {:induction false} StripLeftIgnores(b: string, s: string)
    requires Blank(b)
    ensures StripLeft(b + s) == StripLeft(s)
  {
    if b == "" {
      assert b + s == s;
    } else {
      assert (b + s)[1..] == b[1..] + s;
      StripLeftIgnores(b[1..], s);
    }
  }

  lemma {:induction false} StripRightIgnores(s: string, e: string)
    requires Blank(e)
    ensures StripRight(s + e) == StripRight(s)
  {
    if e == "" {
      assert s + e == s;
    } else {
      assert (s + e)[..|s + e|-1] == s + e[..|e|-1];
      StripRightIgnores(s, e[..|e|-1]);
    }
  }

  lemma {:induction false} StripLeftThrough(s: string, e: string)
    ensures StripLeft(s) != "" ==> StripLeft(s + e) == StripLeft(s) + e
    ensures StripLeft(s) == "" ==> StripLeft(s + e) == StripLeft(e)
  {
    if s == "" {
      assert s + e == e;
    } else if IsSpace(s[0]) {
      assert (s + e)[1..] == s[1..] + e;
      StripLeftThrough(s[1..], e);
    }
  }

  /** Blanks around a text make no difference. */
  lemma StripIgnoresBlanks(b: string, s: string, e: string)
    requires Blank(b) && Blank(e)
    ensures Strip(b + s + e) == Strip(s)
  {
    assert b + s + e == b + (s + e);
    StripLeftIgnores(b, s + e);
    StripLeftThrough(s, e);
    if StripLeft(s) == "" {
      StripLeftIgnores(e, "");
      assert e + "" == e;
    } else {
      StripRightIgnores(StripLeft(s), e);
    }
  }

  // ---------------------------------------------------------------- decimal numerals

  predicate IsDigit(c: char) { '0' <= c <= '9' }

  function Digit(n: nat): char
    requires n < 10
  {
    ['0', '1', '2', '3', '4', '5', '6', '7', '8', '9'][n]
  }

  /** `str(n)` for n >= 0. */
  function Decimal(n: nat): (s: string)
    ensures s != "" && forall i :: 0 <= i < |s| ==> IsDigit(s[i])
  {
    if n < 10 then [Digit(n)] else Decimal(n / 10) + [Digit(n % 10)]
  }

  lemma {:induction false} DecimalIsInjective(m: nat, n: nat)
    requires Decimal(m) == Decimal(n)
    ensures m == n
  {
    var s := Decimal(m);
    assert s[|s|-1] == Digit(m % 10) == Digit(n % 10);
    if m >= 10 && n >= 10 {
      assert Decimal(m / 10) == s[..|s|-1] == Decimal(n / 10);
      DecimalIsInjective(m / 10, n / 10);
    }
  }
}
