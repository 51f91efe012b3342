/** Decimal text as printf writes it, and what can be read back from it. */
module Text {

  /** The text of `%d` for a non-negative number. */
  function Digits(n: nat): (s: string)
    ensures |s| > 0
    ensures forall c :: c in s ==> '0' <= c <= '9'
  {
    if n < 10 then [DigitChar(n)] else Digits(n / 10) + [DigitChar(n % 10)]
  }

  function DigitChar(d: nat): (c: char)
    requires d < 10
    ensures '0' <= c <= '9' && c as int == '0' as int + d
  {
    '0' + d as char
  }

  /** The text of `%d`. */
  function Decimal(i: int): (s: string)
    ensures forall c :: c in s ==> c == '-' || '0' <= c <= '9'
  {
    if i < 0 then "-" + Digits(-i) else Digits(i)
  }

  /** The text of `%02d`. */
  function TwoDigits(n: nat): (s: string)
    requires n < 100
    ensures |s| == 2
    ensures forall c :: c in s ==> '0' <= c <= '9'
  {
    [DigitChar(n / 10), DigitChar(n % 10)]
  }

  /** The text of `%4d`: padded with blanks on the left. */
  function FourWide(n: nat): (s: string)
    ensures forall c :: c in s ==> c == ' ' || '0' <= c <= '9'
  {
    seq(if |Digits(n)| < 4 then 4 - |Digits(n)| else 0, _ => ' ') + Digits(n)
  }

  /** Reads decimal digits back; blanks on the left count as nothing. */
  ghost function Value(s: string): int {
    if s == [] then 0
    else 10 * Value(s[..|s| - 1]) + if s[|s| - 1] == ' ' then 0 else s[|s| - 1] as int - '0' as int
  }

  lemma {:induction false} ValueOfDigits(n: nat)
    ensures Value(Digits(n)) == n
  {
    if n < 10 {
      assert Digits(n)[..0] == [];
    } else {
      ValueOfDigits(n / 10);
      assert Digits(n)[..|Digits(n)| - 1] == Digits(n / 10);
    }
  }

  lemma {:induction false} ValueOfPadded(k: nat, s: string)
    ensures Value(seq(k, _ => ' ') + s) == Value(s)
  {
    var blanks := seq(k, _ => ' ');
    if s != [] {
      ValueOfPadded(k, s[..|s| - 1]);
      assert (blanks + s)[..|blanks + s| - 1] == blanks + s[..|s| - 1];
    } else if k > 0 {
      ValueOfPadded(k - 1, []);
      assert blanks + s == blanks;
      assert blanks[..k - 1] == seq(k - 1, _ => ' ') + [];
    } else {
      assert blanks + s == [];
    }
  }

  /** Digits read back as the number they were printed from, with a sign in front of a negative one. */
  lemma DecimalReads(i: int)
    ensures i >= 0 ==> Value(Decimal(i)) == i && '-' !in Decimal(i)
    ensures i < 0 ==> Decimal(i)[0] == '-' && Value(Decimal(i)[1..]) == -i && '-' !in Decimal(i)[1..]
  {
    ValueOfDigits(if i < 0 then -i else i);
  }

  lemma TwoDigitsRead(n: nat)
    requires n < 100
    ensures Value(TwoDigits(n)) == n
  {
    var s := TwoDigits(n);
    assert s[..1][..0] == [] && s[..1][0] == s[0];
    assert Value(s[..1]) == n / 10;
  }

  lemma FourWideReads(n: nat)
    ensures Value(FourWide(n)) == n && |FourWide(n)| >= 4 && (n < 10000 ==> |FourWide(n)| == 4)
    ensures n >= 1000 ==> ' ' !in FourWide(n)
  {
    ValueOfDigits(n);
    ValueOfPadded(if |Digits(n)| < 4 then 4 - |Digits(n)| else 0, Digits(n));
    DigitCount(n);
  }

  lemma DigitCount(n: nat)
    ensures n < 10000 ==> |Digits(n)| <= 4
    ensures n >= 1000 ==> |Digits(n)| >= 4
  {
    assert |Digits(n / 10 / 10 / 10)| >= 1;
    if 10 <= n { assert |Digits(n)| == |Digits(n / 10)| + 1; }
    if 100 <= n { assert |Digits(n / 10)| == |Digits(n / 10 / 10)| + 1; }
    if 1000 <= n { assert |Digits(n / 10 / 10)| == |Digits(n / 10 / 10 / 10)| + 1; }
  }

  lemma DecimalInjective(i: int, j: int)
    ensures Decimal(i) == Decimal(j) ==> i == j
  {
    ValueOfDigits(if i < 0 then -i else i);
    ValueOfDigits(if j < 0 then -j else j);
    if Decimal(i) == Decimal(j) {
      assert i >= 0 ==> Decimal(i)[0] in Digits(i);
      assert j >= 0 ==> Decimal(j)[0] in Digits(j);
      if i < 0 {
        assert Digits(-i) == Decimal(i)[1..] == Decimal(j)[1..] == Digits(-j);
      }
    }
  }

  lemma TwoDigitsInjective(m: nat, n: nat)
    requires m < 100 && n < 100
    ensures TwoDigits(m) == TwoDigits(n) ==> m == n
  {
    if TwoDigits(m) == TwoDigits(n) {
      assert TwoDigits(m)[0] == TwoDigits(n)[0];
      assert TwoDigits(m)[1] == TwoDigits(n)[1];
    }
  }

  lemma FourWideInjective(m: nat, n: nat)
    ensures FourWide(m) == FourWide(n) ==> m == n
  {
    ValueOfDigits(m);
    ValueOfDigits(n);
    ValueOfPadded(if |Digits(m)| < 4 then 4 - |Digits(m)| else 0, Digits(m));
    ValueOfPadded(if |Digits(n)| < 4 then 4 - |Digits(n)| else 0, Digits(n));
  }

  /** Text splits in one way only at its last `c`. */
  lemma SplitAtLast(a: string, b: string, a': string, b': string, c: char)
    requires a + [c] + b == a' + [c] + b'
    requires c !in b && c !in b'
    ensures a == a' && b == b'
  {
    var s := a + [c] + b;
    assert forall k :: |a| < k < |s| ==> s[k] == b[k - |a| - 1];
    assert forall k :: |a'| < k < |s| ==> s[k] == b'[k - |a'| - 1];
    assert s[|a|] == c && s[|a'|] == c;
    assert a == s[..|a|] && a' == s[..|a'|];
    assert b == s[|a| + 1..] && b' == s[|a'| + 1..];
  }

  /** Text splits in one way only at its first `c`. */
  lemma SplitAtFirst(a: string, b: string, a': string, b': string, c: char)
    requires a + [c] + b == a' + [c] + b'
    requires c !in a && c !in a'
    ensures a == a' && b == b'
  {
    var s := a + [c] + b;
    assert forall k :: 0 <= k < |a| ==> s[k] == a[k];
    assert forall k :: 0 <= k < |a'| ==> s[k] == a'[k];
    assert s[|a|] == c && s[|a'|] == c;
    assert a == s[..|a|] && a' == s[..|a'|];
    assert b == s[|a| + 1..] && b' == s[|a'| + 1..];
  }

  /** Two concatenations whose right halves have one length split alike. */
  lemma SplitTail(a: string, b: string, a': string, b': string)
    requires a + b == a' + b' && |b| == |b'|
    ensures a == a' && b == b'
  {
    var s := a + b;
    assert a == s[..|a|] && a' == s[..|a'|];
    assert b == s[|a|..] && b' == s[|a'|..];
  }
}
