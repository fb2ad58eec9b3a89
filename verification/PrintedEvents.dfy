/** Raw events as they are printed, which is how two of them are compared when events are coalesced. */
module PrintedEvents {
  import opened Sequences

  datatype Event = Event(wd: int, mask: nat, cookie: nat, name: string)

  const DIGITS := "0123456789abcdef"

  function Digits(n: nat, base: nat): string
    requires 2 <= base <= 16
  {
    if n < base then [DIGITS[n]] else Digits(n / base, base) + [DIGITS[n % base]]
  }

  /** `str` of a number. */
  function Decimal(i: int): string {
    if i < 0 then "-" + Digits(-i, 10) else Digits(i, 10)
  }

  /** An empty value is printed as two apostrophes. */
  function Shown(name: string): string {
    if |name| == 0 then "''" else name
  }

  /** `__repr__`: the fields in the order of their names. */
  function Printed(e: Event): string {
    "<_RawEvent cookie=" + Digits(e.cookie, 10) + " mask=0x" + Digits(e.mask, 16) + " name=" + Shown(e.name) +
    " wd=" + Decimal(e.wd) + " >"
  }

  // ---- numbers ----

  lemma DigitChars(i: nat, j: nat)
    requires i < 16 && j < 16
    ensures DIGITS[i] == DIGITS[j] ==> i == j
    ensures DIGITS[i] != ' ' && DIGITS[i] != '-'
  {
  }

  lemma {:induction false} DigitsPlain(n: nat, base: nat)
    requires 2 <= base <= 16
    ensures Digits(n, base) != "" && ' ' !in Digits(n, base) && '-' !in Digits(n, base)
  {
    if n < base {
      DigitChars(n, n);
    } else {
      DigitsPlain(n / base, base);
      DigitChars(n % base, n % base);
    }
  }

  lemma DigitsLast(n: nat, base: nat, q: nat, r: nat)
    requires 2 <= base <= 16 && n >= base && q == n / base && r == n % base
    ensures Digits(n, base) == Digits(q, base) + [DIGITS[r]]
  {
  }

  lemma QuotientRemainder(n: nat, base: nat, q: nat, r: nat)
    requires base >= 2 && n >= base && q == n / base && r == n % base
    ensures n == base * q + r && q < n
  {
  }

  lemma DigitsShort(n: nat, base: nat)
    requires n < base && 2 <= base <= 16
    ensures Digits(n, base) == [DIGITS[n]]
  {
  }

  lemma DigitsLength(n: nat, base: nat)
    requires 2 <= base <= 16
    ensures |Digits(n, base)| == 1 <==> n < base
  {
    DigitsPlain(n / base, base);
  }

  lemma {:induction false} DigitsInjective(m: nat, n: nat, base: nat)
    requires 2 <= base <= 16 && Digits(m, base) == Digits(n, base)
    ensures m == n
    decreases m, 1
  {
    DigitsLength(m, base);
    DigitsLength(n, base);
    if m < base {
      DigitsShort(m, base);
      DigitsShort(n, base);
      DigitChars(m, n);
    } else {
      LongInjective(m, n, base, m / base, m % base, n / base, n % base);
    }
  }

  lemma {:induction false} LongInjective(m: nat, n: nat, base: nat, q: nat, r: nat, x: nat, y: nat)
    requires 2 <= base <= 16 && m >= base && n >= base && Digits(m, base) == Digits(n, base)
    requires q == m / base && r == m % base && x == n / base && y == n % base
    ensures m == n
    decreases m, 0
  {
    DigitsLast(m, base, q, r);
    DigitsLast(n, base, x, y);
    SameDigits(Digits(q, base), DIGITS[r], Digits(x, base), DIGITS[y]);
    DigitChars(r, y);
    QuotientRemainder(m, base, q, r);
    QuotientRemainder(n, base, x, y);
    DigitsInjective(q, x, base);
  }

  lemma SameDigits(s: string, c: char, t: string, d: char)
    requires s + [c] == t + [d]
    ensures s == t && c == d
  {
    assert (s + [c])[|s|] == c && (t + [d])[|t|] == d;
    assert (s + [c])[..|s|] == s && (t + [d])[..|t|] == t;
  }

  lemma DecimalInjective(i: int, j: int)
    requires Decimal(i) == Decimal(j)
    ensures i == j
  {
    var m, n := if i < 0 then -i else i, if j < 0 then -j else j;
    DigitsPlain(m, 10);
    DigitsPlain(n, 10);
    if i < 0 {
      assert Decimal(i)[0] == '-' && Decimal(i)[1..] == Digits(m, 10);
    }
    if j < 0 {
      assert Decimal(j)[0] == '-' && Decimal(j)[1..] == Digits(n, 10);
    }
    DigitsInjective(m, n, 10);
  }

  lemma DecimalPlain(i: int)
    ensures ' ' !in Decimal(i)
  {
    DigitsPlain(if i < 0 then -i else i, 10);
  }

  // ---- fields ----

  lemma SameRest(head: string, x: string, y: string)
    requires head + x == head + y
    ensures x == y
  {
    assert (head + x)[|head|..] == x && (head + y)[|head|..] == y;
  }

  lemma SameFront(x: string, y: string, end: string)
    requires x + end == y + end
    ensures x == y
  {
    assert |x| == |y|;
    assert (x + end)[..|x|] == x && (y + end)[..|y|] == y;
  }

  lemma FirstSpace(a: string, x: string, b: string, y: string)
    requires ' ' !in a && ' ' !in b && a + [' '] + x == b + [' '] + y
    ensures a == b && x == y
  {
    SplitFirst(a, x, ' ');
    SplitFirst(b, y, ' ');
    assert ([a] + Split(x, ' '))[0] == a && ([b] + Split(y, ' '))[0] == b;
    SameRest(a + [' '], x, y);
  }

  lemma LastSpace(x: string, a: string, y: string, b: string)
    requires ' ' !in a && ' ' !in b && x + [' '] + a == y + [' '] + b
    ensures a == b && x == y
  {
    SplitLast(x, a, ' ');
    SplitLast(y, b, ' ');
    var s, t := Split(x, ' ') + [a], Split(y, ' ') + [b];
    assert s[|s| - 1] == a && t[|t| - 1] == b;
    SameFront(x + [' '], y + [' '], a);
    SameFront(x, y, [' ']);
  }

  /** The part behind the mask. */
  function Tail(e: Event): string {
    Shown(e.name) + [' '] + ("wd=" + Decimal(e.wd)) + " >"
  }

  lemma PrintedParts(e: Event)
    ensures Printed(e) == "<_RawEvent cookie=" + (Digits(e.cookie, 10) + [' '] +
                           ("mask=0x" + (Digits(e.mask, 16) + [' '] + ("name=" + Tail(e)))))
  {
  }

  lemma SameTail(d: Event, e: Event)
    requires Tail(d) == Tail(e)
    ensures Shown(d.name) == Shown(e.name) && d.wd == e.wd
  {
    var x, y := "wd=" + Decimal(d.wd), "wd=" + Decimal(e.wd);
    SameFront(Shown(d.name) + [' '] + x, Shown(e.name) + [' '] + y, " >");
    DecimalPlain(d.wd);
    DecimalPlain(e.wd);
    LastSpace(Shown(d.name), x, Shown(e.name), y);
    SameRest("wd=", Decimal(d.wd), Decimal(e.wd));
    DecimalInjective(d.wd, e.wd);
  }

  lemma SameFields(d: Event, e: Event)
    requires Printed(d) == Printed(e)
    ensures d.cookie == e.cookie && d.mask == e.mask && Tail(d) == Tail(e)
  {
    PrintedParts(d);
    PrintedParts(e);
    var m, n := Digits(d.mask, 16) + [' '] + ("name=" + Tail(d)), Digits(e.mask, 16) + [' '] + ("name=" + Tail(e));
    SameRest("<_RawEvent cookie=", Digits(d.cookie, 10) + [' '] + ("mask=0x" + m),
             Digits(e.cookie, 10) + [' '] + ("mask=0x" + n));
    DigitsPlain(d.cookie, 10);
    DigitsPlain(e.cookie, 10);
    FirstSpace(Digits(d.cookie, 10), "mask=0x" + m, Digits(e.cookie, 10), "mask=0x" + n);
    SameRest("mask=0x", m, n);
    DigitsPlain(d.mask, 16);
    DigitsPlain(e.mask, 16);
    FirstSpace(Digits(d.mask, 16), "name=" + Tail(d), Digits(e.mask, 16), "name=" + Tail(e));
    SameRest("name=", Tail(d), Tail(e));
    DigitsInjective(d.cookie, e.cookie, 10);
    DigitsInjective(d.mask, e.mask, 16);
  }

  /** The events differ in nothing but that one has no name and the other the name of two apostrophes. */
  predicate Twins(d: Event, e: Event) {
    (d.name == "" && e == d.(name := "''")) || (e.name == "" && d == e.(name := "''"))
  }

  /** Two events are printed alike exactly when they are equal or twins, whatever spaces and labels their names hold. */
  lemma PrintedExactly(d: Event, e: Event)
    ensures Printed(d) == Printed(e) <==> d == e || Twins(d, e)
  {
    if Printed(d) == Printed(e) {
      SameFields(d, e);
      SameTail(d, e);
    }
  }
}
