// Dates as YYYY-MM-DD text (section 5.6 of RFC 3339): their order as strings is their order in time.
module IsoDate {
  import opened Gregorian
  import opened Sorting

  predicate Digits(s: string) {
    forall i :: 0 <= i < |s| ==> '0' <= s[i] <= '9'
  }

  /** The number a digit string stands for. */
  function Number(s: string): (n: int)
    requires Digits(s)
    ensures n >= 0
  {
    if s == "" then 0 else 10 * Number(s[..|s| - 1]) + (s[|s| - 1] as int - '0' as int)
  }

  /** The three numbers of a text in the shape YYYY-MM-DD. */
  predicate Shaped(s: string) {
    |s| == 10 && s[4] == '-' && s[7] == '-' && Digits(s[..4]) && Digits(s[5..7]) && Digits(s[8..])
  }

  function DateOf(s: string): Date
    requires Shaped(s)
  {
    Date(Number(s[..4]), Number(s[5..7]), Number(s[8..]))
  }

  /** `_DATE_RE` and `date.fromisoformat`: the shape, and a day that exists. */
  predicate IsDate(s: string) {
    Shaped(s) && DateOf(s).y >= 1 && Valid(DateOf(s))
  }

  /** The day a date text stands for, as a day number. */
  function Day(s: string): int
    requires IsDate(s)
  {
    Ordinal(DateOf(s))
  }

  // ---- Strings of digits ----

  lemma {:induction false} LeqOfConcat(a: string, b: string, c: string, d: string)
    requires |a| == |c|
    ensures StrLeq(a + b, c + d) <==> if a == c then StrLeq(b, d) else StrLeq(a, c)
  {
    if a == "" {
      assert a + b == b && c + d == d;
    } else {
      LeqOfConcat(a[1..], b, c[1..], d);
      assert (a + b)[1..] == a[1..] + b && (c + d)[1..] == c[1..] + d;
      assert a == [a[0]] + a[1..] && c == [c[0]] + c[1..];
    }
  }

  lemma LeqOfOne(x: char, y: char)
    ensures StrLeq([x], [y]) <==> x <= y
  {
  }

  lemma {:induction false} NumbersOrder(a: string, b: string)
    requires Digits(a) && Digits(b) && |a| == |b|
    ensures StrLeq(a, b) <==> Number(a) <= Number(b)
    ensures a == b <==> Number(a) == Number(b)
  {
    if a != "" {
      var n := |a| - 1;
      NumbersOrder(a[..n], b[..n]);
      assert a == a[..n] + [a[n]] && b == b[..n] + [b[n]];
      LeqOfConcat(a[..n], [a[n]], b[..n], [b[n]]);
      LeqOfOne(a[n], b[n]);
    }
  }

  // ---- Dates ----

  lemma TextOrderIsFieldOrder(a: string, b: string)
    requires Shaped(a) && Shaped(b)
    ensures StrLeq(a, b) <==> DateLeq(DateOf(a), DateOf(b))
  {
    assert a == a[..4] + ("-" + (a[5..7] + ("-" + a[8..])));
    assert b == b[..4] + ("-" + (b[5..7] + ("-" + b[8..])));
    LeqOfConcat(a[..4], "-" + (a[5..7] + ("-" + a[8..])), b[..4], "-" + (b[5..7] + ("-" + b[8..])));
    LeqOfConcat("-", a[5..7] + ("-" + a[8..]), "-", b[5..7] + ("-" + b[8..]));
    LeqOfConcat(a[5..7], "-" + a[8..], b[5..7], "-" + b[8..]);
    LeqOfConcat("-", a[8..], "-", b[8..]);
    NumbersOrder(a[..4], b[..4]);
    NumbersOrder(a[5..7], b[5..7]);
    NumbersOrder(a[8..], b[8..]);
  }

  /** On date texts the order of strings is the order in time. */
  lemma TextOrderIsDayOrder(a: string, b: string)
    requires IsDate(a) && IsDate(b)
    ensures StrLeq(a, b) <==> Day(a) <= Day(b)
  {
    TextOrderIsFieldOrder(a, b);
    FieldOrderIsDayOrder(DateOf(a), DateOf(b));
  }

  // ---- Writing dates ----

  function Power(width: nat): nat {
    if width == 0 then 1 else 10 * Power(width - 1)
  }

  /** A number with leading zeros. */
  function Padded(n: nat, width: nat): (s: string)
    ensures |s| == width && Digits(s)
    decreases width
  {
    if width == 0 then "" else Padded(n / 10, width - 1) + [('0' as int + n % 10) as char]
  }

  lemma {:induction false} PaddedIsRead(n: nat, width: nat)
    requires n < Power(width)
    ensures Number(Padded(n, width)) == n
    decreases width
  {
    if width > 0 {
      var s := Padded(n, width);
      PaddedIsRead(n / 10, width - 1);
      assert s[..|s| - 1] == Padded(n / 10, width - 1);
    }
  }

  function DateText(t: Date): string
    requires 1 <= t.y && Valid(t)
  {
    Padded(t.y, 4) + "-" + Padded(t.m, 2) + "-" + Padded(t.d, 2)
  }

  lemma PartsOfDateText(t: Date)
    requires 1 <= t.y && Valid(t)
    ensures var s := DateText(t);
            && Shaped(s) && s[..4] == Padded(t.y, 4) && s[5..7] == Padded(t.m, 2) && s[8..] == Padded(t.d, 2)
  {
  }

  /** Every date up to the year 9999 is read back from its text. */
  lemma DateTextIsRead(t: Date)
    requires 1 <= t.y <= 9999 && Valid(t)
    ensures IsDate(DateText(t)) && DateOf(DateText(t)) == t
  {
    PartsOfDateText(t);
    assert Power(2) == 100 && Power(4) == 100 * Power(2);
    PaddedIsRead(t.y, 4);
    PaddedIsRead(t.m, 2);
    PaddedIsRead(t.d, 2);
  }

  lemma {:induction false} NumberBelow(s: string)
    requires Digits(s)
    ensures Number(s) < Power(|s|)
  {
    if s != "" {
      NumberBelow(s[..|s| - 1]);
    }
  }

  lemma FourDigits(s: string)
    requires Digits(s) && |s| == 4
    ensures Number(s) <= 9999
  {
    NumberBelow(s);
    assert Power(2) == 100 && Power(4) == 100 * Power(2);
  }

  /** A date text is the text of its date, so no other text stands for it. */
  lemma DateIsWritten(s: string)
    requires IsDate(s)
    ensures s == DateText(DateOf(s))
  {
    var t := DateOf(s);
    FourDigits(s[..4]);
    DateTextIsRead(t);
    PartsOfDateText(t);
    NumbersOrder(s[..4], Padded(t.y, 4));
    NumbersOrder(s[5..7], Padded(t.m, 2));
    NumbersOrder(s[8..], Padded(t.d, 2));
    var w := DateText(t);
    assert s == s[..4] + [s[4]] + s[5..7] + [s[7]] + s[8..];
    assert w == w[..4] + [w[4]] + w[5..7] + [w[7]] + w[8..];
  }
}
