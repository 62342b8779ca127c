// Times of day as HH:MM text (section 5.6 of RFC 3339 without seconds): which minute of the day a text stands for.
module Clock {
  import opened Json
  import opened Hours
  import Text

  /** A number below 100 as two digits. */
  function TwoDigits(n: int): (s: string)
    requires 0 <= n < 100
    ensures |s| == 2 && Digit(s[0]) && Digit(s[1])
    ensures (s[0] - '0') as int == n / 10 && (s[1] - '0') as int == n % 10
  {
    [('0' as int + n / 10) as char, ('0' as int + n % 10) as char]
  }

  /** A minute of the day as HH:MM. */
  function Written(minute: int): (s: string)
    requires 0 <= minute < 1440
    ensures |s| == 5 && s[..2] == TwoDigits(minute / 60) && s[2] == ':' && s[3..] == TwoDigits(minute % 60)
  {
    TwoDigits(minute / 60) + ":" + TwoDigits(minute % 60)
  }

  /** Two digits stand for one number only. */
  lemma DigitsAreTwo(s: string, n: int)
    requires |s| == 2 && Digit(s[0]) && Digit(s[1]) && 0 <= n < 100
    ensures s == TwoDigits(n) <==> (s[0] - '0') as int * 10 + (s[1] - '0') as int == n
  {
    var a, b := (s[0] - '0') as int, (s[1] - '0') as int;
    if a * 10 + b == n {
      assert n / 10 == a && n % 10 == b;
      assert s[0] == TwoDigits(n)[0] && s[1] == TwoDigits(n)[1];
    }
  }

  lemma HourAndMinute(hour: int, minute: int, total: int)
    requires 0 <= minute < 60
    ensures total == hour * 60 + minute <==> total / 60 == hour && total % 60 == minute
  {
  }

  /** Reading what was written gives the minute back. */
  lemma WrittenIsRead(value: string, minute: int)
    requires 0 <= minute < 1440 && Text.Strip(value) == Written(minute)
    ensures ParseTime(value) == Some(minute)
  {
    var t := Text.Strip(value);
    DigitsAreTwo(t[..2], minute / 60);
    DigitsAreTwo(t[3..], minute % 60);
    assert t[..2][0] == t[0] && t[..2][1] == t[1] && t[3..][0] == t[3] && t[3..][1] == t[4];
    HourAndMinute(minute / 60, minute % 60, minute);
  }

  /** Whatever is read was written as that minute. */
  lemma ReadIsWritten(value: string)
    requires ParseTime(value).Some?
    ensures Text.Strip(value) == Written(ParseTime(value).value)
  {
    var t, minute := Text.Strip(value), ParseTime(value).value;
    var h, m := (t[0] - '0') as int * 10 + (t[1] - '0') as int, (t[3] - '0') as int * 10 + (t[4] - '0') as int;
    assert t[..2][0] == t[0] && t[..2][1] == t[1] && t[3..][0] == t[3] && t[3..][1] == t[4];
    HourAndMinute(h, m, minute);
    DigitsAreTwo(t[..2], h);
    DigitsAreTwo(t[3..], m);
    assert t == t[..2] + [t[2]] + t[3..];
  }

  /** A text is read as a minute of the day exactly when, without outer blanks, it is that minute as HH:MM; so every
      other text is refused. */
  lemma ReadExactly(value: string, minute: int)
    ensures ParseTime(value) == Some(minute)
            <==> 0 <= minute < 1440 && Text.Strip(value) == Written(minute)
  {
    if ParseTime(value) == Some(minute) {
      ReadIsWritten(value);
    } else if 0 <= minute < 1440 && Text.Strip(value) == Written(minute) {
      WrittenIsRead(value, minute);
    }
  }

  /** An interval is read exactly when both of its ends are, and it opens before it closes. */
  lemma IntervalIsRead(raw: RawInterval, interval: Interval)
    ensures ParseInterval(raw) == Some(interval)
            <==> && !raw.unsupported && raw.open.Some? && raw.close.Some? && 0 <= interval.open < interval.close < 1440
                 && Text.Strip(raw.open.value) == Written(interval.open)
                 && Text.Strip(raw.close.value) == Written(interval.close)
  {
    if raw.open.Some? && raw.close.Some? {
      ReadExactly(raw.open.value, interval.open);
      ReadExactly(raw.close.value, interval.close);
    }
  }
}
