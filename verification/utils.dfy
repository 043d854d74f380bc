/**
 The duration formatting of `src/utils.rs`: seconds are broken down into
 days, hours, minutes and seconds, printed from the largest non-zero unit
 down, every field after the first zero-padded to two digits
 ("59s", "1m 05s", "2h 00m 07s", "3d 04h 05m 06s").
 */
module Utils {
  import opened Wrappers
  import opened Text

  /** `div_rem`: quotient and remainder. Rust panics on a zero divisor. */
  function DivRem(a: nat, b: nat): (qr: (nat, nat))
    requires b > 0
    ensures a == qr.0 * b + qr.1
    ensures qr.1 < b
  {
    (a / b, a % b)
  }

  /** `format_duration`. */
  function FormatDuration(totalSeconds: nat): (r: string)
    ensures 2 <= |r| && r[|r| - 1] == 's'
    ensures r[0] == '0' <==> totalSeconds == 0
  {
    var (minutes, seconds) := DivRem(totalSeconds, 60);
    if minutes == 0 then NatToString(seconds) + "s"
    else
      var (hours, minutes) := DivRem(minutes, 60);
      if hours == 0 then NatToString(minutes) + "m " + Pad2(seconds) + "s"
      else
        var (days, hours) := DivRem(hours, 24);
        if days == 0 then NatToString(hours) + "h " + Pad2(minutes) + "m " + Pad2(seconds) + "s"
        else NatToString(days) + "d " + Pad2(hours) + "h " + Pad2(minutes) + "m " + Pad2(seconds) + "s"
  }

  /** A duration as calendar fields: days, then hours, minutes and seconds within them. */
  datatype Clock = Clock(days: nat, hours: nat, minutes: nat, seconds: nat)

  function Breakdown(t: nat): (c: Clock)
    ensures c.hours < 24 && c.minutes < 60 && c.seconds < 60
    ensures c.days * 86400 + c.hours * 3600 + c.minutes * 60 + c.seconds == t
    ensures t < 86400 ==> c.days == 0
    ensures t < 3600 ==> c.days == 0 && c.hours == 0
    ensures t < 60 ==> c.days == 0 && c.hours == 0 && c.minutes == 0 && c.seconds == t
  {
    var m := t / 60;
    var h := m / 60;
    assert t == 60 * m + t % 60;
    assert m == 60 * h + m % 60;
    assert h == 24 * (h / 24) + h % 24;
    Clock(h / 24, h % 24, m % 60, t % 60)
  }

  /** The `div_rem` chain of a total below an hour, in terms of the breakdown. */
  lemma MinutesChain(t: nat)
    requires 60 <= t < 3600
    ensures var c := Breakdown(t);
      && t / 60 != 0 && c.minutes >= 1
      && DivRem(t, 60) == (t / 60, c.seconds)
      && DivRem(t / 60, 60) == (0, c.minutes)
  {
  }

  lemma FieldsBelowHour(t: nat)
    requires t < 3600
    ensures var c := Breakdown(t);
      && (t < 60 ==> FormatDuration(t) == NatToString(c.seconds) + "s")
      && (60 <= t ==> c.minutes >= 1 && FormatDuration(t) == NatToString(c.minutes) + "m " + Pad2(c.seconds) + "s")
  {
    if 60 <= t {
      MinutesChain(t);
    }
  }

  /** The `div_rem` chain of a total between an hour and a day, in terms of the breakdown. */
  lemma HoursChain(t: nat)
    requires 3600 <= t < 86400
    ensures var c := Breakdown(t);
      && t / 60 != 0 && t / 60 / 60 != 0 && c.hours >= 1
      && DivRem(t, 60) == (t / 60, c.seconds)
      && DivRem(t / 60, 60) == (t / 60 / 60, c.minutes)
      && DivRem(t / 60 / 60, 24) == (0, c.hours)
  {
  }

  /** The `div_rem` chain of a total of a day or more, in terms of the breakdown. */
  lemma DaysChain(t: nat)
    requires 86400 <= t
    ensures var c := Breakdown(t);
      && t / 60 != 0 && t / 60 / 60 != 0 && c.days >= 1
      && DivRem(t, 60) == (t / 60, c.seconds)
      && DivRem(t / 60, 60) == (t / 60 / 60, c.minutes)
      && DivRem(t / 60 / 60, 24) == (c.days, c.hours)
  {
  }

  lemma FieldsHours(t: nat)
    requires 3600 <= t < 86400
    ensures var c := Breakdown(t);
      c.hours >= 1
      && FormatDuration(t) == NatToString(c.hours) + "h " + Pad2(c.minutes) + "m " + Pad2(c.seconds) + "s"
  {
    HoursChain(t);
  }

  lemma FieldsDays(t: nat)
    requires 86400 <= t
    ensures var c := Breakdown(t);
      c.days >= 1
      && FormatDuration(t) == NatToString(c.days) + "d " + Pad2(c.hours) + "h "
                              + Pad2(c.minutes) + "m " + Pad2(c.seconds) + "s"
  {
    DaysChain(t);
  }

  /**
   Which fields `FormatDuration` prints for each range of totals, read off
   the direct breakdown: only the unit fields from the largest non-zero one
   down, the later ones padded to two digits.
   */
  lemma FormatDurationFields(t: nat)
    ensures var c := Breakdown(t);
      && (t < 60 ==> FormatDuration(t) == NatToString(c.seconds) + "s")
      && (60 <= t < 3600 ==>
            c.minutes >= 1 && FormatDuration(t) == NatToString(c.minutes) + "m " + Pad2(c.seconds) + "s")
      && (3600 <= t < 86400 ==>
            c.hours >= 1
            && FormatDuration(t) == NatToString(c.hours) + "h " + Pad2(c.minutes) + "m " + Pad2(c.seconds) + "s")
      && (86400 <= t ==>
            c.days >= 1
            && FormatDuration(t) == NatToString(c.days) + "d " + Pad2(c.hours) + "h "
                                    + Pad2(c.minutes) + "m " + Pad2(c.seconds) + "s")
  {
    if t < 3600 {
      FieldsBelowHour(t);
    } else if t < 86400 {
      FieldsHours(t);
    } else {
      FieldsDays(t);
    }
  }

  /** The weight in seconds of a unit letter. */
  function UnitSeconds(u: char): Option<nat> {
    match u
    case 'd' => Some(86400)
    case 'h' => Some(3600)
    case 'm' => Some(60)
    case 's' => Some(1)
    case _ => None
  }

  /** The seconds a field such as "05m" stands for. */
  function FieldSeconds(field: string): Option<nat> {
    if |field| < 2 || !AllDigits(field[..|field| - 1]) then None
    else
      match UnitSeconds(field[|field| - 1])
      case None => None
      case Some(w) => Some(DecimalValue(field[..|field| - 1]) * w)
  }

  function SumFields(fields: seq<string>): Option<nat> {
    if |fields| == 0 then Some(0)
    else
      match (FieldSeconds(fields[0]), SumFields(fields[1..]))
      case (Some(a), Some(b)) => Some(a + b)
      case _ => None
  }

  /** Reads a formatted duration back: the space-separated fields, summed. */
  function ParseDuration(s: string): Option<nat> {
    SumFields(SplitOn(s, ' '))
  }

  lemma {:induction false} FieldRoundTrip(digits: string, n: nat, u: char, w: nat)
    requires AllDigits(digits) && 1 <= |digits| && DecimalValue(digits) == n
    requires UnitSeconds(u) == Some(w)
    ensures ' ' !in digits + [u]
    ensures FieldSeconds(digits + [u]) == Some(n * w)
  {
    var f := digits + [u];
    assert f[..|f| - 1] == digits;
  }

  lemma SumOne(a: string, x: nat)
    requires FieldSeconds(a) == Some(x)
    ensures SumFields([a]) == Some(x)
  {
    assert SumFields([]) == Some(0);
    assert [a][1..] == [];
  }

  lemma SumCons(a: string, rest: seq<string>, x: nat, y: nat)
    requires FieldSeconds(a) == Some(x) && SumFields(rest) == Some(y)
    ensures SumFields([a] + rest) == Some(x + y)
  {
    assert ([a] + rest)[1..] == rest;
  }

  lemma {:induction false} ParseOneField(x: string)
    requires AllDigits(x) && 1 <= |x|
    ensures ParseDuration(x + "s") == Some(DecimalValue(x))
  {
    FieldRoundTrip(x, DecimalValue(x), 's', 1);
    SplitOnNoSep(x + "s", ' ');
    SumOne(x + "s", DecimalValue(x));
  }

  lemma {:induction false} ParseTwoFields(x: string, y: string)
    requires AllDigits(x) && 1 <= |x| && AllDigits(y) && 1 <= |y|
    ensures ParseDuration(x + "m " + y + "s") == Some(DecimalValue(x) * 60 + DecimalValue(y))
  {
    var f0, f1 := x + "m", y + "s";
    FieldRoundTrip(x, DecimalValue(x), 'm', 60);
    FieldRoundTrip(y, DecimalValue(y), 's', 1);
    assert [f0, f1][1..] == [f1];
    assert x + "m " + y + "s" == Join([f0, f1], ' ');
    SplitJoinRoundTrip([f0, f1], ' ');
    SumOne(f1, DecimalValue(y));
    SumCons(f0, [f1], DecimalValue(x) * 60, DecimalValue(y));
    assert [f0] + [f1] == [f0, f1];
  }

  lemma {:induction false} ParseThreeFields(x: string, y: string, z: string)
    requires AllDigits(x) && 1 <= |x| && AllDigits(y) && 1 <= |y| && AllDigits(z) && 1 <= |z|
    ensures ParseDuration(x + "h " + y + "m " + z + "s")
            == Some(DecimalValue(x) * 3600 + DecimalValue(y) * 60 + DecimalValue(z))
  {
    var f0, f1, f2 := x + "h", y + "m", z + "s";
    FieldRoundTrip(x, DecimalValue(x), 'h', 3600);
    FieldRoundTrip(y, DecimalValue(y), 'm', 60);
    FieldRoundTrip(z, DecimalValue(z), 's', 1);
    assert [f0, f1, f2][1..] == [f1, f2];
    assert [f1, f2][1..] == [f2];
    assert Join([f2], ' ') == f2;
    assert Join([f1, f2], ' ') == f1 + [' '] + f2;
    assert Join([f0, f1, f2], ' ') == f0 + [' '] + (f1 + [' '] + f2);
    assert x + "h " + y + "m " + z + "s" == Join([f0, f1, f2], ' ');
    SplitJoinRoundTrip([f0, f1, f2], ' ');
    SumOne(f2, DecimalValue(z));
    SumCons(f1, [f2], DecimalValue(y) * 60, DecimalValue(z));
    assert [f1] + [f2] == [f1, f2];
    SumCons(f0, [f1, f2], DecimalValue(x) * 3600, DecimalValue(y) * 60 + DecimalValue(z));
    assert [f0] + [f1, f2] == [f0, f1, f2];
  }

  /** A field, a space, then the text after it. */
  lemma FieldThen(digits: string, u: char, rest: string)
    ensures digits + [u, ' '] + rest == (digits + [u]) + [' '] + rest
  {
  }

  lemma JoinCons(a: string, rest: seq<string>, sep: char)
    requires 1 <= |rest|
    ensures Join([a] + rest, sep) == a + [sep] + Join(rest, sep)
  {
    assert ([a] + rest)[1..] == rest;
  }

  /** The four-field text is the space-join of its fields. */
  lemma FourFieldsJoined(w: string, x: string, y: string, z: string)
    ensures w + "d " + x + "h " + y + "m " + z + "s" == Join([w + "d", x + "h", y + "m", z + "s"], ' ')
  {
    var f0, f1, f2, f3 := w + "d", x + "h", y + "m", z + "s";
    var t2 := y + "m " + f3;
    var t1 := x + "h " + t2;
    var t0 := w + "d " + t1;
    assert w + "d " + x + "h " + y + "m " + z + "s" == t0;
    assert Join([f3], ' ') == f3;
    JoinCons(f2, [f3], ' ');
    assert [f2] + [f3] == [f2, f3];
    FieldThen(y, 'm', f3);
    assert Join([f2, f3], ' ') == t2;
    JoinCons(f1, [f2, f3], ' ');
    assert [f1] + [f2, f3] == [f1, f2, f3];
    FieldThen(x, 'h', t2);
    assert Join([f1, f2, f3], ' ') == t1;
    JoinCons(f0, [f1, f2, f3], ' ');
    assert [f0] + [f1, f2, f3] == [f0, f1, f2, f3];
    FieldThen(w, 'd', t1);
  }

  /** The four fields' seconds add up. */
  lemma SumFourFields(f0: string, f1: string, f2: string, f3: string, a: nat, b: nat, c: nat, d: nat)
    requires FieldSeconds(f0) == Some(a) && FieldSeconds(f1) == Some(b)
    requires FieldSeconds(f2) == Some(c) && FieldSeconds(f3) == Some(d)
    ensures SumFields([f0, f1, f2, f3]) == Some(a + b + c + d)
  {
    SumOne(f3, d);
    SumCons(f2, [f3], c, d);
    assert [f2] + [f3] == [f2, f3];
    SumCons(f1, [f2, f3], b, c + d);
    assert [f1] + [f2, f3] == [f1, f2, f3];
    SumCons(f0, [f1, f2, f3], a, b + c + d);
    assert [f0] + [f1, f2, f3] == [f0, f1, f2, f3];
  }

  lemma {:induction false} ParseFourFields(w: string, x: string, y: string, z: string)
    requires AllDigits(w) && 1 <= |w| && AllDigits(x) && 1 <= |x|
    requires AllDigits(y) && 1 <= |y| && AllDigits(z) && 1 <= |z|
    ensures ParseDuration(w + "d " + x + "h " + y + "m " + z + "s")
            == Some(DecimalValue(w) * 86400 + DecimalValue(x) * 3600 + DecimalValue(y) * 60 + DecimalValue(z))
  {
    var fields := [w + "d", x + "h", y + "m", z + "s"];
    FieldRoundTrip(w, DecimalValue(w), 'd', 86400);
    FieldRoundTrip(x, DecimalValue(x), 'h', 3600);
    FieldRoundTrip(y, DecimalValue(y), 'm', 60);
    FieldRoundTrip(z, DecimalValue(z), 's', 1);
    FourFieldsJoined(w, x, y, z);
    SplitJoinRoundTrip(fields, ' ');
    SumFourFields(fields[0], fields[1], fields[2], fields[3],
                  DecimalValue(w) * 86400, DecimalValue(x) * 3600, DecimalValue(y) * 60, DecimalValue(z));
  }

  lemma {:induction false} RoundTripSeconds(t: nat)
    requires t < 60
    ensures ParseDuration(FormatDuration(t)) == Some(t)
  {
    var c := Breakdown(t);
    var s := NatToString(c.seconds);
    assert FormatDuration(t) == s + "s" by {
      FieldsBelowHour(t);
    }
    assert DecimalValue(s) == t by {
      NatToStringRoundTrip(c.seconds);
    }
    ParseOneField(s);
  }

  lemma {:induction false} RoundTripMinutes(t: nat)
    requires 60 <= t < 3600
    ensures ParseDuration(FormatDuration(t)) == Some(t)
  {
    var c := Breakdown(t);
    var m, s := NatToString(c.minutes), Pad2(c.seconds);
    assert FormatDuration(t) == m + "m " + s + "s" by {
      FieldsBelowHour(t);
    }
    assert DecimalValue(m) == c.minutes by {
      NatToStringRoundTrip(c.minutes);
    }
    ParseTwoFields(m, s);
  }

  lemma {:induction false} RoundTripHours(t: nat)
    requires 3600 <= t < 86400
    ensures ParseDuration(FormatDuration(t)) == Some(t)
  {
    var c := Breakdown(t);
    var h, m, s := NatToString(c.hours), Pad2(c.minutes), Pad2(c.seconds);
    assert FormatDuration(t) == h + "h " + m + "m " + s + "s" by {
      FieldsHours(t);
    }
    assert DecimalValue(h) == c.hours by {
      NatToStringRoundTrip(c.hours);
    }
    ParseThreeFields(h, m, s);
  }

  lemma {:induction false} RoundTripDays(t: nat)
    requires 86400 <= t
    ensures ParseDuration(FormatDuration(t)) == Some(t)
  {
    var c := Breakdown(t);
    var d, h, m, s := NatToString(c.days), Pad2(c.hours), Pad2(c.minutes), Pad2(c.seconds);
    assert FormatDuration(t) == d + "d " + h + "h " + m + "m " + s + "s" by {
      FieldsDays(t);
    }
    assert DecimalValue(d) == c.days by {
      NatToStringRoundTrip(c.days);
    }
    ParseFourFields(d, h, m, s);
  }

  /**
   The formatted text denotes exactly the total it was made from: the
   decomposition is exact in every branch.
   */
  lemma {:induction false} FormatDurationRoundTrip(t: nat)
    ensures ParseDuration(FormatDuration(t)) == Some(t)
  {
    if t < 60 {
      RoundTripSeconds(t);
    } else if t < 3600 {
      RoundTripMinutes(t);
    } else if t < 86400 {
      RoundTripHours(t);
    } else {
      RoundTripDays(t);
    }
  }
}
