/** The forecast horizon ("3个月", "1年", ...) and the target date it gives,
    as computed by the prompt builders and by the search-query date correction. */
module Horizon {
  import opened Values
  import opened Text

  datatype Date = Date(year: nat, month: nat, day: nat)

  /** A date as the clock reports it. */
  type Now = d: Date | d.year >= 1 && 1 <= d.month <= 12 && 1 <= d.day <= 31 witness Date(1, 1, 1)

  /** How a horizon reads: a number of months, a number of years, or neither. */
  datatype Span = Months(n: nat) | Years(n: nat) | Unspecified

  /** The horizon is tested for "个月" before "年"; the number is `int(...)` of
      what is left once the unit is deleted, and is a ValueError when that is
      not a number. */
  function ParseHorizon(h: string): (r: Result<Span>)
    ensures r.Err? ==> r.error == ValueError
    ensures Contains(h, "个月") ==> r.Err? || r.value.Months?
    ensures !Contains(h, "个月") && Contains(h, "年") ==> r.Err? || r.value.Years?
    ensures r == Ok(Unspecified) <==> !Contains(h, "个月") && !Contains(h, "年")
  {
    if Contains(h, "个月") then
      match ParseNat(ReplaceAll(h, "个月", ""))
      case Some(n) => Ok(Months(n))
      case None => Err(ValueError)
    else if Contains(h, "年") then
      match ParseNat(ReplaceAll(h, "年", ""))
      case Some(n) => Ok(Years(n))
      case None => Err(ValueError)
    else Ok(Unspecified)
  }

  /** Writing a number followed by a unit reads back as that span. */
  lemma HorizonRoundTrip(n: nat)
    ensures ParseHorizon(NatToString(n) + "个月") == Ok(Months(n))
    ensures ParseHorizon(NatToString(n) + "年") == Ok(Years(n))
  {
    var d := NatToString(n);
    NatToStringDigits(n);
    ParseNatToString(n);
    assert forall i :: 0 <= i < |d| ==> d[i] != '个' && d[i] != '年';
    var months, years := d + "个月", d + "年";
    assert months[|d|..|d| + 2] == "个月";
    ContainsAt(months, "个月", |d|);
    ReplaceTrailing(d, "个月");
    assert forall i :: 0 <= i < |years| ==> years[i] != '个';
    NotContainsWithoutHead(years, "个月");
    assert years[|d|..|d| + 1] == "年";
    ContainsAt(years, "年", |d|);
    ReplaceTrailing(d, "年");
  }

  /** The month-carry loop: add `months` to the current month and carry every
      overflow past December into the year. It ends on the year and month of
      the date `months` ahead. */
  method CarryMonths(now: Now, months: nat) returns (year: nat, month: nat)
    ensures 1 <= month <= 12
    ensures year * 12 + month == now.year * 12 + now.month + months
    ensures year == TargetYear(Months(months), now) && month == TargetMonth(months, now)
  {
    year, month := now.year, now.month + months;
    while month > 12
      invariant year * 12 + month == now.year * 12 + now.month + months
      invariant 1 <= month
      decreases month
    {
      year := year + 1;
      month := month - 12;
    }
  }

  /** The year the horizon reaches: the year of the date `n` months ahead, the
      current year plus `n`, or next year when the horizon names no unit. */
  function TargetYear(span: Span, now: Now): (y: nat)
    ensures y >= now.year
    ensures span.Months? ==> y * 12 <= now.year * 12 + now.month - 1 + span.n < y * 12 + 12
    ensures span.Years? ==> y == now.year + span.n
    ensures span.Unspecified? ==> y == now.year + 1
  {
    match span
    case Months(n) => now.year + (now.month - 1 + n) / 12
    case Years(n) => now.year + n
    case Unspecified => now.year + 1
  }

  /** The month of the date `n` months ahead. */
  function TargetMonth(n: nat, now: Now): (m: nat)
    ensures 1 <= m <= 12
    ensures TargetYear(Months(n), now) * 12 + m == now.year * 12 + now.month + n
  {
    (now.month - 1 + n) % 12 + 1
  }

  /** "<year>年", the text written for a year. */
  function YearText(year: nat): string {
    NatToString(year) + "年"
  }

  /** The digits of `n` read back from the head of `d + rest`. */
  lemma ReadBackHead(n: nat, rest: string)
    ensures var d := NatToString(n);
      |d| <= |d + rest| && ParseNat((d + rest)[..|d|]) == Some(n)
  {
    var d := NatToString(n);
    assert (d + rest)[..|d|] == d;
    ParseNatToString(n);
  }

  /** The target date as the prompts write it: "<year>年<month>月" for a month
      horizon, "<year>年" for a year horizon, "未来" otherwise. The year, and
      the month for a month horizon, read back from the text name the date the
      horizon reaches. */
  function TargetDateText(span: Span, now: Now): (t: string)
    ensures span.Unspecified? ==> t == "未来"
    ensures !span.Unspecified? ==>
      var d := NatToString(TargetYear(span, now));
      |d| < |t| && ParseNat(t[..|d|]) == Some(TargetYear(span, now)) && t[|d|] == '年'
    ensures span.Years? ==> |t| == |NatToString(TargetYear(span, now))| + 1
    ensures span.Months? ==>
      var d := NatToString(TargetYear(span, now));
      |d| + 2 <= |t| && t[|t| - 1] == '月' &&
      var m := ParseNat(t[|d| + 1..|t| - 1]);
      m.Some? && 1 <= m.value <= 12 && TargetYear(span, now) * 12 + m.value == now.year * 12 + now.month + span.n
  {
    match span
    case Months(n) =>
      var y, m := TargetYear(span, now), TargetMonth(n, now);
      var d, e := NatToString(y), NatToString(m);
      var t := YearText(y) + e + "月";
      ReadBackHead(y, "年" + e + "月");
      assert t == d + ("年" + e + "月");
      assert t[|d| + 1..|t| - 1] == e;
      ParseNatToString(m);
      t
    case Years(n) =>
      ReadBackHead(TargetYear(span, now), "年");
      YearText(TargetYear(span, now))
    case Unspecified => "未来"
  }

  /** The current date as "<year>年<month>月<day>日"; year, month and day read
      back from their places. */
  function CurrentDateText(now: Now): (t: string)
    ensures var d, m := NatToString(now.year), NatToString(now.month);
      |d| + |m| + 2 < |t| && ParseNat(t[..|d|]) == Some(now.year) && t[|d|] == '年' &&
      ParseNat(t[|d| + 1..|d| + 1 + |m|]) == Some(now.month) && t[|d| + 1 + |m|] == '月' &&
      ParseNat(t[|d| + 2 + |m|..|t| - 1]) == Some(now.day) && t[|t| - 1] == '日'
  {
    var d, m, e := NatToString(now.year), NatToString(now.month), NatToString(now.day);
    var rest := "年" + m + "月" + e + "日";
    ReadBackHead(now.year, rest);
    var t := d + rest;
    assert t[|d| + 1..|d| + 1 + |m|] == m;
    assert t[|d| + 2 + |m|..|t| - 1] == e;
    ParseNatToString(now.month);
    ParseNatToString(now.day);
    t
  }
}
