/** The reminder flyout's duration text, read into whole minutes from now: a number of minutes,
    hours with optional minutes, or a clock time. Numbers are 32-bit unsigned as in the source, so
    the hours product wraps, as it does in a release build. */
module Duration {
  import opened Wrappers
  import opened Text

  const U32 := 0x1_0000_0000
  const DAY_MIN := 1440
  const DAY_SECS := 86400

  // ---- reading ----

  predicate IsDigit(c: char) {
    '0' <= c <= '9'
  }

  function DigitValue(c: char): nat
    requires IsDigit(c)
  {
    c as int - '0' as int
  }

  predicate AllDigits(s: string) {
    forall i :: 0 <= i < |s| ==> IsDigit(s[i])
  }

  function Value(s: string): nat
    requires AllDigits(s)
  {
    if s == "" then 0 else 10 * Value(s[..|s| - 1]) + DigitValue(s[|s| - 1])
  }

  /** An unsigned 32-bit number: digits with an optional leading `+`, refused when too large. */
  function ParseU32(s: string): Option<nat> {
    var digits := if |s| > 1 && s[0] == '+' then s[1..] else s;
    if digits == "" || !AllDigits(digits) || Value(digits) >= U32 then None
    else Some(Value(digits))
  }

  function Lower(s: string): string {
    seq(|s|, i requires 0 <= i < |s| =>
      if 'A' <= s[i] <= 'Z' then ((s[i] as int) + 32) as char else s[i])
  }

  function StripSuffix(s: string, c: char): string {
    if s != "" && s[|s| - 1] == c then s[..|s| - 1] else s
  }

  function InDay(minutes: nat): Option<nat> {
    if 1 <= minutes <= DAY_MIN then Some(minutes) else None
  }

  function Max(a: nat, b: nat): nat {
    if a < b then b else a
  }

  /** Minutes until the clock next shows `target` seconds since midnight. */
  function UntilClock(target: nat, now: nat): nat
    requires now < DAY_SECS
  {
    var delta := if target > now then target - now else target + DAY_SECS - now;
    Max((delta + 59) / 60, 1)
  }

  function ParseClock(hh: string, mm: string, now: nat): Option<nat>
    requires now < DAY_SECS
  {
    match (ParseU32(hh), ParseU32(mm))
    case (Some(h), Some(m)) => if h >= 24 || m >= 60 then None else Some(UntilClock(h * 3600 + m * 60, now))
    case _ => None
  }

  function ParseHours(hh: string, rest: string): Option<nat> {
    var mm := StripSuffix(rest, 'm');
    match (ParseU32(hh), if mm == "" then Some(0) else ParseU32(mm))
    case (Some(h), Some(m)) => if m >= 60 then None else InDay((h * 60 + m) % U32)
    case _ => None
  }

  function ParseMinutes(s: string): Option<nat> {
    match ParseU32(StripSuffix(s, 'm'))
    case Some(m) => InDay(m)
    case None => None
  }

  function ParseCustom(text: string, now: nat): Option<nat>
    requires now < DAY_SECS
  {
    var s := Lower(Trim(text));
    if s == "" then None
    else
      match SplitOnce(s, ':')
      case Some(parts) => ParseClock(parts.0, parts.1, now)
      case None =>
        match SplitOnce(s, 'h')
        case Some(parts) => ParseHours(parts.0, parts.1)
        case None => ParseMinutes(s)
  }

  // ---- what an accepted text means ----

  /** `next` is the first instant after `now` at which the clock shows `target`. */
  ghost predicate NextShowing(next: nat, target: nat, now: nat) {
    && now < next && next % 86400 == target
    && forall t :: now < t < next ==> t % 86400 != target
  }

  /** Counting `minutes` whole minutes from `now` reaches `next`, and no fewer would. */
  ghost predicate LeastMinutes(minutes: nat, next: nat, now: nat) {
    now + 60 * minutes >= next && forall k: nat :: k < minutes ==> now + 60 * k < next
  }

  ghost predicate ReachesNext(minutes: nat, target: nat, now: nat) {
    exists next: nat :: NextShowing(next, target, now) && LeastMinutes(minutes, next, now)
  }

  lemma UntilClockIsLeast(target: nat, now: nat)
    requires now < DAY_SECS && target < DAY_SECS
    ensures 1 <= UntilClock(target, now) <= DAY_MIN
    ensures ReachesNext(UntilClock(target, now), target, now)
  {
    var next := if target > now then target else target + DAY_SECS;
    forall t | now < t < next ensures t % DAY_SECS != target {
      if t >= DAY_SECS { assert t % DAY_SECS == t - DAY_SECS; }
    }
    assert NextShowing(next, target, now) && LeastMinutes(UntilClock(target, now), next, now);
  }

  /** An accepted text is between one minute and a day. */
  lemma AcceptedWithinADay(text: string, now: nat)
    requires now < DAY_SECS
    ensures ParseCustom(text, now).Some? ==> 1 <= ParseCustom(text, now).value <= 1440
  {
    var s := Lower(Trim(text));
    if s != "" && SplitOnce(s, ':').Some? {
      var parts := SplitOnce(s, ':').value;
      var (hh, mm) := (ParseU32(parts.0), ParseU32(parts.1));
      if hh.Some? && mm.Some? && hh.value < 24 && mm.value < 60 {
        UntilClockIsLeast(hh.value * 3600 + mm.value * 60, now);
      }
    }
  }

  // ---- reading each printed form back ----

  predicate IsNumber(s: string) {
    s != "" && AllDigits(s)
  }

  /** Digits, with or without a `+` before them. */
  predicate IsSigned(s: string) {
    IsNumber(s) || (s != "" && s[0] == '+' && IsNumber(s[1..]))
  }

  function Number(s: string): nat
    requires IsSigned(s)
  {
    if s[0] == '+' then Value(s[1..]) else Value(s)
  }

  predicate IsClean(c: char) {
    IsDigit(c) || c == '+' || c == 'h' || c == 'm' || c == ':'
  }

  /** Digits, `+`, `h`, `m` and `:` are neither trimmed nor lowered. */
  lemma CleanStays(s: string)
    requires forall i :: 0 <= i < |s| ==> IsClean(s[i])
    ensures Lower(Trim(s)) == s
  {
    if s != "" { assert IsClean(s[0]) && IsClean(s[|s| - 1]); }
    assert Trim(s) == s;
    assert forall i :: 0 <= i < |s| ==> IsClean(s[i]) && Lower(s)[i] == s[i];
    assert Lower(s) == s;
  }

  lemma DigitsClean(s: string)
    requires IsSigned(s)
    ensures forall i :: 0 <= i < |s| ==> IsClean(s[i])
    ensures ':' !in s && 'h' !in s && 'm' !in s
  {
    assert forall i :: 0 < i < |s| ==> IsDigit(s[i]) by {
      assert s[0] == '+' ==> forall i :: 0 < i < |s| ==> s[i] == s[1..][i - 1];
    }
  }

  lemma ParseNumber(s: string)
    requires IsSigned(s)
    ensures ParseU32(s) == if Number(s) < U32 then Some(Number(s)) else None
  {
    if AllDigits(s) { assert IsDigit(s[0]); }
  }

  /** A text of clean characters around one separator is split there. */
  lemma CleanAround(a: string, c: char, b: string)
    requires c !in a && ':' !in a && IsClean(c)
    requires forall i :: 0 <= i < |a| ==> IsClean(a[i])
    requires forall i :: 0 <= i < |b| ==> IsClean(b[i])
    ensures Lower(Trim(a + [c] + b)) == a + [c] + b
    ensures SplitOnce(a + [c] + b, c) == Some((a, b))
  {
    var s := a + [c] + b;
    forall i | 0 <= i < |s| ensures IsClean(s[i]) {
      if i > |a| { assert s[i] == b[i - |a| - 1]; }
    }
    CleanStays(s);
    SplitAtFirst(a, c, b);
  }

  /** `N` and `Nm` mean N minutes, and are refused outside 1..=1440. */
  lemma MinutesReadBack(n: string, suffix: bool, now: nat)
    requires now < DAY_SECS && IsSigned(n)
    ensures ParseCustom(n + (if suffix then "m" else ""), now) == if 1 <= Number(n) <= 1440 then Some(Number(n)) else None
  {
    DigitsClean(n);
    ParseNumber(n);
    var s := n + (if suffix then "m" else "");
    if suffix {
      assert s[..|s| - 1] == n;
    } else {
      assert s == n;
    }
    assert forall i :: 0 <= i < |s| ==> IsClean(s[i]);
    CleanStays(s);
  }

  /** What follows the `h` of an hour form: nothing, `M` or `Mm`, or just the `m`. */
  datatype HourForm = Bare | BareM | Minutes(m: string) | MinutesM(m: string) {
    predicate Valid() {
      Minutes? || MinutesM? ==> IsSigned(m)
    }

    function Amount(): nat
      requires Valid()
    {
      if Bare? || BareM? then 0 else Number(m)
    }

    function Text(): string {
      match this
      case Bare => ""
      case BareM => "m"
      case Minutes(m) => m
      case MinutesM(m) => m + "m"
    }
  }

  lemma HourTailReads(h: string, form: HourForm)
    requires IsSigned(h) && form.Valid()
    ensures forall i :: 0 <= i < |form.Text()| ==> IsClean(form.Text()[i])
    ensures ':' !in form.Text()
    ensures ParseHours(h, form.Text())
         == if Number(h) < U32 && form.Amount() < 60 then InDay((Number(h) * 60 + form.Amount()) % U32) else None
  {
    hide ParseU32, InDay, IsSigned, Number;
    ParseNumber(h);
    match form {
      case Bare =>
      case BareM => assert StripSuffix("m", 'm') == "";
      case Minutes(m) =>
        DigitsClean(m);
        ParseNumber(m);
        SignedSome(m);
      case MinutesM(m) =>
        DigitsClean(m);
        ParseNumber(m);
        SignedSome(m);
        assert (m + "m")[..|m|] == m && StripSuffix(m + "m", 'm') == m;
    }
  }

  lemma SignedSome(s: string)
    requires IsSigned(s)
    ensures s != ""
  {
  }

  lemma HoursText(h: string, tail: string, now: nat)
    requires now < DAY_SECS && IsSigned(h) && ':' !in tail
    requires forall i :: 0 <= i < |tail| ==> IsClean(tail[i])
    ensures ParseCustom(h + ['h'] + tail, now) == ParseHours(h, tail)
  {
    DigitsClean(h);
    CleanAround(h, 'h', tail);
    assert ':' !in h + ['h'] + tail;
  }

  /** An hour form of less than sixty minutes and a 32-bit hour count is read as the wrapped 32-bit
      product, and refused if that is nothing or past a day; any other is refused. */
  lemma HoursRead(h: string, form: HourForm, now: nat)
    requires now < DAY_SECS && IsSigned(h) && form.Valid()
    ensures var minutes := (Number(h) * 60 + form.Amount()) % 0x1_0000_0000;
      ParseCustom(h + ['h'] + form.Text(), now)
      == if Number(h) < 0x1_0000_0000 && form.Amount() < 60 && 1 <= minutes <= 1440 then Some(minutes) else None
  {
    hide ParseCustom, ParseHours;
    HourTailReads(h, form);
    HoursText(h, form.Text(), now);
  }

  /** The hour forms mean h hours and m minutes, with the day's cap, exactly when the 32-bit product
      did not wrap, or wrapped to nothing or past a day. */
  lemma HoursHonest(h: string, form: HourForm, now: nat)
    requires now < DAY_SECS && IsSigned(h) && form.Valid() && form.Amount() < 60
    ensures var total := Number(h) * 60 + form.Amount();
      ParseCustom(h + ['h'] + form.Text(), now) == (if 1 <= total <= 1440 then Some(total) else None)
      <==> Number(h) >= 0x1_0000_0000 || total < 0x1_0000_0000 || total % 0x1_0000_0000 == 0 || total % 0x1_0000_0000 > 1440
  {
    hide ParseCustom;
    HoursRead(h, form, now);
    Wrapped(Number(h) * 60 + form.Amount());
  }

  lemma Wrapped(total: nat)
    ensures total < U32 ==> total % U32 == total
  {
  }

  /** A wrapped product: `71582789h` is some eight thousand years, and is read as 44 minutes. */
  lemma HoursWrap(h: string, now: nat)
    requires now < DAY_SECS && IsSigned(h) && Number(h) == 71582789
    ensures ParseCustom(h + ['h'], now) == Some(44) && Number(h) * 60 > 1440
  {
    hide ParseCustom;
    HoursRead(h, Bare, now);
    assert h + ['h'] + "" == h + ['h'];
  }

  lemma ClockText(hh: string, mm: string, now: nat)
    requires now < DAY_SECS && IsSigned(hh) && IsSigned(mm)
    ensures ParseCustom(hh + [':'] + mm, now) == ParseClock(hh, mm, now)
  {
    DigitsClean(hh);
    DigitsClean(mm);
    CleanAround(hh, ':', mm);
  }

  /** `HH:MM` is never early and less than a minute late for the next strictly later showing. */
  lemma ClockReads(hh: string, mm: string, now: nat)
    requires now < DAY_SECS && IsSigned(hh) && IsSigned(mm)
    ensures var (h, m, r) := (Number(hh), Number(mm), ParseCustom(hh + [':'] + mm, now));
      if h < 24 && m < 60 then r.Some? && ReachesNext(r.value, h * 3600 + m * 60, now) else r.None?
  {
    hide ParseCustom;
    ClockText(hh, mm, now);
    ParseNumber(hh);
    ParseNumber(mm);
    if Number(hh) < 24 && Number(mm) < 60 { UntilClockIsLeast(Number(hh) * 3600 + Number(mm) * 60, now); }
  }

  // ---- and nothing else is accepted ----

  lemma ParsedIsSigned(s: string)
    ensures ParseU32(s).Some? ==> IsSigned(s)
  {
  }

  /** Digits, an `h` and perhaps minutes. */
  ghost predicate IsHours(s: string) {
    exists a: string, b: string :: HoursOf(s, a, b)
  }

  predicate HoursOf(s: string, a: string, b: string) {
    s == a + "h" + b && IsSigned(a) && (b == "" || b == "m" || IsSigned(b) || IsSignedM(b))
  }

  /** What is around the text, and in what case its letters are, is all one. */
  lemma TrimmedReads(text: string, now: nat)
    requires now < DAY_SECS
    ensures ParseCustom(text, now) == ParseCustom(Lower(Trim(text)), now)
  {
    var s := Lower(Trim(text));
    var before, after := TrimIs(text);
    if s != "" {
      LowerSpace(Trim(text)[0]);
      LowerSpace(Trim(text)[|s| - 1]);
      assert s[0] == Lower(Trim(text))[0];
    }
    hide IsSpace;
    assert Trim(s) == s;
    assert Lower(s) == s;
    hide *;
    assert ParseCustom(text, now) == ParseCustom(s, now) by { ParsedBy(text, s, now); }
  }

  lemma ParsedBy(text: string, s: string, now: nat)
    requires now < DAY_SECS && Lower(Trim(text)) == Lower(Trim(s))
    ensures ParseCustom(text, now) == ParseCustom(s, now)
  {
    hide Lower, Trim, ParseClock, ParseHours, ParseMinutes;
  }

  lemma LowerSpace(c: char)
    ensures IsSpace(if 'A' <= c <= 'Z' then (c as int + 32) as char else c) <==> IsSpace(c)
  {
  }

  predicate IsSignedM(s: string) {
    s != "" && s[|s| - 1] == 'm' && IsSigned(s[..|s| - 1])
  }

  ghost predicate IsClock(s: string) {
    exists a: string, b: string :: s == a + ":" + b && IsSigned(a) && IsSigned(b)
  }

  /** Small letters for capitals, by position in the alphabet, and every other character itself. */
  lemma LowerIs(s: string, i: nat)
    requires i < |s|
    ensures |Lower(s)| == |s|
    ensures var big, small := "ABCDEFGHIJKLMNOPQRSTUVWXYZ", "abcdefghijklmnopqrstuvwxyz";
      if s[i] in big then exists k :: 0 <= k < 26 && big[k] == s[i] && small[k] == Lower(s)[i] else Lower(s)[i] == s[i]
  {
    var big, small := "ABCDEFGHIJKLMNOPQRSTUVWXYZ", "abcdefghijklmnopqrstuvwxyz";
    assert forall k :: 0 <= k < 26 ==> big[k] as int == 65 + k && small[k] as int == 97 + k;
    if 'A' <= s[i] <= 'Z' {
      var k := s[i] as int - 65;
      assert big[k] == s[i] && small[k] == Lower(s)[i];
    }
  }

  /** A text is accepted only if, trimmed and in small letters, it is a number of minutes, an hour form or
      a clock time. */
  lemma AcceptedForms(text: string, now: nat)
    requires now < DAY_SECS
    ensures ParseCustom(text, now).Some? ==>
      var s := Lower(Trim(text));
      IsSigned(s) || IsSignedM(s) || IsHours(s) || IsClock(s)
  {
    hide ParseU32, IsSigned, IsSignedM, IsHours, IsClock;
    var s := Lower(Trim(text));
    if ParseCustom(text, now).Some? {
      match SplitOnce(s, ':')
      case Some(parts) => ClockForm(parts.0, parts.1, now);
      case None =>
        match SplitOnce(s, 'h')
        case Some(parts) => HoursForm(parts.0, parts.1);
        case None => MinutesForm(s);
    }
  }

  lemma ClockForm(hh: string, mm: string, now: nat)
    requires now < DAY_SECS
    ensures ParseClock(hh, mm, now).Some? ==> IsClock(hh + [':'] + mm)
  {
    ParsedIsSigned(hh);
    ParsedIsSigned(mm);
    hide ParseU32, IsSigned;
    assert hh + [':'] + mm == hh + ":" + mm;
  }

  lemma HoursForm(hh: string, rest: string)
    ensures ParseHours(hh, rest).Some? ==> IsHours(hh + ['h'] + rest)
  {
    var mm := StripSuffix(rest, 'm');
    ParsedIsSigned(hh);
    ParsedIsSigned(mm);
    hide ParseU32, IsSigned;
    assert hh + ['h'] + rest == hh + "h" + rest;
    if ParseHours(hh, rest).Some? {
      assert rest == mm || rest == mm + "m";
      assert mm == "" ==> rest == "" || rest == "m" by { assert "" + "m" == "m"; }
      assert mm != "" && rest == mm + "m" ==> IsSignedM(rest) by { assert rest == mm + "m" ==> rest[..|rest| - 1] == mm; }
      assert IsSigned(hh) && (rest == "" || rest == "m" || IsSigned(rest) || IsSignedM(rest));
      HoursWitness(hh, rest);
    }
  }

  lemma HoursWitness(a: string, b: string)
    requires IsSigned(a) && (b == "" || b == "m" || IsSigned(b) || IsSignedM(b))
    ensures IsHours(a + ['h'] + b)
  {
    assert a + ['h'] + b == a + "h" + b;
    assert HoursOf(a + ['h'] + b, a, b);
  }

  lemma MinutesForm(s: string)
    ensures ParseMinutes(s).Some? ==> IsSigned(s) || IsSignedM(s)
  {
    ParsedIsSigned(StripSuffix(s, 'm'));
    hide ParseU32, IsSigned;
  }

  // ---- every number has a printed form ----

  function Decimal(n: nat): string {
    if n < 10 then ['0' + n as char] else Decimal(n / 10) + ['0' + (n % 10) as char]
  }

  lemma {:induction false} DecimalReads(n: nat)
    ensures IsNumber(Decimal(n)) && Value(Decimal(n)) == n
  {
    if n < 10 {
      assert Decimal(n)[..0] == "";
    } else {
      DecimalReads(n / 10);
      var s := Decimal(n);
      assert s[..|s| - 1] == Decimal(n / 10);
      assert DigitValue('0' + (n % 10) as char) == n % 10;
    }
  }
}
