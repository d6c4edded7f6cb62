/** The time part of /later: relative delays, days and weekdays, on a clock at a fixed offset from UTC. */
module LaterTime {
  import opened Options
  import Text

  const MINUTE := 60_000
  const HOUR := 3_600_000
  const DAY := 86_400_000

  const LATER_MIN_DELAY_MS := 10_000
  const LATER_MAX_DELAY_MS := 7 * 24 * 60 * 60 * 1000

  datatype ErrorCode =
    | MissingTime | UnrecognizedTime | MissingMessage | PastTodayTime(value: string) | TooSoon | OutOfRange

  datatype ParseResult = Ok(executeAt: int, messageStartIndex: nat) | Err(code: ErrorCode)

  // --- The calendar: instants are milliseconds since the epoch, local time is instant + zone ---

  function DayOf(local: int): int {
    local / DAY
  }

  function TimeOfDay(local: int): int {
    local % DAY
  }

  // getDay(): day 0 of the epoch was a Thursday.
  function WeekdayOf(local: int): (w: int)
    ensures 0 <= w < 7
  {
    (DayOf(local) + 4) % 7
  }

  datatype Clock = Clock(hour: nat, minute: nat)

  predicate ValidClock(c: Clock) {
    c.hour <= 23 && c.minute <= 59
  }

  function Millis(c: Clock): nat {
    c.hour * HOUR + c.minute * MINUTE
  }

  // atLocalDate
  function AtLocalDate(now: int, zone: int, dayOffset: int, c: Clock): int {
    (DayOf(now + zone) + dayOffset) * DAY + Millis(c) - zone
  }

  // --- Words ---

  predicate IsDigit(c: char) {
    '0' <= c <= '9'
  }

  function Digit(c: char): nat
    requires IsDigit(c)
  {
    c as nat - '0' as nat
  }

  function Lower(s: string): string {
    seq(|s|, i requires 0 <= i < |s| => if 'A' <= s[i] <= 'Z' then (s[i] as nat + 32) as char else s[i])
  }

  // /^(\d{1,2}):(\d{2})$/ with the range check
  function ParseClock(value: string): (r: Option<Clock>)
    ensures r.Some? ==> ValidClock(r.value)
  {
    var n := |value|;
    if (n != 4 && n != 5) || value[n - 3] != ':' || !IsDigit(value[n - 2]) || !IsDigit(value[n - 1])
        || !IsDigit(value[0]) then None
    else if n == 5 && !IsDigit(value[1]) then None
    else
      var hour := if n == 4 then Digit(value[0]) else 10 * Digit(value[0]) + Digit(value[1]);
      var minute := 10 * Digit(value[n - 2]) + Digit(value[n - 1]);
      if hour > 23 || minute > 59 then None else Some(Clock(hour, minute))
  }

  // The length of the leading digits, and their value.
  function LeadingDigits(s: string): (n: nat)
    ensures n <= |s| && forall i | 0 <= i < n :: IsDigit(s[i])
  {
    if s == [] || !IsDigit(s[0]) then 0 else 1 + LeadingDigits(s[1..])
  }

  function Decimal(s: string): nat
    requires forall i | 0 <= i < |s| :: IsDigit(s[i])
  {
    if s == [] then 0 else 10 * Decimal(s[..|s| - 1]) + Digit(s[|s| - 1])
  }

  // Digits followed by a unit of the given kinds.
  function Duration(s: string, minutes: set<string>, hours: set<string>, days: set<string>): Option<nat> {
    var n := LeadingDigits(s);
    var unit := s[n..];
    if n == 0 then None
    else if unit in minutes then Some(Decimal(s[..n]) * MINUTE)
    else if unit in hours then Some(Decimal(s[..n]) * HOUR)
    else if unit in days then Some(Decimal(s[..n]) * DAY)
    else None
  }

  function ParseDuration(value: string): Option<nat> {
    Duration(Lower(value), {"m", "min", "minute", "minutes"}, {"h", "hour", "hours"}, {"d", "day", "days"})
  }

  function ParseZhDuration(value: string): Option<nat> {
    Duration(value, {"\U{5206}\U{949f}\U{540e}"}, {"\U{5c0f}\U{65f6}\U{540e}"}, {"\U{5929}\U{540e}"})
  }

  function DayWord(word: string): Option<nat> {
    if word == "today" || word == "\U{4eca}\U{5929}" then Some(0)
    else if word == "tomorrow" || word == "\U{660e}\U{5929}" then Some(1)
    else if word == "\U{540e}\U{5929}" then Some(2)
    else None
  }

  function ZhWeekday(c: char): Option<nat> {
    if c == '\U{65e5}' || c == '\U{5929}' then Some(0)
    else if c == '\U{4e00}' then Some(1)
    else if c == '\U{4e8c}' then Some(2)
    else if c == '\U{4e09}' then Some(3)
    else if c == '\U{56db}' then Some(4)
    else if c == '\U{4e94}' then Some(5)
    else if c == '\U{516d}' then Some(6)
    else None
  }

  // The WEEKDAYS table
  function Weekday(word: string): (r: Option<nat>)
    ensures r.Some? ==> r.value < 7
  {
    if word == "sun" || word == "sunday" then Some(0)
    else if word == "mon" || word == "monday" then Some(1)
    else if word == "tue" || word == "tuesday" then Some(2)
    else if word == "wed" || word == "wednesday" then Some(3)
    else if word == "thu" || word == "thursday" then Some(4)
    else if word == "fri" || word == "friday" then Some(5)
    else if word == "sat" || word == "saturday" then Some(6)
    else if |word| == 2 && word[0] == '\U{5468}' then ZhWeekday(word[1])
    else if |word| == 3 && word[..2] == "\U{661f}\U{671f}" then ZhWeekday(word[2])
    else None
  }

  // --- Reading back what was written ---

  function ShowDigit(d: nat): (c: char)
    requires d <= 9
    ensures IsDigit(c) && Digit(c) == d
  {
    ('0' as nat + d) as char
  }

  // A number in decimal.
  function Show(n: nat): (s: string)
    ensures s != "" && forall i | 0 <= i < |s| :: IsDigit(s[i])
  {
    (if n < 10 then "" else Show(n / 10)) + [ShowDigit(n % 10)]
  }

  function Show2(n: nat): string
    requires n <= 99
  {
    [ShowDigit(n / 10), ShowDigit(n % 10)]
  }

  lemma {:induction false} DecimalOfShow(n: nat)
    ensures Decimal(Show(n)) == n
  {
    var s := Show(n);
    if n < 10 {
      assert s[..|s| - 1] == "";
    } else {
      DecimalOfShow(n / 10);
      assert s[..|s| - 1] == Show(n / 10);
    }
  }

  lemma {:induction false} DigitsThenUnit(digits: string, unit: string)
    requires (forall i | 0 <= i < |digits| :: IsDigit(digits[i])) && unit != "" && !IsDigit(unit[0])
    ensures LeadingDigits(digits + unit) == |digits|
  {
    if digits == "" {
      assert digits + unit == unit;
    } else {
      DigitsThenUnit(digits[1..], unit);
      assert (digits + unit)[1..] == digits[1..] + unit;
    }
  }

  /** A duration is read as its amount times its unit. */
  lemma DurationReadsBack(n: nat, unit: string, minutes: set<string>, hours: set<string>, days: set<string>)
    requires unit != "" && !IsDigit(unit[0]) && minutes !! hours && (minutes + hours) !! days
    ensures var r := Duration(Show(n) + unit, minutes, hours, days);
            && (unit in minutes ==> r == Some(n * 60 * 1000))
            && (unit in hours ==> r == Some(n * 60 * 60 * 1000))
            && (unit in days ==> r == Some(n * 24 * 60 * 60 * 1000))
            && (unit !in minutes + hours + days ==> r == None)
  {
    hide Show, LeadingDigits, Decimal;
    DigitsThenUnit(Show(n), unit);
    DecimalOfShow(n);
    var s := Show(n) + unit;
    assert s[..|Show(n)|] == Show(n) && s[|Show(n)|..] == unit;
  }

  /** Every clock time of the day reads back, with two digits for the hour or with one. */
  lemma ClockReadsBack(c: Clock)
    requires ValidClock(c)
    ensures ParseClock(Show2(c.hour) + ":" + Show2(c.minute)) == Some(c)
    ensures c.hour <= 9 ==> ParseClock([ShowDigit(c.hour)] + ":" + Show2(c.minute)) == Some(c)
  {
    var two, one := Show2(c.hour) + ":" + Show2(c.minute), [ShowDigit(c.hour % 10)] + ":" + Show2(c.minute);
    assert |two| == 5 && two[2] == ':' && |one| == 4 && one[1] == ':';
  }

  // --- The words, as tables ---

  // By day of the week from Sunday on.
  const WEEKDAY_WORDS: seq<set<string>> := [
    {"sun", "sunday", "\U{5468}\U{65e5}", "\U{5468}\U{5929}", "\U{661f}\U{671f}\U{65e5}", "\U{661f}\U{671f}\U{5929}"},
    {"mon", "monday", "\U{5468}\U{4e00}", "\U{661f}\U{671f}\U{4e00}"},
    {"tue", "tuesday", "\U{5468}\U{4e8c}", "\U{661f}\U{671f}\U{4e8c}"},
    {"wed", "wednesday", "\U{5468}\U{4e09}", "\U{661f}\U{671f}\U{4e09}"},
    {"thu", "thursday", "\U{5468}\U{56db}", "\U{661f}\U{671f}\U{56db}"},
    {"fri", "friday", "\U{5468}\U{4e94}", "\U{661f}\U{671f}\U{4e94}"},
    {"sat", "saturday", "\U{5468}\U{516d}", "\U{661f}\U{671f}\U{516d}"}]

  // By the number of days from today.
  const DAY_WORDS: seq<set<string>> := [
    {"today", "\U{4eca}\U{5929}"}, {"tomorrow", "\U{660e}\U{5929}"}, {"\U{540e}\U{5929}"}]

  lemma WeekdayIsInTheTable(word: string, day: nat)
    ensures Weekday(word) == Some(day) <==> day < 7 && word in WEEKDAY_WORDS[day]
  {
    if |word| == 2 {
      TwoLetters(word, day);
    } else if |word| == 3 {
      ThreeLetters(word, day);
    }
  }

  lemma TwoLetters(word: string, day: nat)
    requires |word| == 2
    ensures Weekday(word) == Some(day) <==> day < 7 && word in WEEKDAY_WORDS[day]
  {
    assert word == [word[0], word[1]];
  }

  lemma ThreeLetters(word: string, day: nat)
    requires |word| == 3
    ensures Weekday(word) == Some(day) <==> day < 7 && word in WEEKDAY_WORDS[day]
  {
    assert word == [word[0], word[1], word[2]];
    assert word[..2] == [word[0], word[1]];
    assert word[..2] == "\U{661f}\U{671f}" <==> word[0] == '\U{661f}' && word[1] == '\U{671f}';
  }

  /** The lower case of a word: letter by letter. */
  lemma LowerIsByLetter(s: string, i: nat, k: nat)
    requires i < |s| && k < 26
    ensures |Lower(s)| == |s|
    ensures s[i] == "ABCDEFGHIJKLMNOPQRSTUVWXYZ"[k] ==> Lower(s)[i] == "abcdefghijklmnopqrstuvwxyz"[k]
    ensures !('A' <= s[i] <= 'Z') ==> Lower(s)[i] == s[i]
  {
  }

  lemma DayWordIsInTheTable(word: string, offset: nat)
    ensures DayWord(word) == Some(offset) <==> offset < 3 && word in DAY_WORDS[offset]
  {
  }

  // --- The parser ---

  // Token i when it is there and not empty, as a truthy tokens[i].
  function TokenAt(tokens: seq<string>, i: nat): Option<string> {
    if i < |tokens| && tokens[i] != "" then Some(tokens[i]) else None
  }

  datatype Time = Time(executeAt: int, messageStartIndex: nat, pastTodayValue: Option<string>)

  function ParseRelative(tokens: seq<string>, now: int): Option<Time>
    requires tokens != []
  {
    var duration := if tokens[0] == "in" && TokenAt(tokens, 1).Some? then ParseDuration(tokens[1]) else None;
    if duration.Some? then Some(Time(now + duration.value, 2, None))
    else
      var zh := ParseZhDuration(tokens[0]);
      if zh.Some? then Some(Time(now + zh.value, 1, None)) else None
  }

  // A clock time on a day from today on; today's must still be ahead.
  function OnDay(now: int, zone: int, dayOffset: nat, value: string): Option<Time> {
    var parsed := ParseClock(value);
    if parsed.None? then None
    else
      var executeAt := AtLocalDate(now, zone, dayOffset, parsed.value);
      Some(Time(executeAt, 2, if dayOffset == 0 && executeAt <= now then Some(value) else None))
  }

  function NextWeekday(now: int, zone: int, weekday: nat, c: Clock): int {
    var days := (weekday - WeekdayOf(now + zone) + 7) % 7;
    var executeAt := AtLocalDate(now, zone, days, c);
    if days == 0 && executeAt <= now then AtLocalDate(now, zone, 7, c) else executeAt
  }

  function ParseAbsolute(tokens: seq<string>, now: int, zone: int): Option<Time>
    requires tokens != []
  {
    var word := Lower(tokens[0]);
    var second := TokenAt(tokens, 1);
    if second.None? then None
    else if tokens[0] == "at" then OnDay(now, zone, 0, second.value)
    else if DayWord(word).Some? then OnDay(now, zone, DayWord(word).value, second.value)
    else if Weekday(word).Some? then
      var parsed := ParseClock(second.value);
      if parsed.None? then None
      else Some(Time(NextWeekday(now, zone, Weekday(word).value, parsed.value), 2, None))
    else None
  }

  // tokens.slice(i).join(" ").trim() is empty
  predicate NoMessage(tokens: seq<string>, i: nat) {
    forall k | i <= k < |tokens| :: forall c | c in tokens[k] :: c as int < 0x1_0000 && Text.IsSpace(c as int)
  }

  function Validate(t: Time, tokens: seq<string>, now: int): ParseResult {
    if t.pastTodayValue.Some? then Err(PastTodayTime(t.pastTodayValue.value))
    else if NoMessage(tokens, t.messageStartIndex) then Err(MissingMessage)
    else if t.executeAt - now > LATER_MAX_DELAY_MS then Err(OutOfRange)
    else if t.executeAt - now < LATER_MIN_DELAY_MS then Err(TooSoon)
    else Ok(t.executeAt, t.messageStartIndex)
  }

  function ParseLaterTime(tokens: seq<string>, now: int, zone: int): ParseResult {
    if tokens == [] then Err(MissingTime)
    else
      var relative := ParseRelative(tokens, now);
      if relative.Some? then Validate(relative.value, tokens, now)
      else
        var absolute := ParseAbsolute(tokens, now, zone);
        if absolute.Some? then Validate(absolute.value, tokens, now) else Err(UnrecognizedTime)
  }

  // --- What the results mean ---

  // The instant is on that weekday at that clock time, to the millisecond.
  predicate IsOn(t: int, zone: int, weekday: nat, c: Clock) {
    WeekdayOf(t + zone) == weekday && TimeOfDay(t + zone) == Millis(c)
  }

  lemma LocalDateIs(now: int, zone: int, dayOffset: int, c: Clock)
    requires ValidClock(c)
    ensures var t := AtLocalDate(now, zone, dayOffset, c);
            DayOf(t + zone) == DayOf(now + zone) + dayOffset && TimeOfDay(t + zone) == Millis(c)
  {
    var day, ms := DayOf(now + zone) + dayOffset, Millis(c);
    assert 0 <= ms < DAY;
    DivOf(day, ms);
  }

  lemma DivOf(day: int, ms: int)
    requires 0 <= ms < DAY
    ensures (day * DAY + ms) / DAY == day && (day * DAY + ms) % DAY == ms
  {
  }

  lemma SplitLocal(t: int)
    ensures t == DayOf(t) * DAY + TimeOfDay(t) && 0 <= TimeOfDay(t) < DAY
  {
  }

  // Days after day d fall on that weekday exactly when they are congruent to the distance.
  lemma WeekdayDistance(d: int, weekday: nat, k: int)
    requires weekday < 7
    ensures ((d + k + 4) % 7 == weekday) <==> (k % 7 == (weekday - (d + 4) % 7 + 7) % 7)
  {
  }

  /** A weekday request gives the least instant strictly after now on that weekday at that clock time. */
  lemma WeekdayIsTheNextOne(now: int, zone: int, weekday: nat, c: Clock)
    requires weekday < 7 && ValidClock(c)
    ensures var t := NextWeekday(now, zone, weekday, c);
            && now < t <= now + LATER_MAX_DELAY_MS && IsOn(t, zone, weekday, c)
            && forall u | now < u < t :: !IsOn(u, zone, weekday, c)
  {
    hide DayOf, TimeOfDay, Millis, ValidClock;
    var d, days := DayOf(now + zone), (weekday - WeekdayOf(now + zone) + 7) % 7;
    var t := NextWeekday(now, zone, weekday, c);
    var k := if days == 0 && AtLocalDate(now, zone, 0, c) <= now then 7 else days;
    assert t == AtLocalDate(now, zone, k, c);
    SplitLocal(now + zone);
    LocalDateIs(now, zone, k, c);
    SplitLocal(t + zone);
    WeekdayDistance(d, weekday, k);
    forall u | now < u < t ensures !IsOn(u, zone, weekday, c) {
      NotEarlier(now, zone, weekday, c, k, u);
    }
  }

  lemma NotEarlier(now: int, zone: int, weekday: nat, c: Clock, k: nat, u: int)
    requires weekday < 7 && ValidClock(c) && k <= 7 && k % 7 == (weekday - WeekdayOf(now + zone) + 7) % 7
    requires now < u < AtLocalDate(now, zone, k, c) && (k == 7 ==> AtLocalDate(now, zone, 0, c) <= now)
    ensures !IsOn(u, zone, weekday, c)
  {
    hide DayOf, TimeOfDay, Millis, ValidClock;
    if IsOn(u, zone, weekday, c) {
      var d, j := DayOf(now + zone), DayOf(u + zone) - DayOf(now + zone);
      SplitLocal(u + zone);
      SplitLocal(now + zone);
      assert u == AtLocalDate(now, zone, j, c);
      WeekdayDistance(d, weekday, j);
    }
  }

  // A request for a weekday, with a clock time.
  predicate WeekdayRequest(tokens: seq<string>) {
    |tokens| >= 2 && Weekday(Lower(tokens[0])).Some? && ParseClock(tokens[1]).Some?
  }

  // The first character of every weekday word.
  lemma WeekdayWords(word: string)
    requires Weekday(Lower(word)).Some?
    ensures word != "in" && word != "at" && DayWord(Lower(word)).None? && ParseZhDuration(word).None?
  {
    assert Lower(word)[0] == if 'A' <= word[0] <= 'Z' then (word[0] as nat + 32) as char else word[0];
    assert !IsDigit(Lower(word)[0]);
  }

  /** A weekday request is never out of range: it runs at the next such instant, unless that is under ten seconds
      away or there is no message. */
  lemma WeekdayRequestIsAccepted(tokens: seq<string>, now: int, zone: int)
    requires WeekdayRequest(tokens)
    ensures var t := NextWeekday(now, zone, Weekday(Lower(tokens[0])).value, ParseClock(tokens[1]).value);
            ParseLaterTime(tokens, now, zone) ==
              if NoMessage(tokens, 2) then Err(MissingMessage)
              else if t < now + LATER_MIN_DELAY_MS then Err(TooSoon)
              else Ok(t, 2)
  {
    hide Weekday, ParseClock, NextWeekday, ParseZhDuration, DayWord, Lower, NoMessage;
    WeekdayWords(tokens[0]);
    WeekdayIsTheNextOne(now, zone, Weekday(Lower(tokens[0])).value, ParseClock(tokens[1]).value);
    assert tokens[1] != "" by { ClockIsNotEmpty(tokens[1]); }
  }

  lemma ClockIsNotEmpty(value: string)
    requires ParseClock(value).Some?
    ensures value != ""
  {
  }

  /** Every accepted parse lies between ten seconds and seven days ahead, and leaves a message. */
  lemma AcceptedIsInWindow(tokens: seq<string>, now: int, zone: int)
    requires ParseLaterTime(tokens, now, zone).Ok?
    ensures var r := ParseLaterTime(tokens, now, zone);
            && LATER_MIN_DELAY_MS <= r.executeAt - now <= LATER_MAX_DELAY_MS
            && 1 <= r.messageStartIndex < |tokens| && !NoMessage(tokens, r.messageStartIndex)
  {
    hide ParseDuration, ParseZhDuration, Lower, Weekday, DayWord, NextWeekday, ParseClock, AtLocalDate;
  }

  /** A day request runs on that local day at that clock time; only today's can be rejected as past, exactly when it is
      not ahead. */
  lemma DayRequestIsOnTheDay(now: int, zone: int, dayOffset: nat, value: string)
    requires ParseClock(value).Some?
    ensures var t := OnDay(now, zone, dayOffset, value).value;
            && DayOf(t.executeAt + zone) == DayOf(now + zone) + dayOffset
            && TimeOfDay(t.executeAt + zone) == Millis(ParseClock(value).value)
            && (t.pastTodayValue.Some? <==> t.executeAt <= now)
  {
    hide DayOf, TimeOfDay, Millis, ParseClock, ValidClock;
    var c := ParseClock(value).value;
    LocalDateIs(now, zone, dayOffset, c);
    SplitLocal(now + zone);
    SplitLocal(AtLocalDate(now, zone, dayOffset, c) + zone);
  }

  // Neither a day word nor "at" starts a relative delay.
  lemma DayWordsAreAbsolute(tokens: seq<string>, now: int)
    requires tokens != [] && (tokens[0] == "at" || DayWord(Lower(tokens[0])).Some?)
    ensures ParseRelative(tokens, now).None?
  {
    hide ParseDuration;
    assert tokens[0] != "";
    assert Lower(tokens[0])[0] == if 'A' <= tokens[0][0] <= 'Z' then (tokens[0][0] as nat + 32) as char
        else tokens[0][0];
    assert tokens[0][0] != 'i';
    assert !IsDigit(tokens[0][0]);
    assert LeadingDigits(tokens[0]) == 0;
  }

  /** An accepted "at" or "today" runs later today, an accepted "tomorrow" on the next local day, in either case at the
      clock time. */
  lemma AcceptedDayIsTheDayNamed(tokens: seq<string>, now: int, zone: int)
    requires |tokens| >= 2 && (tokens[0] == "at" || Lower(tokens[0]) == "today" || Lower(tokens[0]) == "tomorrow")
    requires ParseLaterTime(tokens, now, zone).Ok?
    ensures var t := ParseLaterTime(tokens, now, zone).executeAt;
            && DayOf(t + zone) == DayOf(now + zone) + (if Lower(tokens[0]) == "tomorrow" then 1 else 0)
            && ParseClock(tokens[1]).Some? && TimeOfDay(t + zone) == Millis(ParseClock(tokens[1]).value)
  {
    hide DayOf, TimeOfDay, Millis, ParseClock, ValidClock, ParseRelative, NoMessage, Weekday, AtLocalDate;
    DayWordsAreAbsolute(tokens, now);
    if tokens[0] == "at" { AtIsLower(); }
    var dayOffset := if Lower(tokens[0]) == "tomorrow" then 1 else 0;
    assert ParseAbsolute(tokens, now, zone) == OnDay(now, zone, dayOffset, tokens[1]);
    DayRequestIsOnTheDay(now, zone, dayOffset, tokens[1]);
  }

  lemma AtIsLower()
    ensures Lower("at") == "at"
  {
  }

  // --- Every request's answer ---

  // The milliseconds of each unit word.
  const UNITS: map<string, nat> := map[
    "m" := 60_000, "min" := 60_000, "minute" := 60_000, "minutes" := 60_000,
    "h" := 3_600_000, "hour" := 3_600_000, "hours" := 3_600_000,
    "d" := 86_400_000, "day" := 86_400_000, "days" := 86_400_000]

  const ZH_UNITS: map<string, nat> := map[
    "\U{5206}\U{949f}\U{540e}" := 60_000, "\U{5c0f}\U{65f6}\U{540e}" := 3_600_000,
    "\U{5929}\U{540e}" := 86_400_000]

  // Digits and then a unit word, together that many milliseconds.
  ghost predicate Reads(value: string, units: map<string, nat>, ms: nat) {
    exists n: nat :: AmountOf(value, units, ms, n)
  }

  predicate AmountOf(value: string, units: map<string, nat>, ms: nat, n: nat) {
    && 0 < n <= |value| && (forall i | 0 <= i < n :: IsDigit(value[i])) && value[n..] in units
    && ms == Decimal(value[..n]) * units[value[n..]]
  }

  lemma {:induction false} DigitsEnd(value: string, n: nat)
    requires n <= |value| && (forall i | 0 <= i < n :: IsDigit(value[i])) && (n < |value| ==> !IsDigit(value[n]))
    ensures LeadingDigits(value) == n
  {
    if n > 0 { DigitsEnd(value[1..], n - 1); }
  }

  lemma {:induction false} DigitsStop(value: string)
    ensures var n := LeadingDigits(value); n < |value| ==> !IsDigit(value[n])
  {
    if value != "" && IsDigit(value[0]) { DigitsStop(value[1..]); }
  }

  ghost predicate WordUnits(units: map<string, nat>) {
    forall u | u in units :: u != "" && !IsDigit(u[0])
  }

  lemma ReadsAtTheDigits(value: string, units: map<string, nat>, ms: nat)
    requires WordUnits(units)
    ensures Reads(value, units, ms) <==> AmountOf(value, units, ms, LeadingDigits(value))
  {
    hide Decimal, IsDigit;
    forall n: nat | AmountOf(value, units, ms, n) ensures n == LeadingDigits(value) {
      assert value[n..] != "" && value[n..][0] == value[n];
      DigitsEnd(value, n);
    }
  }

  lemma UnitsAreWords()
    ensures WordUnits(UNITS) && WordUnits(ZH_UNITS)
  {
  }

  lemma UnitTables(unit: string)
    ensures unit in {"m", "min", "minute", "minutes"} <==> unit in UNITS && UNITS[unit] == MINUTE
    ensures unit in {"h", "hour", "hours"} <==> unit in UNITS && UNITS[unit] == HOUR
    ensures unit in {"d", "day", "days"} <==> unit in UNITS && UNITS[unit] == DAY
    ensures unit in UNITS ==> UNITS[unit] == MINUTE || UNITS[unit] == HOUR || UNITS[unit] == DAY
  {
  }

  lemma ZhUnitTables(unit: string)
    ensures unit == "\U{5206}\U{949f}\U{540e}" <==> unit in ZH_UNITS && ZH_UNITS[unit] == MINUTE
    ensures unit == "\U{5c0f}\U{65f6}\U{540e}" <==> unit in ZH_UNITS && ZH_UNITS[unit] == HOUR
    ensures unit == "\U{5929}\U{540e}" <==> unit in ZH_UNITS && ZH_UNITS[unit] == DAY
    ensures unit in ZH_UNITS ==> ZH_UNITS[unit] == MINUTE || ZH_UNITS[unit] == HOUR || ZH_UNITS[unit] == DAY
  {
  }

  /** A delay is read exactly from digits followed by one of the unit words, in any case, as amount times unit. */
  lemma DurationReadsExactly(value: string, ms: nat)
    ensures ParseDuration(value) == Some(ms) <==> Reads(Lower(value), UNITS, ms)
    ensures ParseZhDuration(value) == Some(ms) <==> Reads(value, ZH_UNITS, ms)
  {
    hide Decimal, Lower, LeadingDigits, WordUnits;
    UnitsAreWords();
    var lower := Lower(value);
    ReadsAtTheDigits(lower, UNITS, ms);
    ReadsAtTheDigits(value, ZH_UNITS, ms);
    UnitTables(lower[LeadingDigits(lower)..]);
    ZhUnitTables(value[LeadingDigits(value)..]);
  }

  /** A clock time is read exactly from one or two digits for the hour, a colon, and two for the minute. */
  lemma ClockReadsExactly(value: string, c: Clock)
    ensures ParseClock(value) == Some(c)
        <==> c.hour <= 23 && c.minute <= 59
             && (value == Show2(c.hour) + ":" + Show2(c.minute)
                 || (c.hour <= 9 && value == [ShowDigit(c.hour)] + ":" + Show2(c.minute)))
  {
    if c.hour <= 23 && c.minute <= 59 { ClockReadsBack(c); }
    if ParseClock(value) == Some(c) { ClockIsWritten(value, c); }
  }

  lemma ClockIsWritten(value: string, c: Clock)
    requires ParseClock(value) == Some(c)
    ensures value == Show2(c.hour) + ":" + Show2(c.minute)
            || (c.hour <= 9 && value == [ShowDigit(c.hour)] + ":" + Show2(c.minute))
  {
    if |value| == 4 {
      assert value == [value[0]] + ":" + [value[2], value[3]];
    } else {
      assert value == [value[0], value[1]] + ":" + [value[3], value[4]];
    }
  }

  // What becomes of an instant asked for, when the message starts at token i.
  function Judged(t: int, i: nat, tokens: seq<string>, now: int): ParseResult {
    if NoMessage(tokens, i) then Err(MissingMessage)
    else if t > now + 604_800_000 then Err(OutOfRange)
    else if t < now + 10_000 then Err(TooSoon)
    else Ok(t, i)
  }

  /** A relative request runs that many milliseconds from now, if that is within ten seconds to seven days and leaves a
      message. */
  lemma DelayIsAnswered(tokens: seq<string>, now: int, zone: int, ms: nat)
    requires tokens != []
    ensures tokens[0] == "in" && |tokens| >= 2 && Reads(Lower(tokens[1]), UNITS, ms) ==>
              ParseLaterTime(tokens, now, zone) == Judged(now + ms, 2, tokens, now)
    ensures Reads(tokens[0], ZH_UNITS, ms) ==>
              ParseLaterTime(tokens, now, zone) == Judged(now + ms, 1, tokens, now)
  {
    hide ParseDuration, ParseZhDuration, NoMessage, ParseAbsolute, Reads, Lower;
    DurationReadsExactly(tokens[0], ms);
    if |tokens| >= 2 {
      DurationReadsExactly(tokens[1], ms);
      if Reads(Lower(tokens[1]), UNITS, ms) { NotEmpty(tokens[1], ms); }
    }
    if Reads(tokens[0], ZH_UNITS, ms) { StartsWithADigit(tokens[0], ms); }
  }

  lemma NotEmpty(value: string, ms: nat)
    requires Reads(Lower(value), UNITS, ms)
    ensures value != ""
  {
  }

  lemma StartsWithADigit(value: string, ms: nat)
    requires Reads(value, ZH_UNITS, ms)
    ensures value != "in"
  {
    assert IsDigit(value[0]);
  }

  // A request for a clock time on the day that many days from today.
  predicate DayRequest(tokens: seq<string>, offset: nat) {
    && |tokens| >= 2 && offset < 3
    && ((tokens[0] == "at" && offset == 0) || Lower(tokens[0]) in DAY_WORDS[offset])
  }

  /** A request for today or one of the next two days is answered by the one instant at that time on that day; today's
      is past when it is not ahead. */
  lemma DayIsAnswered(tokens: seq<string>, now: int, zone: int, offset: nat, t: int)
    requires DayRequest(tokens, offset) && ParseClock(tokens[1]).Some?
    requires DayOf(t + zone) == DayOf(now + zone) + offset && TimeOfDay(t + zone) == Millis(ParseClock(tokens[1]).value)
    ensures ParseLaterTime(tokens, now, zone) ==
              if offset == 0 && t <= now then Err(PastTodayTime(tokens[1])) else Judged(t, 2, tokens, now)
  {
    hide ParseClock, DayOf, TimeOfDay, Millis, ParseRelative, NoMessage, Weekday, DayWord, ValidClock, Lower;
    AtIsNoDayWord(tokens[0], offset);
    DayWordsAreAbsolute(tokens, now);
    ClockIsNotEmpty(tokens[1]);
    SplitLocal(t + zone);
    assert t == AtLocalDate(now, zone, offset, ParseClock(tokens[1]).value);
  }

  lemma AtIsNoDayWord(word: string, offset: nat)
    requires offset < 3
    ensures Lower(word) in DAY_WORDS[offset] ==> DayWord(Lower(word)) == Some(offset) && word != "at"
  {
    AtIsLower();
    DayWordIsInTheTable(Lower(word), offset);
    DayWordIsInTheTable("at", offset);
  }

  // One of the forms a request can have.
  ghost predicate Recognized(tokens: seq<string>)
    requires tokens != []
  {
    || (tokens[0] == "in" && |tokens| >= 2 && exists ms: nat :: Reads(Lower(tokens[1]), UNITS, ms))
    || (exists ms: nat :: Reads(tokens[0], ZH_UNITS, ms))
    || (|tokens| >= 2 && ParseClock(tokens[1]).Some?
        && (tokens[0] == "at" || (exists offset: nat :: DayRequest(tokens, offset))
            || (exists day: nat | day < 7 :: Lower(tokens[0]) in WEEKDAY_WORDS[day])))
  }

  /** The time is unrecognized exactly when the request has none of the forms, and missing exactly when the request is
      empty. */
  lemma UnrecognizedExactlyWhen(tokens: seq<string>, now: int, zone: int)
    ensures ParseLaterTime(tokens, now, zone) == Err(MissingTime) <==> tokens == []
    ensures ParseLaterTime(tokens, now, zone) == Err(UnrecognizedTime) <==> tokens != [] && !Recognized(tokens)
  {
    hide ParseClock, Reads, NoMessage, ParseDuration, ParseZhDuration, Weekday, DayWord, Lower, NextWeekday,
         AtLocalDate;
    if tokens != [] {
      DelayIsRecognized(tokens);
      DayIsRecognized(tokens[0]);
      if |tokens| >= 2 && ParseClock(tokens[1]).Some? { ClockIsNotEmpty(tokens[1]); }
      assert (exists offset: nat :: DayRequest(tokens, offset))
          <==> |tokens| >= 2 && (tokens[0] == "at" || DayWord(Lower(tokens[0])).Some?) by { DayRequestIs(tokens); }
    }
  }

  lemma DayRequestIs(tokens: seq<string>)
    ensures (exists offset: nat :: DayRequest(tokens, offset))
        <==> |tokens| >= 2 && (tokens[0] == "at" || DayWord(Lower(tokens[0])).Some?)
  {
    hide DayWord, Lower;
    if |tokens| >= 2 {
      forall offset: nat ensures DayWord(Lower(tokens[0])) == Some(offset)
          <==> offset < 3 && Lower(tokens[0]) in DAY_WORDS[offset] {
        DayWordIsInTheTable(Lower(tokens[0]), offset);
      }
      if tokens[0] == "at" { assert DayRequest(tokens, 0); }
      if DayWord(Lower(tokens[0])).Some? { assert DayRequest(tokens, DayWord(Lower(tokens[0])).value); }
    }
  }

  lemma DelayIsRecognized(tokens: seq<string>)
    requires tokens != []
    ensures ParseZhDuration(tokens[0]).Some? <==> exists ms: nat :: Reads(tokens[0], ZH_UNITS, ms)
    ensures |tokens| >= 2 ==>
              (ParseDuration(tokens[1]).Some? <==> exists ms: nat :: Reads(Lower(tokens[1]), UNITS, ms))
    ensures |tokens| >= 2 && ParseDuration(tokens[1]).Some? ==> tokens[1] != ""
  {
    hide ParseDuration, ParseZhDuration, Reads, Lower;
    forall ms: nat ensures ParseZhDuration(tokens[0]) == Some(ms) <==> Reads(tokens[0], ZH_UNITS, ms) {
      DurationReadsExactly(tokens[0], ms);
    }
    if |tokens| >= 2 {
      forall ms: nat ensures ParseDuration(tokens[1]) == Some(ms) <==> Reads(Lower(tokens[1]), UNITS, ms) {
        DurationReadsExactly(tokens[1], ms);
      }
      if ParseDuration(tokens[1]).Some? { NotEmpty(tokens[1], ParseDuration(tokens[1]).value); }
    }
  }

  lemma DayIsRecognized(word: string)
    ensures Weekday(Lower(word)).Some? <==> exists day: nat | day < 7 :: Lower(word) in WEEKDAY_WORDS[day]
  {
    hide Weekday, Lower;
    forall day: nat ensures Weekday(Lower(word)) == Some(day) <==> day < 7 && Lower(word) in WEEKDAY_WORDS[day] {
      WeekdayIsInTheTable(Lower(word), day);
    }
    if Weekday(Lower(word)).Some? { assert Lower(word) in WEEKDAY_WORDS[Weekday(Lower(word)).value]; }
  }
}
