/** The server's persistent state: the account remembered for every player
    address, the checkpoints reached, the date of the last save and the
    chat history; and the calendar arithmetic that dates a save. Reading
    and writing the save file are not modelled; the clock is a parameter
    (seconds since the Unix epoch). */
module State {
  import opened Common

  /** A player's IP address. */
  type Ip = seq<byte>

  /** The checkpoint list after reaching `c`: unchanged when already listed,
      otherwise `c` appended. */
  function WithCheckpoint(cps: seq<Text>, c: Text): (r: seq<Text>)
    ensures c in r && |cps| <= |r| <= |cps| + 1 && r[..|cps|] == cps
  {
    if c in cps then cps else cps + [c]
  }

  /** Recording a checkpoint never introduces a duplicate, and keeps every
      listed checkpoint listed. */
  lemma WithCheckpointKeepsNoDup(cps: seq<Text>, c: Text)
    requires NoDup(cps)
    ensures NoDup(WithCheckpoint(cps, c))
    ensures forall x :: x in cps ==> x in WithCheckpoint(cps, c)
  {
    var r := WithCheckpoint(cps, c);
    forall i, j | 0 <= i < j < |r| ensures r[i] != r[j] {
      if j == |cps| {
        assert r[i] == cps[i];
      }
    }
  }

  // ---------------------------------------------------------------------------
  // Calendar

  /** The length the month loop gives month `m` of year `y`. The loop
      starts at month 1 and gives it February's length. */
  function MonthLength(m: int, y: int): (n: nat)
    ensures 1 <= m <= 12 ==> 28 <= n <= 31
  {
    if m in {0, 2, 4, 6, 7, 9, 11, 12} then 31
    else if m == 1 then (if y % 4 == 0 then 29 else 28)
    else if m in {3, 5, 8, 10} then 30
    else 0
  }

  /** Days in the months before `m` (months counted from 1). */
  function MonthsBefore(m: int, y: int): nat
    decreases m
  {
    if m <= 1 then 0 else MonthsBefore(m - 1, y) + MonthLength(m - 1, y)
  }

  lemma MonthsBeforeDecember(y: int)
    ensures MonthsBefore(12, y) == 334 + (if y % 4 == 0 then 1 else 0)
  {
    assert MonthsBefore(2, y) == MonthLength(1, y);
    assert MonthsBefore(6, y) == MonthLength(1, y) + 31 + 30 + 31 + 30;
    assert MonthsBefore(10, y) == MonthsBefore(6, y) + 31 + 31 + 30 + 31;
  }

  function MonthName(m: int): string
  {
    match m
    case 1 => "Января"
    case 2 => "Февраля"
    case 3 => "Марта"
    case 4 => "Апреля"
    case 5 => "Мая"
    case 6 => "Июня"
    case 7 => "Июля"
    case 8 => "Августа"
    case 9 => "Сентября"
    case 10 => "Октября"
    case 11 => "Ноября"
    case 12 => "Декабря"
    case _ => "???"
  }

  /** Only a month outside 1..12 is named "???". */
  lemma MonthNameUnknownOutsideYear(m: int)
    ensures MonthName(m) == "???" <==> !(1 <= m <= 12)
  {
  }

  /** The year loop: whole years of 365 days are moved from the day count
      to the year. */
  function YearLoop(days: nat, years: int): (r: (int, nat))
    ensures r.1 <= 365 && r.0 >= years
    ensures r.1 + 365 * (r.0 - years) == days
    decreases days
  {
    if days > 365 then YearLoop(days - 365, years + 1) else (years, days)
  }

  /** One pass of the month loop as written: the month advances when the
      days exceed its length; `Stop` is the loop's `break`. */
  datatype MonthStep = Advance(month: int, days: int) | Stop

  function MonthStepAsWritten(month: int, days: int, years: int): MonthStep
  {
    if month in {0, 2, 4, 6, 7, 9, 11, 12} && days > 31 then Advance(month + 1, days - 31)
    else if month == 1 then
      if years % 4 == 0 && days > 29 then Advance(month + 1, days - 29)
      else if years % 4 != 0 && days > 28 then Advance(month + 1, days - 28)
      else Advance(month, days)
    else if month in {3, 5, 8, 10} && days > 30 then Advance(month + 1, days - 30)
    else Stop
  }

  /** In month 1 with no more days than its length, a pass of the loop as
      written changes nothing and does not break, so the loop never ends. */
  lemma MonthLoopAsWrittenStuck(days: int, years: int)
    requires days <= MonthLength(1, years)
    ensures MonthStepAsWritten(1, days, years) == Advance(1, days)
  {
  }

  /** The first day of 1970 (epoch second 0) reaches that state. */
  lemma EpochStartStuck()
    ensures YearLoop(0 / 86400 % 1461, 1970 + 0 / 86400 / 1461 * 4) == (1970, 0)
    ensures MonthStepAsWritten(1, 0, 1970) == Advance(1, 0)
  {
  }

  /** The month loop with a `break` in month 1: it stops in the month that
      holds the remaining days. */
  function MonthStepFixed(month: int, days: int, years: int): (s: MonthStep)
    ensures s.Advance? ==> s.month == month + 1 && 0 <= s.days < days
  {
    if month in {0, 2, 4, 6, 7, 9, 11, 12} && days > 31 then Advance(month + 1, days - 31)
    else if month == 1 then
      if years % 4 == 0 && days > 29 then Advance(month + 1, days - 29)
      else if years % 4 != 0 && days > 28 then Advance(month + 1, days - 28)
      else Stop
    else if month in {3, 5, 8, 10} && days > 30 then Advance(month + 1, days - 30)
    else Stop
  }

  /** The fixed loop only differs from the written one where that one
      would spin forever. */
  lemma MonthStepFixedAgrees(month: int, days: int, years: int)
    ensures MonthStepAsWritten(month, days, years) != Advance(month, days) ==>
      MonthStepFixed(month, days, years) == MonthStepAsWritten(month, days, years)
    ensures MonthStepAsWritten(month, days, years) == Advance(month, days) ==>
      MonthStepFixed(month, days, years) == Stop
  {
  }

  datatype DateTime = DateTime(day: int, month: int, monthName: string, year: int, hours: int, minutes: int, seconds: int)

  /** `"{day} {month name} {year} - {hours}:{minutes}:{seconds}"`. */
  function DateText(d: DateTime): Text
    requires d.day >= 0 && d.year >= 0 && d.hours >= 0 && d.minutes >= 0 && d.seconds >= 0
  {
    Decimal(d.day) + Utf8(" ") + Utf8(d.monthName) + Utf8(" ") + Decimal(d.year) + Utf8(" - ") +
    Decimal(d.hours) + Utf8(":") + Decimal(d.minutes) + Utf8(":") + Decimal(d.seconds)
  }

  /** The date and time of an epoch second, with the month loop fixed: the
      clock fields are in range and recompose the time of day, the month is
      one of the twelve and named, and the day is within that month. */
  method GetDateTime(epoch: nat) returns (d: DateTime)
    ensures d.seconds < 60 && d.minutes < 60 && d.hours < 24
    ensures d.seconds >= 0 && d.minutes >= 0 && d.hours >= 0
    ensures d.hours * 3600 + d.minutes * 60 + d.seconds == epoch % 86400
    ensures d.year >= 1970
    ensures 1 <= d.month <= 12 && d.monthName == MonthName(d.month) && d.monthName != "???"
    ensures 0 <= d.day <= MonthLength(d.month, d.year)
    ensures var (y, doy) := YearLoop(epoch / 86400 % 1461, 1970 + epoch / 86400 / 1461 * 4);
      d.year == y && MonthsBefore(d.month, d.year) + d.day == doy
  {
    var days, hours, minutes, seconds := SplitClock(epoch);
    var quads := days / 1461;
    assert quads * 4 >= 0;
    var years, doy := YearCount(days % 1461, 1970 + quads * 4);
    assert (years, doy) == YearLoop(epoch / 86400 % 1461, 1970 + epoch / 86400 / 1461 * 4);
    var month, day := MonthLoop(doy, years);
    MonthNameKnown(month);
    d := DateTime(day, month, MonthName(month), years, hours, minutes, seconds);
  }

  /** Every month 1..12 has a name of its own, never the fallback. */
  lemma MonthNameKnown(m: int)
    requires 1 <= m <= 12
    ensures MonthName(m) != "???"
  {
  }

  /** The year loop of `getDateTime`: whole 365-day years are counted off
      while more than 365 days remain. */
  method YearCount(days0: nat, years0: int) returns (years: int, days: nat)
    ensures (years, days) == YearLoop(days0, years0)
  {
    years, days := years0, days0;
    while days > 365
      invariant YearLoop(days, years) == YearLoop(days0, years0)
      decreases days
    {
      years := years + 1;
      days := days - 365;
    }
  }

  /** The month loop of `getDateTime`, with the missing `break` in month 1
      added: it ends in the month that holds day `doy` of the year. */
  method MonthLoop(doy: nat, years: int) returns (month: int, days: int)
    requires doy <= 365
    ensures 1 <= month <= 12
    ensures 0 <= days <= MonthLength(month, years)
    ensures MonthsBefore(month, years) + days == doy
  {
    MonthsBeforeDecember(years);
    days := doy;
    month := 1;
    while true
      invariant 1 <= month <= 12 && 0 <= days
      invariant MonthsBefore(month, years) + days == doy
      decreases days
    {
      if month in {0, 2, 4, 6, 7, 9, 11, 12} && days > 31 {
        month := month + 1;
        days := days - 31;
      } else if month == 1 {
        if years % 4 == 0 && days > 29 {
          month := month + 1;
          days := days - 29;
        } else if years % 4 != 0 && days > 28 {
          month := month + 1;
          days := days - 28;
        } else {
          break;
        }
      } else if month in {3, 5, 8, 10} && days > 30 {
        month := month + 1;
        days := days - 30;
      } else {
        break;
      }
      MonthsBeforeGrows(month, years);
    }
  }

  /** The clock part of `getDateTime`: whole days, then hours, minutes and
      seconds of the day. */
  method SplitClock(epoch: nat) returns (days: nat, hours: nat, minutes: nat, seconds: nat)
    ensures seconds < 60 && minutes < 60 && hours < 24
    ensures days == epoch / 86400
    ensures hours * 3600 + minutes * 60 + seconds == epoch % 86400
  {
    seconds := epoch;
    minutes := seconds / 60;
    seconds := seconds % 60;
    hours := minutes / 60;
    minutes := minutes % 60;
    days := hours / 24;
    hours := hours % 24;
    ClockParts(epoch);
  }

  lemma ClockParts(n: nat)
    ensures n / 60 / 60 == n / 3600 && n / 3600 / 24 == n / 86400
    ensures n % 86400 == n / 3600 % 24 * 3600 + n / 60 % 60 * 60 + n % 60
  {
    var s, m, h, d := n % 60, n / 60 % 60, n / 3600 % 24, n / 86400;
    assert n / 60 == n / 3600 * 60 + m;
    assert n / 3600 == d * 24 + h;
    assert n == n / 60 * 60 + s;
  }

  lemma MonthsBeforeGrows(m: int, y: int)
    requires 2 <= m
    ensures MonthsBefore(m, y) == MonthsBefore(m - 1, y) + MonthLength(m - 1, y)
  {
  }

  // ---------------------------------------------------------------------------
  // The state object

  class State {
    var playersList: map<Ip, (Text, Text)>
    var lastCheckpoint: Text
    var checkpoints: seq<Text>
    var date: Text
    var chatHistory: seq<(Text, Text)>

    /** The state of a server without a save. */
    constructor ()
      ensures playersList == map[] && lastCheckpoint == [] && checkpoints == []
      ensures date == [] && chatHistory == []
    {
      playersList := map[];
      lastCheckpoint := [];
      checkpoints := [];
      date := [];
      chatHistory := [];
    }

    /** The state read from a save (its fields given already parsed): an
        empty checkpoint list falls back to the configured first
        checkpoint, so the list is never empty. */
    constructor Load(players: map<Ip, (Text, Text)>, last: Text, saved: seq<Text>, date: Text, firstCheckpoint: Text)
      ensures playersList == players && lastCheckpoint == last && this.date == date && chatHistory == []
      ensures checkpoints == if saved == [] then [firstCheckpoint] else saved
      ensures |checkpoints| > 0
    {
      playersList := players;
      lastCheckpoint := last;
      checkpoints := saved;
      this.date := date;
      chatHistory := [];
      new;
      if |checkpoints| == 0 {
        checkpoints := checkpoints + [firstCheckpoint];
      }
    }

    /** The name and class remembered for an address, or the defaults. */
    function GetPlayerInfo(ip: Ip): (info: (Text, Text))
      reads this
      ensures ip in playersList ==> info == playersList[ip]
      ensures ip !in playersList ==> info == (Utf8("noname"), Utf8("unknown"))
    {
      GetOr(playersList, ip, (Utf8("noname"), Utf8("unknown")))
    }

    method SetPlayerInfo(ip: Ip, name: Text, className: Text)
      modifies this`playersList
      ensures GetPlayerInfo(ip) == (name, className)
      ensures forall other :: other != ip ==> GetPlayerInfo(other) == old(GetPlayerInfo(other))
      ensures playersList.Keys == old(playersList.Keys) + {ip}
    {
      playersList := playersList[ip := (name, className)];
    }

    /** Records that `checkpoint` was reached and dates the save. */
    method Save(checkpoint: Text, epoch: nat)
      modifies this`checkpoints, this`date
      ensures checkpoints == WithCheckpoint(old(checkpoints), checkpoint)
      ensures NoDup(old(checkpoints)) ==> NoDup(checkpoints)
    {
      var found := false;
      var i := 0;
      while i < |checkpoints|
        invariant 0 <= i <= |checkpoints|
        invariant checkpoint !in checkpoints[..i]
      {
        if checkpoints[i] == checkpoint {
          found := true;
          break;
        }
        i := i + 1;
      }
      assert found || checkpoints[..i] == checkpoints;
      if !found {
        checkpoints := checkpoints + [checkpoint];
      }
      if NoDup(old(checkpoints)) {
        WithCheckpointKeepsNoDup(old(checkpoints), checkpoint);
      }
      var now := GetDateTime(epoch);
      date := DateText(now);
    }
  }
}
