/** The time budget of src/components/TimeCalculator.tsx: six activities with
    the hours spent on each, three edit operations, the total, the share of
    the selected timeframe it fills, and the message shown for it. */
module TimeBudget {
  import opened Prelude
  import opened Text

  /** An entry of the activities list; the icon and colour are left out. */
  datatype Activity = Activity(name: string, hours: real)

  datatype Timeframe = Daily | Weekly | Monthly | Yearly

  /** The hours a timeframe holds: a day, a week, thirty days, a year. */
  function MaxHours(tf: Timeframe): (m: real)
    ensures m > 0.0
  {
    match tf
    case Daily => 24.0
    case Weekly => 168.0
    case Monthly => 720.0
    case Yearly => 8760.0
  }

  /** `PRESET_ACTIVITIES`: six activities, no hours yet. */
  function Presets(): (r: seq<Activity>)
    ensures |r| == 6 && forall i :: 0 <= i < 6 ==> r[i].hours == 0.0
  {
    [ Activity("TikTok", 0.0), Activity("Instagram", 0.0), Activity("YouTube", 0.0),
      Activity("Netflix", 0.0), Activity("Игры", 0.0), Activity("Другое", 0.0) ]
  }

  /** `activities.reduce((sum, a) => sum + a.hours, 0)`: when no entry is
      negative, neither is the total, and no entry exceeds it. */
  function Total(xs: seq<Activity>): (r: real)
    ensures (forall i :: 0 <= i < |xs| ==> xs[i].hours >= 0.0) ==>
      r >= 0.0 && forall i :: 0 <= i < |xs| ==> xs[i].hours <= r
  {
    if |xs| == 0 then 0.0 else Total(xs[..|xs| - 1]) + xs[|xs| - 1].hours
  }

  /** Changing the hours of one entry changes the total by the difference. */
  lemma {:induction false} TotalUpdate(xs: seq<Activity>, i: nat, v: real)
    requires i < |xs|
    ensures Total(xs[i := xs[i].(hours := v)]) == Total(xs) - xs[i].hours + v
  {
    var ys := xs[i := xs[i].(hours := v)];
    var n := |xs| - 1;
    assert Total(ys) == Total(ys[..n]) + ys[n].hours;
    assert Total(xs) == Total(xs[..n]) + xs[n].hours;
    if i < n {
      assert ys[..n] == xs[..n][i := xs[i].(hours := v)];
      TotalUpdate(xs[..n], i, v);
    } else {
      assert ys[..n] == xs[..n];
    }
  }

  /** `Math.max(0, parseFloat(s) || 0)`: the number the input starts with,
      with a negative number and a non-number both read as zero. */
  function HoursFromInput(s: string): (r: real)
    ensures r >= 0.0
    ensures r == 0.0 || ParseFloat(s) == Some(r)
    ensures forall v :: ParseFloat(s) == Some(v) && v >= 0.0 ==> r == v
  {
    match ParseFloat(s)
    case None => 0.0
    case Some(v) => MaxReal(0.0, v)
  }

  /** `hours + 0.5`. */
  function Increased(hours: real): real {
    hours + 0.5
  }

  /** `Math.max(0, hours - 0.5)`. */
  function Decreased(hours: real): (r: real)
    ensures r >= 0.0
    ensures r <= hours || hours < 0.0
  {
    MaxReal(0.0, hours - 0.5)
  }

  /** A step up and a step down restore a non-negative value, and a step
      down at zero stays at zero. */
  lemma StepsRestore(hours: real)
    requires hours >= 0.0
    ensures Decreased(Increased(hours)) == hours
    ensures Decreased(0.0) == 0.0
  {
  }

  /** `getTimePercentage`: the total as a percentage of the timeframe, at
      most 100. */
  function TimePercentage(total: real, tf: Timeframe): (p: real)
    ensures p <= 100.0
    ensures total >= 0.0 ==> p >= 0.0
    ensures total <= MaxHours(tf) ==> p * MaxHours(tf) == total * 100.0
    ensures total >= MaxHours(tf) ==> p == 100.0
  {
    MinReal(total / MaxHours(tf) * 100.0, 100.0)
  }

  /** Which message `getMotivationalMessage` shows: 0 for no time, then one
      step for each of the thresholds 4, 12 and 24 hours. */
  function MessageLevel(total: real): (level: nat)
    ensures level <= 4
    ensures level == 0 <==> total == 0.0
    ensures level == 4 <==> total >= 24.0
  {
    if total == 0.0 then 0
    else if total < 4.0 then 1
    else if total < 12.0 then 2
    else if total < 24.0 then 3
    else 4
  }

  /** More hours never give a lower message. */
  lemma MessageLevelMonotone(t1: real, t2: real)
    requires 0.0 <= t1 <= t2
    ensures MessageLevel(t1) <= MessageLevel(t2)
  {
  }

  /** `getMotivationalMessage`. */
  function MotivationalMessage(total: real): (m: string)
    ensures m == Messages()[MessageLevel(total)]
  {
    if total == 0.0 then "Отслеживайте время, чтобы открыть возможности для обучения"
    else if total < 4.0 then "Каждая минута важна! Маленькие шаги ведут к большим достижениям"
    else if total < 12.0 then "Вы на пути к освоению чего-то удивительного!"
    else if total < 24.0 then "Невероятный потенциал! Вы можете освоить новый навык"
    else "Выдающийся результат! У вас есть время для освоения множества навыков"
  }

  /** The five messages, by level. */
  function Messages(): (r: seq<string>)
    ensures |r| == 5
  {
    [ "Отслеживайте время, чтобы открыть возможности для обучения",
      "Каждая минута важна! Маленькие шаги ведут к большим достижениям",
      "Вы на пути к освоению чего-то удивительного!",
      "Невероятный потенциал! Вы можете освоить новый навык",
      "Выдающийся результат! У вас есть время для освоения множества навыков" ]
  }

  /** The calculator's state: the activities, edited in place, and the
      selected timeframe. */
  class TimeCalculator {
    var activities: array<Activity>
    var timeframe: Timeframe

    /** Six entries, none with negative hours. */
    ghost predicate Valid()
      reads this, activities
    {
      && activities.Length == 6
      && forall i :: 0 <= i < activities.Length ==> activities[i].hours >= 0.0
    }

    /** The preset activities and the daily timeframe. */
    constructor ()
      ensures Valid() && fresh(activities)
      ensures activities[..] == Presets() && timeframe == Daily
    {
      var presets := Presets();
      var a := new Activity[6](i requires 0 <= i < 6 => presets[i]);
      assert a[..] == presets;
      activities := a;
      timeframe := Daily;
    }

    /** The total hours. */
    function TotalHours(): real
      reads this, activities
    {
      Total(activities[..])
    }

    /** The percentage of the timeframe that the total fills. */
    function Percentage(): real
      reads this, activities
    {
      TimePercentage(TotalHours(), timeframe)
    }

    /** `updateActivityHours(index, input)`. */
    method UpdateActivityHours(index: nat, input: string)
      requires Valid() && index < activities.Length
      modifies activities
      ensures Valid()
      ensures activities[..] == old(activities[..])[index := old(activities[index]).(hours := HoursFromInput(input))]
      ensures TotalHours() == old(TotalHours()) - old(activities[index].hours) + HoursFromInput(input)
    {
      var updated := activities[index].(hours := HoursFromInput(input));
      TotalUpdate(activities[..], index, updated.hours);
      activities[index] := updated;
    }

    /** `increaseHours(index)`. */
    method IncreaseHours(index: nat)
      requires Valid() && index < activities.Length
      modifies activities
      ensures Valid()
      ensures activities[..] == old(activities[..])[index := old(activities[index]).(hours := Increased(old(activities[index].hours)))]
      ensures TotalHours() == old(TotalHours()) + 0.5
    {
      var updated := activities[index].(hours := Increased(activities[index].hours));
      TotalUpdate(activities[..], index, updated.hours);
      activities[index] := updated;
    }

    /** `decreaseHours(index)`. */
    method DecreaseHours(index: nat)
      requires Valid() && index < activities.Length
      modifies activities
      ensures Valid()
      ensures activities[..] == old(activities[..])[index := old(activities[index]).(hours := Decreased(old(activities[index].hours)))]
      ensures TotalHours() <= old(TotalHours())
    {
      var updated := activities[index].(hours := Decreased(activities[index].hours));
      TotalUpdate(activities[..], index, updated.hours);
      activities[index] := updated;
    }

    /** A click on a timeframe button. */
    method SetTimeframe(tf: Timeframe)
      modifies this
      ensures timeframe == tf && activities == old(activities)
    {
      timeframe := tf;
    }

    /** With valid state the total is non-negative and the percentage lies
        between 0 and 100. */
    lemma PercentageInRange()
      requires Valid()
      ensures TotalHours() >= 0.0
      ensures 0.0 <= Percentage() <= 100.0
    {
      assert forall i :: 0 <= i < |activities[..]| ==> activities[..][i].hours >= 0.0;
    }
  }

  /** A decimal number is read as written. */
  lemma DecimalInput()
    ensures HoursFromInput("3.5") == 3.5
  {
    var s := "3.5";
    assert s[1..] == ".5" && s[1..][1..] == "5" && s[1..][1..][1..] == "";
    assert TrimStart(s) == s;
    assert LeadingDigits(s) == 1;
    assert LeadingDigits("5") == 1;
    assert s[..1] == "3" && "3"[..0] == "" && "5"[..0] == "";
    assert DigitsValue("3") == 3 && DigitsValue("5") == 5;
    assert ParseFloat(s) == Some(3.5);
  }

  /** Text after the number is ignored. */
  lemma TrailingTextInput()
    ensures HoursFromInput("2h") == 2.0
  {
    var s := "2h";
    assert s[1..] == "h" && s[..1] == "2" && "2"[..0] == "";
    assert TrimStart(s) == s;
    assert LeadingDigits(s) == 1;
    assert DigitsValue("2") == 2;
    assert ParseFloat(s) == Some(2.0);
  }

  /** A negative number is clamped to zero. */
  lemma NegativeInput()
    ensures HoursFromInput("-5") == 0.0
  {
    var s := "-5";
    assert s[1..] == "5" && "5"[1..] == "" && "5"[..1] == "5" && "5"[..0] == "";
    assert TrimStart(s) == s;
    assert LeadingDigits("5") == 1;
    assert DigitsValue("5") == 5;
    assert ParseFloat(s) == Some(-5.0);
  }

  /** Text that is not a number counts as zero hours. */
  lemma TextInput()
    ensures HoursFromInput("abc") == 0.0
  {
    var s := "abc";
    assert TrimStart(s) == s;
    assert LeadingDigits(s) == 0;
    assert ParseFloat(s) == None;
  }
}
