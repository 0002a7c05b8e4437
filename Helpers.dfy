/**
 * The helper functions of the dashboard: adherence percentages, colour
 * classes for statuses and compliance, relative dates, training volume and
 * the mapping of a parsed text-generation response to check-in insights.
 * Dates are milliseconds since the epoch; numbers are whole numbers.
 */
module Helpers {
  import opened Domain
  import Text

  const MsPerDay: int := 86_400_000

  // Rounding of a quotient, as Math.floor, Math.ceil and Math.round do on a/b.

  /** Math.floor(a / b): the greatest integer not above the quotient. */
  function FloorDiv(a: int, b: int): (q: int)
    requires b != 0
    ensures b > 0 ==> q * b <= a < (q + 1) * b
    ensures b < 0 ==> (q + 1) * b < a <= q * b
  {
    if b > 0 then a / b else (-a) / (-b)
  }

  /** Math.ceil(a / b) for a positive divisor: the least integer not below the quotient. */
  function CeilDiv(a: int, b: int): (q: int)
    requires b > 0
    ensures (q - 1) * b < a <= q * b
  {
    -((-a) / b)
  }

  /** Math.round(a / b): the nearest integer, halves rounded up. */
  function RoundDiv(a: int, b: int): (q: int)
    requires b != 0
    ensures b > 0 ==> (2 * q - 1) * b <= 2 * a < (2 * q + 1) * b
    ensures b < 0 ==> (2 * q + 1) * b < 2 * a <= (2 * q - 1) * b
  {
    FloorDiv(2 * a + b, 2 * b)
  }

  /** `getClientStatusColor`. */
  function StatusColor(status: ClientStatus): (c: string)
    ensures c == DefaultStatusColor <==> status == Inactive
    ensures status == Active ==> c == "bg-success text-success-foreground"
    ensures status == NeedsAttention ==> c == "bg-warning text-warning-foreground"
    ensures status == Overdue ==> c == "bg-destructive text-destructive-foreground"
  {
    match status
    case Active => "bg-success text-success-foreground"
    case NeedsAttention => "bg-warning text-warning-foreground"
    case Overdue => "bg-destructive text-destructive-foreground"
    case Inactive => DefaultStatusColor
  }

  /** The class of the `default` branch, which `inactive` shares. */
  const DefaultStatusColor: string := "bg-muted text-muted-foreground"

  /** Active, needs-attention and overdue clients get classes of their own; inactive ones the default. */
  lemma StatusColorsDistinct()
    ensures StatusColor(Inactive) == DefaultStatusColor
    ensures forall s1, s2 :: s1 != s2 ==> StatusColor(s1) != StatusColor(s2)
  {
    // The fourth character tells the four classes apart: 's', 'w', 'd', 'm'.
    assert StatusColor(Active)[3] == 's';
    assert StatusColor(NeedsAttention)[3] == 'w';
    assert StatusColor(Overdue)[3] == 'd';
    assert StatusColor(Inactive)[3] == 'm';
  }

  /** `calculateAdherence`: `completed` out of `total` as a whole percentage; 0 when total is 0. */
  function Adherence(completed: int, total: int): (r: int)
    ensures total == 0 ==> r == 0
    ensures total > 0 ==> (2 * r - 1) * total <= 200 * completed < (2 * r + 1) * total
    ensures total < 0 ==> (2 * r + 1) * total < 200 * completed <= (2 * r - 1) * total
  {
    if total == 0 then 0 else RoundDiv(100 * completed, total)
  }

  lemma CancelLe(x: int, y: int, t: int)
    requires t > 0 && x * t <= y * t
    ensures x <= y
  {
  }

  lemma CancelLt(x: int, y: int, t: int)
    requires t > 0 && x * t < y * t
    ensures x < y
  {
  }

  /** A share of a positive total is a percentage between 0 and 100, and all of it is exactly 100. */
  lemma AdherenceBounds(completed: int, total: int)
    requires 0 <= completed <= total && total > 0
    ensures 0 <= Adherence(completed, total) <= 100
    ensures completed == total ==> Adherence(completed, total) == 100
    ensures completed == 0 ==> Adherence(completed, total) == 0
  {
    var r := Adherence(completed, total);
    CancelLe(2 * r - 1, 200, total);
    CancelLt(0, 2 * r + 1, total);
    if completed == total {
      CancelLt(200, 2 * r + 1, total);
    }
    if completed == 0 {
      CancelLe(2 * r - 1, 0, total);
    }
  }

  /** Completing more never lowers the percentage. */
  lemma AdherenceMonotone(c1: int, c2: int, total: int)
    requires c1 <= c2 && total > 0
    ensures Adherence(c1, total) <= Adherence(c2, total)
  {
    var r1, r2 := Adherence(c1, total), Adherence(c2, total);
    CancelLt(2 * r1 - 1, 2 * r2 + 1, total);
  }

  /** `getComplianceColor`. */
  function ComplianceColor(compliance: int): (c: string)
    ensures c == "text-success" <==> compliance >= 90
    ensures c == "text-warning" <==> 70 <= compliance < 90
    ensures c == "text-destructive" <==> compliance < 70
  {
    if compliance >= 90 then "text-success"
    else if compliance >= 70 then "text-warning"
    else "text-destructive"
  }

  /** The phrase `formatRelativeTime` picks for an age in whole days. */
  datatype RelativeTime =
    | Today
    | Yesterday
    | DaysAgo(days: int)
    | WeeksAgo(weeks: int)
    | MonthsAgo(months: int)
    | YearsAgo(years: int)

  /** The bucket of an age of d days (negative for dates in the future). */
  function Bucket(d: int): (r: RelativeTime)
    ensures r == Today <==> d == 0
    ensures r == Yesterday <==> d == 1
    ensures r.DaysAgo? <==> d < 7 && d != 0 && d != 1
    ensures r.DaysAgo? ==> r.days == d
    ensures r.WeeksAgo? <==> 7 <= d < 30
    ensures r.WeeksAgo? ==> 1 <= r.weeks <= 4 && 7 * r.weeks <= d < 7 * r.weeks + 7
    ensures r.MonthsAgo? <==> 30 <= d < 365
    ensures r.MonthsAgo? ==> 1 <= r.months <= 12 && 30 * r.months <= d < 30 * r.months + 30
    ensures r.YearsAgo? <==> d >= 365
    ensures r.YearsAgo? ==> r.years >= 1 && 365 * r.years <= d < 365 * r.years + 365
  {
    if d == 0 then Today
    else if d == 1 then Yesterday
    else if d < 7 then DaysAgo(d)
    else if d < 30 then WeeksAgo(d / 7)
    else if d < 365 then MonthsAgo(d / 30)
    else YearsAgo(d / 365)
  }

  /** The number of days a phrase stands for ("3 weeks ago" is 21 days). */
  function ShownDays(r: RelativeTime): int {
    match r
    case Today => 0
    case Yesterday => 1
    case DaysAgo(n) => n
    case WeeksAgo(n) => 7 * n
    case MonthsAgo(n) => 30 * n
    case YearsAgo(n) => 365 * n
  }

  /**
   * For past dates the phrase never overstates the age, and an older date is
   * never shown as more recent than a newer one.
   */
  lemma BucketMonotone(d1: int, d2: int)
    requires 0 <= d1 <= d2
    ensures ShownDays(Bucket(d1)) <= d1
    ensures ShownDays(Bucket(d1)) <= ShownDays(Bucket(d2))
  {
  }

  /** The text of a phrase. */
  function Render(r: RelativeTime): (s: string)
    ensures r == Today ==> s == "Today"
    ensures r == Yesterday ==> s == "Yesterday"
    ensures r.DaysAgo? ==> s == Text.IntToString(r.days) + " days ago"
    ensures r.WeeksAgo? ==> s == Text.IntToString(r.weeks) + " weeks ago"
    ensures r.MonthsAgo? ==> s == Text.IntToString(r.months) + " months ago"
    ensures r.YearsAgo? ==> s == Text.IntToString(r.years) + " years ago"
  {
    match r
    case Today => "Today"
    case Yesterday => "Yesterday"
    case DaysAgo(n) => Text.IntToString(n) + " days ago"
    case WeeksAgo(n) => Text.IntToString(n) + " weeks ago"
    case MonthsAgo(n) => Text.IntToString(n) + " months ago"
    case YearsAgo(n) => Text.IntToString(n) + " years ago"
  }

  /** Whole days elapsed from `dateMs` to `nowMs`, rounded down. */
  function DaysSince(dateMs: int, nowMs: int): (r: int)
    ensures r * MsPerDay <= nowMs - dateMs < (r + 1) * MsPerDay
  {
    FloorDiv(nowMs - dateMs, MsPerDay)
  }

  /** `formatRelativeTime`. */
  function FormatRelativeTime(dateMs: int, nowMs: int): (s: string)
    ensures var d := DaysSince(dateMs, nowMs);
      && (d == 0 ==> s == "Today")
      && (d == 1 ==> s == "Yesterday")
      && (d < 7 && d != 0 && d != 1 ==> s == Text.IntToString(d) + " days ago")
      && (7 <= d < 30 ==> s == Text.IntToString(d / 7) + " weeks ago")
      && (30 <= d < 365 ==> s == Text.IntToString(d / 30) + " months ago")
      && (d >= 365 ==> s == Text.IntToString(d / 365) + " years ago")
  {
    Render(Bucket(DaysSince(dateMs, nowMs)))
  }

  /** `getDaysUntil`: days from `nowMs` to `dateMs`, rounded up. */
  function DaysUntil(dateMs: int, nowMs: int): (r: int)
    ensures (r - 1) * MsPerDay < dateMs - nowMs <= r * MsPerDay
  {
    CeilDiv(dateMs - nowMs, MsPerDay)
  }

  /** The ceiling of a quotient is the only integer with its defining property. */
  lemma CeilUnique(a: int, b: int, q1: int, q2: int)
    requires b > 0
    requires (q1 - 1) * b < a <= q1 * b
    requires (q2 - 1) * b < a <= q2 * b
    ensures q1 == q2
  {
    CancelLt(q1 - 1, q2, b);
    CancelLt(q2 - 1, q1, b);
  }

  /** Days until a date are the days since it, negated: the ceiling and the floor agree. */
  lemma DaysUntilIsNegatedDaysSince(dateMs: int, nowMs: int)
    ensures DaysUntil(dateMs, nowMs) == -DaysSince(dateMs, nowMs)
  {
    var s := DaysSince(dateMs, nowMs);
    CeilUnique(dateMs - nowMs, MsPerDay, DaysUntil(dateMs, nowMs), -s);
  }

  /** A date exactly k days ahead is k days away. */
  lemma DaysUntilWholeDays(nowMs: int, k: int)
    ensures DaysUntil(nowMs + k * MsPerDay, nowMs) == k
  {
    CeilUnique(k * MsPerDay, MsPerDay, DaysUntil(nowMs + k * MsPerDay, nowMs), k);
  }

  // Training volume: the sum of reps times load over completed sets.

  function SetVolume(s: LoggedSet): int {
    if s.completed then s.reps * s.load else 0
  }

  function SetsVolume(sets: seq<LoggedSet>): int {
    if sets == [] then 0 else SetsVolume(sets[..|sets| - 1]) + SetVolume(sets[|sets| - 1])
  }

  function ExercisesVolume(exercises: seq<LoggedExercise>): int {
    if exercises == [] then 0
    else ExercisesVolume(exercises[..|exercises| - 1]) + SetsVolume(exercises[|exercises| - 1].sets)
  }

  function WorkoutsVolume(workouts: seq<WorkoutLog>): int {
    if workouts == [] then 0
    else WorkoutsVolume(workouts[..|workouts| - 1]) + ExercisesVolume(workouts[|workouts| - 1].exercises)
  }

  /** `calculateVolumeLoad`: three nested loops accumulating into one total. */
  method CalculateVolumeLoad(workouts: seq<WorkoutLog>) returns (total: int)
    ensures total == WorkoutsVolume(workouts)
  {
    total := 0;
    var i := 0;
    while i < |workouts|
      invariant 0 <= i <= |workouts|
      invariant total == WorkoutsVolume(workouts[..i])
    {
      var exercises := workouts[i].exercises;
      var j := 0;
      while j < |exercises|
        invariant 0 <= j <= |exercises|
        invariant total == WorkoutsVolume(workouts[..i]) + ExercisesVolume(exercises[..j])
      {
        var sets := exercises[j].sets;
        var k := 0;
        while k < |sets|
          invariant 0 <= k <= |sets|
          invariant total == WorkoutsVolume(workouts[..i]) + ExercisesVolume(exercises[..j]) + SetsVolume(sets[..k])
        {
          if sets[k].completed {
            total := total + sets[k].reps * sets[k].load;
          }
          assert sets[..k + 1][..k] == sets[..k];
          k := k + 1;
        }
        assert sets[..k] == sets;
        assert exercises[..j + 1][..j] == exercises[..j];
        j := j + 1;
      }
      assert exercises[..j] == exercises;
      assert workouts[..i + 1][..i] == workouts[..i];
      i := i + 1;
    }
    assert workouts[..i] == workouts;
  }

  /** The volume of a list of workouts is the sum of the volumes of its parts. */
  lemma {:induction false} WorkoutsVolumeAppend(a: seq<WorkoutLog>, b: seq<WorkoutLog>)
    ensures WorkoutsVolume(a + b) == WorkoutsVolume(a) + WorkoutsVolume(b)
  {
    if b == [] {
      assert a + b == a;
    } else {
      assert (a + b)[..|a + b| - 1] == a + b[..|b| - 1];
      WorkoutsVolumeAppend(a, b[..|b| - 1]);
    }
  }

  predicate NoCompletedSets(w: WorkoutLog) {
    forall e, s :: e in w.exercises && s in e.sets ==> !s.completed
  }

  lemma {:induction false} SetsVolumeNoneCompleted(sets: seq<LoggedSet>)
    requires forall s :: s in sets ==> !s.completed
    ensures SetsVolume(sets) == 0
  {
    if sets != [] {
      SetsVolumeNoneCompleted(sets[..|sets| - 1]);
    }
  }

  lemma {:induction false} ExercisesVolumeNoneCompleted(exercises: seq<LoggedExercise>)
    requires forall e, s :: e in exercises && s in e.sets ==> !s.completed
    ensures ExercisesVolume(exercises) == 0
  {
    if exercises != [] {
      ExercisesVolumeNoneCompleted(exercises[..|exercises| - 1]);
      SetsVolumeNoneCompleted(exercises[|exercises| - 1].sets);
    }
  }

  /** No workouts carry no volume, and a workout without completed sets adds none. */
  lemma AppendIdleWorkout(workouts: seq<WorkoutLog>, w: WorkoutLog)
    requires NoCompletedSets(w)
    ensures WorkoutsVolume([]) == 0
    ensures WorkoutsVolume(workouts + [w]) == WorkoutsVolume(workouts)
  {
    assert (workouts + [w])[..|workouts|] == workouts;
    ExercisesVolumeNoneCompleted(w.exercises);
  }

  /** With non-negative reps and loads the volume is never negative. */
  lemma {:induction false} SetsVolumeNonNegative(sets: seq<LoggedSet>)
    requires forall s :: s in sets ==> s.reps >= 0 && s.load >= 0
    ensures SetsVolume(sets) >= 0
  {
    if sets != [] {
      SetsVolumeNonNegative(sets[..|sets| - 1]);
    }
  }

  // Mapping a parsed text-generation response to insights.

  /** One entry of the response's `insights` array, as parsed. */
  datatype RawInsight = RawInsight(kind: string, text: string)

  /** The parsed response: unparsable, or parsed with or without an `insights` array. */
  datatype ParsedResponse = Unparsable | Parsed(insights: Option<seq<RawInsight>>)

  /** `insight-<stamp>-<index>`. */
  function InsightId(stamp: nat, index: nat): string {
    "insight-" + Text.NatToString(stamp) + "-" + Text.NatToString(index)
  }

  /** An insight id names its timestamp and its index: they can be read back from it. */
  lemma InsightIdInjective(s1: nat, i1: nat, s2: nat, i2: nat)
    requires InsightId(s1, i1) == InsightId(s2, i2)
    ensures s1 == s2 && i1 == i2
  {
    var a1, a2 := "insight-" + Text.NatToString(s1), "insight-" + Text.NatToString(s2);
    var n1, n2 := Text.NatToString(i1), Text.NatToString(i2);
    assert InsightId(s1, i1) == a1 + ['-'] + n1;
    assert InsightId(s2, i2) == a2 + ['-'] + n2;
    assert '-' !in n1 && '-' !in n2;
    Text.SplitAtLast(a1, n1, a2, n2, '-');
    Text.PrefixCancel("insight-", Text.NatToString(s1), Text.NatToString(s2));
    Text.NatToStringInjective(s1, s2);
    Text.NatToStringInjective(i1, i2);
  }

  /**
   * The `map` over the `insights` array: one editable insight per entry, in
   * order. `stamps[i]` is the clock reading taken while entry i is mapped.
   */
  function MapInsights(raw: seq<RawInsight>, stamps: seq<nat>): (r: seq<CheckInInsight>)
    requires |stamps| == |raw|
    ensures |r| == |raw|
    ensures forall i :: 0 <= i < |raw| ==>
      r[i].id == InsightId(stamps[i], i) && r[i].kind == raw[i].kind && r[i].text == raw[i].text && r[i].editable
  {
    seq(|raw|, i requires 0 <= i < |raw| => CheckInInsight(InsightId(stamps[i], i), raw[i].kind, raw[i].text, true))
  }

  /** The response carries an `insights` array with one clock reading per entry. */
  predicate StampsFit(response: ParsedResponse, stamps: seq<nat>) {
    response.Parsed? && response.insights.Some? ==> |stamps| == |response.insights.value|
  }

  /**
   * The tail of `generateCheckInInsights`: an unparsable response, or one
   * without an `insights` array, makes the call fail; otherwise each entry
   * becomes an insight.
   */
  function InsightsFromResponse(response: ParsedResponse, stamps: seq<nat>): (r: Result<seq<CheckInInsight>>)
    requires StampsFit(response, stamps)
    ensures r.Err? <==> response.Unparsable? || response.insights.None?
  {
    match response
    case Unparsable => Err("response is not valid JSON")
    case Parsed(None) => Err("response has no insights array")
    case Parsed(Some(raw)) => Ok(MapInsights(raw, stamps))
  }

  /**
   * A well-formed response yields one insight per entry, in order, with its
   * type and text copied, editable, and with pairwise distinct ids whatever
   * the clock readings; entries of the four known types give insights of
   * those types.
   */
  lemma InsightsFromResponseSpec(raw: seq<RawInsight>, stamps: seq<nat>)
    requires |stamps| == |raw|
    ensures var r := InsightsFromResponse(Parsed(Some(raw)), stamps);
      && r.Ok? && |r.value| == |raw|
      && (forall i :: 0 <= i < |raw| ==>
            r.value[i].kind == raw[i].kind && r.value[i].text == raw[i].text && r.value[i].editable)
      && (forall i, j :: 0 <= i < j < |raw| ==> r.value[i].id != r.value[j].id)
      && ((forall i :: 0 <= i < |raw| ==> raw[i].kind in InsightKinds) ==>
            forall i :: 0 <= i < |raw| ==> r.value[i].kind in InsightKinds)
  {
    var r := MapInsights(raw, stamps);
    forall i, j | 0 <= i < j < |raw| ensures r[i].id != r[j].id {
      if r[i].id == r[j].id {
        InsightIdInjective(stamps[i], i, stamps[j], j);
      }
    }
  }
}
