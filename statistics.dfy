/**
 * The per-user statistics aggregator: counts, the mean completion time, the priority and status
 * buckets, the last activity, the day streak and the productivity score of one user's tasks.
 * Timestamps are whole seconds; a calendar day is a day number, `t / 86400`.
 */
module Statistics {
  import opened Outcomes
  import opened Records
  import Seqs
  import Db

  const SecondsPerDay: int := 86400
  const SecondsPerHour: real := 3600.0

  /** The labels the aggregator counts; the task enums store English labels instead. */
  const Completada: string := "completada"
  const EnProgreso: string := "en_progreso"
  const Pendiente: string := "pendiente"
  const Alta: string := "alta"
  const Media: string := "media"
  const Baja: string := "baja"

  /** `datetime.date()` of a timestamp, as a day number. */
  function DayOf(t: int): int
  {
    t / SecondsPerDay
  }

  /** The record `UserStatistics` validates; its `user_id` field is an `int`. */
  datatype UserStatistics = UserStatistics(
    userId: int,
    totalTasks: nat,
    completedTasks: nat,
    pendingTasks: nat,
    averageCompletionTime: real,
    tasksByPriority: map<string, nat>,
    tasksByStatus: map<string, nat>,
    lastActivity: int,
    streakDays: nat,
    productivityScore: real)

  /** The tasks the aggregator fetches for a user: those whose `user_id` is that user's key. */
  function UserTasks(store: seq<Task>, userId: string): (r: seq<Task>)
    ensures |r| <= |store|
    ensures forall i :: 0 <= i < |r| ==> r[i] in store && r[i].userRef == Some(userId)
    ensures forall i :: 0 <= i < |store| && store[i].userRef == Some(userId) ==> store[i] in r
  {
    if |store| == 0 then []
    else
      var rest := UserTasks(store[1..], userId);
      assert forall i :: 1 <= i < |store| ==> store[i] == store[1..][i - 1];
      if store[0].userRef == Some(userId) then [store[0]] + rest else rest
  }

  // ---------------------------------------------------------------- counts and buckets

  /** The field a bucket looks at. */
  datatype Field = StatusField | PriorityField

  function LabelOf(t: Task, f: Field): string
  {
    match f
    case StatusField => t.status
    case PriorityField => t.priority
  }

  /** `len([t for t in tasks if t[field] == key])`: exact matches only. */
  function Count(tasks: seq<Task>, f: Field, key: string): (n: nat)
    ensures n <= |tasks|
    ensures n == 0 <==> forall i :: 0 <= i < |tasks| ==> LabelOf(tasks[i], f) != key
    ensures n == |tasks| <==> forall i :: 0 <= i < |tasks| ==> LabelOf(tasks[i], f) == key
  {
    if |tasks| == 0 then 0
    else
      var rest := Count(tasks[1..], f, key);
      assert forall i :: 1 <= i < |tasks| ==> tasks[i] == tasks[1..][i - 1];
      (if LabelOf(tasks[0], f) == key then 1 else 0) + rest
  }

  /** Counting over a concatenation adds the counts; a single task counts 1 exactly when it carries the label. */
  lemma {:induction false} CountAppend(a: seq<Task>, b: seq<Task>, f: Field, key: string)
    ensures Count(a + b, f, key) == Count(a, f, key) + Count(b, f, key)
    ensures forall t :: Count([t], f, key) == if LabelOf(t, f) == key then 1 else 0
  {
    if |a| > 0 {
      assert (a + b)[1..] == a[1..] + b;
      CountAppend(a[1..], b, f, key);
    } else {
      assert a + b == b;
    }
    forall t ensures Count([t], f, key) == if LabelOf(t, f) == key then 1 else 0 {
      assert [t][1..] == [];
    }
  }

  /** Three different labels never count one task twice. */
  lemma {:induction false} ThreeBucketsBounded(tasks: seq<Task>, f: Field, a: string, b: string, c: string)
    requires a != b && b != c && a != c
    ensures Count(tasks, f, a) + Count(tasks, f, b) + Count(tasks, f, c) <= |tasks|
  {
    if |tasks| > 0 {
      ThreeBucketsBounded(tasks[1..], f, a, b, c);
    }
  }

  /** A zero-filled bucket map: every one of the three labels is a key. */
  function Buckets(tasks: seq<Task>, f: Field, a: string, b: string, c: string): (m: map<string, nat>)
    ensures m.Keys == {a, b, c}
  {
    map[a := Count(tasks, f, a), b := Count(tasks, f, b), c := Count(tasks, f, c)]
  }

  /** Each of three different labels maps to its own count. */
  lemma BucketsLookup(tasks: seq<Task>, f: Field, a: string, b: string, c: string)
    requires a != b && a != c && b != c
    ensures var m := Buckets(tasks, f, a, b, c);
      m[a] == Count(tasks, f, a) && m[b] == Count(tasks, f, b) && m[c] == Count(tasks, f, c)
  {
  }

  function PriorityBuckets(tasks: seq<Task>): map<string, nat>
  {
    Buckets(tasks, PriorityField, Alta, Media, Baja)
  }

  function StatusBuckets(tasks: seq<Task>): map<string, nat>
  {
    Buckets(tasks, StatusField, Completada, EnProgreso, Pendiente)
  }

  // ---------------------------------------------------------------- mean completion time

  /** A task that enters the mean: completed, with a completion timestamp. */
  predicate Timed(t: Task)
  {
    t.status == Completada && t.completedAt.Some?
  }

  function Duration(t: Task): int
    requires Timed(t)
  {
    t.completedAt.value - t.createdAt
  }

  /** The completion times, in seconds, of the timed tasks, in task order. */
  function Durations(tasks: seq<Task>): (d: seq<int>)
    ensures |d| <= |tasks|
    ensures |d| == 0 <==> forall i :: 0 <= i < |tasks| ==> !Timed(tasks[i])
    ensures forall k :: 0 <= k < |d| ==> exists i :: 0 <= i < |tasks| && Timed(tasks[i]) && d[k] == Duration(tasks[i])
  {
    if |tasks| == 0 then []
    else
      var rest := Durations(tasks[1..]);
      assert forall i :: 1 <= i < |tasks| ==> tasks[i] == tasks[1..][i - 1];
      if Timed(tasks[0]) then [Duration(tasks[0])] + rest else rest
  }

  /**
   * The durations of a concatenation are those of each part, in order; with `DurationsOfOne`
   * this says there is one entry per timed task, in task order.
   */
  lemma {:induction false} DurationsAppend(a: seq<Task>, b: seq<Task>)
    ensures Durations(a + b) == Durations(a) + Durations(b)
    decreases |a|
  {
    if |a| > 0 {
      var ab := a + b;
      assert ab[1..] == a[1..] + b;
      assert ab[0] == a[0];
      DurationsAppend(a[1..], b);
      DurationsCons(ab);
      DurationsCons(a);
    } else {
      assert a + b == b;
    }
  }

  /** A single task contributes its duration exactly when it is timed. */
  lemma DurationsOfOne(t: Task)
    ensures Durations([t]) == if Timed(t) then [Duration(t)] else []
  {
    DurationsCons([t]);
    assert [t][1..] == [];
  }

  /** One unfolding of `Durations`. */
  lemma DurationsCons(tasks: seq<Task>)
    requires |tasks| > 0
    ensures Durations(tasks) == (if Timed(tasks[0]) then [Duration(tasks[0])] else []) + Durations(tasks[1..])
  {
  }

  function Sum(s: seq<int>): int
  {
    if |s| == 0 then 0 else s[0] + Sum(s[1..])
  }

  /** `sum` over a concatenation is the sum of the parts. */
  lemma {:induction false} SumAppend(a: seq<int>, b: seq<int>)
    ensures Sum(a + b) == Sum(a) + Sum(b)
  {
    if |a| > 0 {
      assert (a + b)[1..] == a[1..] + b;
      SumAppend(a[1..], b);
    } else {
      assert a + b == b;
    }
  }

  /** `total / len / 3600`, or 0.0 when nothing was timed. */
  function AverageHours(d: seq<int>): (r: real)
    ensures |d| == 0 ==> r == 0.0
  {
    if |d| == 0 then 0.0 else Sum(d) as real / |d| as real / SecondsPerHour
  }

  lemma {:induction false} SumBetween(d: seq<int>, lo: int, hi: int)
    requires forall k :: 0 <= k < |d| ==> lo <= d[k] <= hi
    ensures |d| * lo <= Sum(d) <= |d| * hi
  {
    if |d| > 0 {
      SumBetween(d[1..], lo, hi);
      assert |d| * lo == lo + (|d| - 1) * lo;
      assert |d| * hi == hi + (|d| - 1) * hi;
    }
  }

  // ---------------------------------------------------------------- last activity

  function UpdateTimes(tasks: seq<Task>): seq<int>
  {
    seq(|tasks|, i requires 0 <= i < |tasks| => tasks[i].updatedAt)
  }

  /** `max(updated_at)`, or `now` for no tasks. */
  function LastActivity(tasks: seq<Task>, now: int): (r: int)
    ensures |tasks| == 0 ==> r == now
    ensures forall i :: 0 <= i < |tasks| ==> tasks[i].updatedAt <= r
    ensures |tasks| > 0 ==> exists i :: 0 <= i < |tasks| && tasks[i].updatedAt == r
  {
    if |tasks| == 0 then now
    else
      var m := Seqs.Max(UpdateTimes(tasks));
      assert forall i :: 0 <= i < |tasks| ==> UpdateTimes(tasks)[i] == tasks[i].updatedAt;
      m
  }

  // ---------------------------------------------------------------- streak

  /** Some task was last updated on calendar day `day`. */
  predicate ActiveOn(tasks: seq<Task>, day: int)
  {
    exists i :: 0 <= i < |tasks| && DayOf(tasks[i].updatedAt) == day
  }

  /** The number of tasks last updated on `day` or earlier; it shrinks as the streak walks back. */
  function UpdatedBy(tasks: seq<Task>, day: int): (n: nat)
    ensures n <= |tasks|
  {
    if |tasks| == 0 then 0
    else (if DayOf(tasks[0].updatedAt) <= day then 1 else 0) + UpdatedBy(tasks[1..], day)
  }

  lemma {:induction false} UpdatedByMonotone(tasks: seq<Task>, day: int)
    ensures UpdatedBy(tasks, day - 1) <= UpdatedBy(tasks, day)
  {
    if |tasks| > 0 {
      UpdatedByMonotone(tasks[1..], day);
    }
  }

  /** Stepping back past an active day drops at least the tasks updated on it. */
  lemma {:induction false} ActiveShrinks(tasks: seq<Task>, day: int)
    requires ActiveOn(tasks, day)
    ensures UpdatedBy(tasks, day - 1) < UpdatedBy(tasks, day)
  {
    if DayOf(tasks[0].updatedAt) == day {
      UpdatedByMonotone(tasks[1..], day);
    } else {
      var i :| 0 <= i < |tasks| && DayOf(tasks[i].updatedAt) == day;
      assert tasks[1..][i - 1] == tasks[i];
      ActiveShrinks(tasks[1..], day);
    }
  }

  /** The number of consecutive active days ending at `day`. */
  function Streak(tasks: seq<Task>, day: int): nat
    decreases UpdatedBy(tasks, day)
  {
    if ActiveOn(tasks, day) then
      ActiveShrinks(tasks, day);
      1 + Streak(tasks, day - 1)
    else 0
  }

  /** Every day of the streak was active, and the day before it was not. */
  lemma {:induction false} StreakWindow(tasks: seq<Task>, day: int)
    ensures forall d :: day - Streak(tasks, day) < d <= day ==> ActiveOn(tasks, d)
    ensures !ActiveOn(tasks, day - Streak(tasks, day))
    ensures Streak(tasks, day) <= UpdatedBy(tasks, day)
    decreases UpdatedBy(tasks, day)
  {
    if ActiveOn(tasks, day) {
      ActiveShrinks(tasks, day);
      StreakWindow(tasks, day - 1);
    }
  }

  /** A window of `k` active days preceded by an inactive one is the streak. */
  lemma {:induction false} StreakIsWindow(tasks: seq<Task>, day: int, k: nat)
    requires forall d :: day - k < d <= day ==> ActiveOn(tasks, d)
    requires !ActiveOn(tasks, day - k)
    ensures Streak(tasks, day) == k
    decreases k
  {
    if k > 0 {
      assert ActiveOn(tasks, day);
      StreakIsWindow(tasks, day - 1, k - 1);
    }
  }

  /** Days `day - k + 1` to `day` were all active and day `day - k` was not. */
  predicate ActiveWindow(tasks: seq<Task>, day: int, k: nat)
  {
    (forall d :: day - k < d <= day ==> ActiveOn(tasks, d)) && !ActiveOn(tasks, day - k)
  }

  /** The streak is exactly the length of the active window ending at `day`, and no longer than the task list. */
  lemma StreakCharacterized(tasks: seq<Task>, day: int, k: nat)
    ensures Streak(tasks, day) == k <==> ActiveWindow(tasks, day, k)
    ensures Streak(tasks, day) <= |tasks|
  {
    StreakWindow(tasks, day);
    if ActiveWindow(tasks, day, k) {
      StreakIsWindow(tasks, day, k);
    }
  }

  // ---------------------------------------------------------------- productivity score

  /** 0.6 × completion rate plus 0.4 × the priority mix (0.5 alta, 0.3 media, 0.2 baja), × 100. */
  function ProductivityScore(total: nat, completed: nat, alta: nat, media: nat, baja: nat): real
  {
    if total > 0 then
      var completionRate := completed as real / total as real;
      var priorityScore := (alta as real * 0.5 + media as real * 0.3 + baja as real * 0.2) / total as real;
      (completionRate * 0.6 + priorityScore * 0.4) * 100.0
    else 0.0
  }

  /** The weights multiplied out: 60, 20, 12 and 8 points per task. */
  lemma ScoreClosedForm(total: nat, completed: nat, alta: nat, media: nat, baja: nat)
    requires total > 0
    ensures ProductivityScore(total, completed, alta, media, baja)
            == (60 * completed + 20 * alta + 12 * media + 8 * baja) as real / total as real
  {
    var t := total as real;
    var cr := completed as real / t;
    var ps := (alta as real * 0.5 + media as real * 0.3 + baja as real * 0.2) / t;
    calc {
      (cr * 0.6 + ps * 0.4) * 100.0;
      (completed as real * 60.0 + (alta as real * 0.5 + media as real * 0.3 + baja as real * 0.2) * 40.0) / t;
      (60 * completed + 20 * alta + 12 * media + 8 * baja) as real / t;
    }
  }

  lemma ScoreRange(total: nat, completed: nat, alta: nat, media: nat, baja: nat)
    requires completed <= total && alta + media + baja <= total
    ensures 0.0 <= ProductivityScore(total, completed, alta, media, baja) <= 80.0
  {
    if total > 0 {
      ScoreClosedForm(total, completed, alta, media, baja);
      var points := 60 * completed + 20 * alta + 12 * media + 8 * baja;
      assert 0 <= points <= 80 * total;
      QuotientAtMost(points as real, total as real, 80.0);
    }
  }

  lemma QuotientAtMost(x: real, y: real, c: real)
    requires y > 0.0 && 0.0 <= x <= c * y
    ensures 0.0 <= x / y <= c
  {
    QuotientBetween(x, y, 0.0, c);
  }

  // ---------------------------------------------------------------- the record

  /** The statistics record of a user whose fetched tasks are `tasks`. */
  function StatisticsOf(tasks: seq<Task>, userId: int, now: int, today: int): UserStatistics
  {
    var total := |tasks|;
    var completed := Count(tasks, StatusField, Completada);
    var byPriority := PriorityBuckets(tasks);
    UserStatistics(
      userId, total, completed, total - completed,
      AverageHours(Durations(tasks)),
      byPriority, StatusBuckets(tasks),
      LastActivity(tasks, now),
      Streak(tasks, today),
      ProductivityScore(total, completed, byPriority[Alta], byPriority[Media], byPriority[Baja]))
  }

  /** The fields of the record, each the aggregation that defines it. */
  lemma StatisticsFields(tasks: seq<Task>, userId: int, now: int, today: int)
    ensures var s := StatisticsOf(tasks, userId, now, today);
      && s.totalTasks == |tasks|
      && s.completedTasks == Count(tasks, StatusField, Completada)
      && s.tasksByPriority == PriorityBuckets(tasks)
      && s.tasksByStatus == StatusBuckets(tasks)
      && s.averageCompletionTime == AverageHours(Durations(tasks))
      && s.productivityScore == ProductivityScore(|tasks|, Count(tasks, StatusField, Completada),
           Count(tasks, PriorityField, Alta), Count(tasks, PriorityField, Media), Count(tasks, PriorityField, Baja))
  {
    BucketsLookup(tasks, PriorityField, Alta, Media, Baja);
  }

  /** Completed and pending tasks add up to the total, and completed is the "completada" bucket. */
  lemma StatisticsCounts(tasks: seq<Task>, userId: int, now: int, today: int)
    ensures var s := StatisticsOf(tasks, userId, now, today);
      && s.userId == userId
      && s.totalTasks == |tasks|
      && s.completedTasks + s.pendingTasks == s.totalTasks
      && s.completedTasks == s.tasksByStatus[Completada]
  {
    StatisticsFields(tasks, userId, now, today);
    BucketsLookup(tasks, StatusField, Completada, EnProgreso, Pendiente);
  }

  /** All three keys of each bucket map are present, and each map's counts add up to at most the total. */
  lemma StatisticsBuckets(tasks: seq<Task>, userId: int, now: int, today: int)
    ensures var s := StatisticsOf(tasks, userId, now, today);
      && s.tasksByPriority.Keys == {Alta, Media, Baja}
      && s.tasksByStatus.Keys == {Completada, EnProgreso, Pendiente}
      && s.tasksByPriority[Alta] + s.tasksByPriority[Media] + s.tasksByPriority[Baja] <= s.totalTasks
      && s.tasksByStatus[Completada] + s.tasksByStatus[EnProgreso] + s.tasksByStatus[Pendiente] <= s.totalTasks
  {
    StatisticsFields(tasks, userId, now, today);
    BucketsLookup(tasks, PriorityField, Alta, Media, Baja);
    BucketsLookup(tasks, StatusField, Completada, EnProgreso, Pendiente);
    ThreeBucketsBounded(tasks, PriorityField, Alta, Media, Baja);
    ThreeBucketsBounded(tasks, StatusField, Completada, EnProgreso, Pendiente);
  }

  /** A user without tasks gets a well-formed zero record whose last activity is `now`. */
  lemma NoTasksStatistics(userId: int, now: int, today: int)
    ensures var s := StatisticsOf([], userId, now, today);
      && s.totalTasks == 0 && s.completedTasks == 0 && s.pendingTasks == 0
      && s.averageCompletionTime == 0.0
      && s.tasksByPriority == map[Alta := 0, Media := 0, Baja := 0]
      && s.tasksByStatus == map[Completada := 0, EnProgreso := 0, Pendiente := 0]
      && s.lastActivity == now
      && s.streakDays == 0
      && s.productivityScore == 0.0
  {
    assert !ActiveOn([], today);
  }

  lemma DivNonneg(a: real, b: real)
    requires a >= 0.0 && b > 0.0
    ensures a / b >= 0.0
  {
  }

  lemma QuotientBetween(x: real, n: real, lo: real, hi: real)
    requires n > 0.0 && lo * n <= x <= hi * n
    ensures lo <= x / n <= hi
  {
    assert x / n - lo == (x - lo * n) / n;
    DivNonneg(x - lo * n, n);
    assert hi - x / n == (hi * n - x) / n;
    DivNonneg(hi * n - x, n);
  }

  lemma IntProductAsReal(a: int, b: int)
    ensures (a * b) as real == a as real * b as real
  {
  }

  lemma ScaledAsReal(lo: int, sum: int, hi: int, n: int)
    requires n * lo <= sum <= n * hi
    ensures lo as real * n as real <= sum as real <= hi as real * n as real
  {
    IntProductAsReal(n, lo);
    IntProductAsReal(n, hi);
  }

  /** A mean of values between `lo` and `hi` seconds lies between `lo` and `hi` hours over 3600. */
  lemma AverageBetween(d: seq<int>, lo: int, hi: int)
    requires |d| > 0
    requires forall k :: 0 <= k < |d| ==> lo <= d[k] <= hi
    ensures lo as real / SecondsPerHour <= AverageHours(d) <= hi as real / SecondsPerHour
  {
    var n := |d| as real;
    var total := Sum(d) as real;
    SumBetween(d, lo, hi);
    ScaledAsReal(lo, Sum(d), hi, |d|);
    QuotientBetween(total, n, lo as real, hi as real);
    var mean := total / n;
    assert AverageHours(d) == mean / SecondsPerHour;
    HoursMonotone(lo as real, mean, hi as real);
  }

  lemma HoursMonotone(lo: real, x: real, hi: real)
    requires lo <= x <= hi
    ensures lo / SecondsPerHour <= x / SecondsPerHour <= hi / SecondsPerHour
  {
  }

  /**
   * The mean completion time: 0.0 when no completed task carries `completed_at`; otherwise, when
   * every such task took between `lo` and `hi` seconds, between `lo` and `hi` hours over 3600.
   */
  lemma StatisticsAverage(tasks: seq<Task>, userId: int, now: int, today: int, lo: int, hi: int)
    requires forall i :: 0 <= i < |tasks| && Timed(tasks[i]) ==> lo <= Duration(tasks[i]) <= hi
    ensures var avg := StatisticsOf(tasks, userId, now, today).averageCompletionTime;
      && ((forall i :: 0 <= i < |tasks| ==> !Timed(tasks[i])) ==> avg == 0.0)
      && ((exists i :: 0 <= i < |tasks| && Timed(tasks[i])) ==>
            lo as real / SecondsPerHour <= avg <= hi as real / SecondsPerHour)
  {
    var d := Durations(tasks);
    MeanField(tasks, userId, now, today);
    if |d| > 0 {
      DurationsBetween(tasks, lo, hi);
      AverageBetween(d, lo, hi);
    }
  }

  lemma MeanField(tasks: seq<Task>, userId: int, now: int, today: int)
    ensures StatisticsOf(tasks, userId, now, today).averageCompletionTime == AverageHours(Durations(tasks))
  {
    StatisticsFields(tasks, userId, now, today);
  }

  /** Bounds on every timed task's duration bound every entry of `Durations`. */
  lemma DurationsBetween(tasks: seq<Task>, lo: int, hi: int)
    requires forall i :: 0 <= i < |tasks| && Timed(tasks[i]) ==> lo <= Duration(tasks[i]) <= hi
    ensures forall k :: 0 <= k < |Durations(tasks)| ==> lo <= Durations(tasks)[k] <= hi
  {
    var d := Durations(tasks);
    forall k | 0 <= k < |d| ensures lo <= d[k] <= hi {
      var i :| 0 <= i < |tasks| && Timed(tasks[i]) && d[k] == Duration(tasks[i]);
    }
  }

  /**
   * The mean is `total_time / len / 3600` over the completed tasks that carry `completed_at`,
   * one duration per such task (`DurationsAppend`, `DurationsOfOne`), and 0.0 when there is none.
   */
  lemma StatisticsMean(tasks: seq<Task>, userId: int, now: int, today: int)
    ensures var avg := StatisticsOf(tasks, userId, now, today).averageCompletionTime;
      var d := Durations(tasks);
      && (|d| == 0 <==> forall i :: 0 <= i < |tasks| ==> !Timed(tasks[i]))
      && (|d| == 0 ==> avg == 0.0)
      && (|d| > 0 ==> avg == Sum(d) as real / |d| as real / SecondsPerHour)
  {
    var avg := StatisticsOf(tasks, userId, now, today).averageCompletionTime;
    assert avg == AverageHours(Durations(tasks));
  }

  /** `total / len / 3600`, times 3600 and `len`, is the total. */
  lemma HoursTimesCount(d: seq<int>, avg: real)
    requires |d| > 0 && avg == AverageHours(d)
    ensures avg * SecondsPerHour * |d| as real == Sum(d) as real
  {
    var n, total := |d| as real, Sum(d) as real;
    assert avg == total / n / SecondsPerHour;
    assert total / n / SecondsPerHour * SecondsPerHour == total / n;
    assert total / n * n == total;
  }

  /** Two completed tasks that took one and two hours make a mean of 1.5 hours. */
  lemma MeanExample(t1: Task, t2: Task, userId: int, now: int, today: int)
    requires Timed(t1) && Duration(t1) == 3600
    requires Timed(t2) && Duration(t2) == 7200
    ensures StatisticsOf([t1, t2], userId, now, today).averageCompletionTime == 1.5
  {
    DurationsAppend([t1], [t2]);
    DurationsOfOne(t1);
    DurationsOfOne(t2);
    assert [t1] + [t2] == [t1, t2];
    var d := Durations([t1, t2]);
    assert d == [3600, 7200];
    assert Sum([7200]) == 7200 by {
      assert [7200][1..] == [];
    }
    assert Sum(d) == 10800 by {
      assert d[1..] == [7200];
    }
    StatisticsFields([t1, t2], userId, now, today);
    ExampleMean(d);
  }

  lemma ExampleMean(d: seq<int>)
    requires |d| == 2 && Sum(d) == 10800
    ensures AverageHours(d) == 1.5
  {
  }

  /**
   * The streak is `k` exactly when each of the days `today`, ..., `today - k + 1` saw a task
   * updated and `today - k` did not; it never exceeds the number of tasks.
   */
  lemma StatisticsStreak(tasks: seq<Task>, userId: int, now: int, today: int, k: nat)
    ensures var s := StatisticsOf(tasks, userId, now, today);
      && (s.streakDays == k <==> ActiveWindow(tasks, today, k))
      && s.streakDays <= s.totalTasks
  {
    var s := StatisticsOf(tasks, userId, now, today);
    assert s.streakDays == Streak(tasks, today) && s.totalTasks == |tasks|;
    StreakCharacterized(tasks, today, k);
  }

  /** The score is 0.0 without tasks and never leaves [0, 80], inside the documented 0 to 100. */
  lemma StatisticsScore(tasks: seq<Task>, userId: int, now: int, today: int)
    ensures var s := StatisticsOf(tasks, userId, now, today);
      && (|tasks| == 0 ==> s.productivityScore == 0.0)
      && 0.0 <= s.productivityScore <= 80.0
  {
    StatisticsFields(tasks, userId, now, today);
    var c := Count(tasks, StatusField, Completada);
    var a, m, b := Count(tasks, PriorityField, Alta), Count(tasks, PriorityField, Media), Count(tasks, PriorityField, Baja);
    assert c <= |tasks| && a + m + b <= |tasks| by {
      ThreeBucketsBounded(tasks, PriorityField, Alta, Media, Baja);
    }
    ScoreRange(|tasks|, c, a, m, b);
  }

  /** The labels that `TaskCreate` stores. */
  const ApiStatuses: set<string> := {Pending.Label(), InProgress.Label(), Completed.Label()}
  const ApiPriorities: set<string> := {Low.Label(), Medium.Label(), High.Label()}

  predicate StoredThroughApi(t: Task)
  {
    t.status in ApiStatuses && t.priority in ApiPriorities
  }

  lemma NoMatches(tasks: seq<Task>, f: Field, key: string, stored: set<string>)
    requires forall i :: 0 <= i < |tasks| ==> LabelOf(tasks[i], f) in stored
    requires key !in stored
    ensures Count(tasks, f, key) == 0
  {
  }

  /**
   * Tasks that carry the English enum labels match none of the Spanish labels the aggregator
   * counts: no task is completed, every bucket is 0 and the score is 0.0.
   */
  lemma ApiLabelledTasksCountNothing(tasks: seq<Task>, userId: int, now: int, today: int)
    requires forall i :: 0 <= i < |tasks| ==> StoredThroughApi(tasks[i])
    ensures var s := StatisticsOf(tasks, userId, now, today);
      && s.completedTasks == 0 && s.pendingTasks == s.totalTasks
      && s.tasksByPriority == map[Alta := 0, Media := 0, Baja := 0]
      && s.tasksByStatus == map[Completada := 0, EnProgreso := 0, Pendiente := 0]
      && s.averageCompletionTime == 0.0
      && s.productivityScore == 0.0
  {
    assert Completada !in ApiStatuses && EnProgreso !in ApiStatuses && Pendiente !in ApiStatuses;
    assert Alta !in ApiPriorities && Media !in ApiPriorities && Baja !in ApiPriorities;
    NoMatches(tasks, StatusField, Completada, ApiStatuses);
    NoMatches(tasks, StatusField, EnProgreso, ApiStatuses);
    NoMatches(tasks, StatusField, Pendiente, ApiStatuses);
    NoMatches(tasks, PriorityField, Alta, ApiPriorities);
    NoMatches(tasks, PriorityField, Media, ApiPriorities);
    NoMatches(tasks, PriorityField, Baja, ApiPriorities);
    StatisticsFields(tasks, userId, now, today);
    assert |Durations(tasks)| == 0;
    NothingScoresZero(|tasks|);
  }

  lemma NothingScoresZero(total: nat)
    ensures ProductivityScore(total, 0, 0, 0, 0) == 0.0
  {
  }

  /** One completed "alta" task and one pending "baja" task: two tasks, one completed, score 44. */
  lemma WorkedExample(t1: Task, t2: Task, userId: int, now: int, today: int)
    requires t1.status == Completada && t1.priority == Alta
    requires t2.status == Pendiente && t2.priority == Baja
    ensures var s := StatisticsOf([t1, t2], userId, now, today);
      && s.totalTasks == 2 && s.completedTasks == 1 && s.pendingTasks == 1
      && s.tasksByPriority == map[Alta := 1, Media := 0, Baja := 1]
      && s.tasksByStatus == map[Completada := 1, EnProgreso := 0, Pendiente := 1]
      && s.productivityScore == 44.0
  {
    var ts := [t1, t2];
    StatisticsFields(ts, userId, now, today);
    assert ts[1..] == [t2] && ts[1..][1..] == [];
    assert Count(ts, StatusField, Completada) == 1;
    assert Count(ts, StatusField, EnProgreso) == 0;
    assert Count(ts, StatusField, Pendiente) == 1;
    assert Count(ts, PriorityField, Alta) == 1;
    assert Count(ts, PriorityField, Media) == 0;
    assert Count(ts, PriorityField, Baja) == 1;
    ExampleScore();
  }

  lemma ExampleScore()
    ensures ProductivityScore(2, 1, 1, 0, 1) == 44.0
  {
  }

  // ---------------------------------------------------------------- the user id

  /** A hexadecimal digit, in either case, as `bytes.fromhex` reads it. */
  predicate IsHexDigit(c: char)
  {
    '0' <= c <= '9' || 'a' <= c <= 'f' || 'A' <= c <= 'F'
  }

  /** What `ObjectId(s)` accepts from a string: exactly 24 hexadecimal digits. */
  predicate IsObjectIdString(s: string)
  {
    |s| == 24 && forall k :: 0 <= k < |s| ==> IsHexDigit(s[k])
  }

  /** Decimal digits only: the strings Pydantic's lax mode turns into an `int`. */
  predicate AllDecimal(s: string)
  {
    forall k :: 0 <= k < |s| ==> '0' <= s[k] <= '9'
  }

  /** A `user_id` that passes both `ObjectId(user_id)` and the `user_id: int` field. */
  predicate AcceptedUserId(s: string)
  {
    IsObjectIdString(s) && AllDecimal(s)
  }

  const IntParsing := "Input should be a valid integer, unable to parse string as an integer"

  /**
   * `calculate_user_statistics(user_id)`: `ObjectId(user_id)` raises for a string that is not
   * 24 hex digits; otherwise the record is built, and `UserStatistics(user_id=user_id, ...)`
   * raises unless those digits are all decimal, in which case `user_id` becomes their value.
   */
  function UserStatisticsOutcome(store: seq<Task>, userId: string, now: int, today: int): (r: Outcome<UserStatistics>)
    ensures r.Returned? <==> AcceptedUserId(userId)
    ensures !IsObjectIdString(userId) ==> r == Raised(InvalidId(userId))
    ensures IsObjectIdString(userId) && !AllDecimal(userId) ==>
      r == Raised(ValidationError("UserStatistics", "user_id", IntParsing))
    ensures r.Returned? ==>
      r.value == StatisticsOf(UserTasks(store, userId), Text.DecimalValue(userId), now, today)
  {
    if !IsObjectIdString(userId) then Raised(InvalidId(userId))
    else if !AllDecimal(userId) then Raised(ValidationError("UserStatistics", "user_id", IntParsing))
    else Returned(StatisticsOf(UserTasks(store, userId), Text.DecimalValue(userId), now, today))
  }

  /** The decimal rendering of a number below `10^23`, such as `str(id)` of a numeric id, is never accepted. */
  lemma ShortDecimalRejected(id: int)
    requires id < Text.Pow10(23)
    ensures !IsObjectIdString(Text.IntToString(id))
  {
    var s := Text.IntToString(id);
    if id >= 0 {
      Text.NatToStringShort(id, 23);
    } else {
      assert !IsHexDigit(s[0]);
    }
  }

  /** `calculate_user_statistics`: reads the task collection and nothing else, changes nothing. */
  method CalculateUserStatistics(db: Db.Database, userId: string, now: int, today: int)
    returns (o: Outcome<UserStatistics>)
    ensures o == UserStatisticsOutcome(db.tasks, userId, now, today)
  {
    if !IsObjectIdString(userId) {
      return Raised(InvalidId(userId));
    }
    var tasks := UserTasks(db.tasks, userId);
    var total := |tasks|;
    var completed := Count(tasks, StatusField, Completada);
    var average := AverageHours(Durations(tasks));
    var byPriority := PriorityBuckets(tasks);
    var byStatus := StatusBuckets(tasks);
    var lastActivity := LastActivity(tasks, now);

    var streak: nat := 0;
    var current := today;
    while true
      invariant streak + Streak(tasks, current) == Streak(tasks, today)
      decreases UpdatedBy(tasks, current)
    {
      if !ActiveOn(tasks, current) {
        break;
      }
      ActiveShrinks(tasks, current);
      streak := streak + 1;
      current := current - 1;
    }

    var score := ProductivityScore(total, completed, byPriority[Alta], byPriority[Media], byPriority[Baja]);
    if !AllDecimal(userId) {
      return Raised(ValidationError("UserStatistics", "user_id", IntParsing));
    }
    var stats := UserStatistics(Text.DecimalValue(userId), total, completed, total - completed, average,
                                byPriority, byStatus, lastActivity, streak, score);
    assert stats == StatisticsOf(tasks, Text.DecimalValue(userId), now, today);
    return Returned(stats);
  }
}
