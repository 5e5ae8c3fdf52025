// Snapshot policy key and next-sync schedule, as the policy tests assert
// them: the 64-bit key that packs a policy's fields, and the next time a
// policy fires after a base time.

module SnapshotPolicy {
  import opened Wrappers

  // ------------------------------------------------------------------ key

  const TwoTo24: int := 0x100_0000
  const TwoTo32: int := 0x1_0000_0000
  const TwoTo56: int := 0x100_0000_0000_0000
  const TwoTo64: int := 0x1_0000_0000_0000_0000

  /** A snapshot policy's key fields: the weekday and time-point masks as
      stored, the retention in days (-1 keeps snapshots for ever) and
      whether the policy is active. */
  datatype KeyFields = KeyFields(repeatWeekdays: int, timePoints: int, retentionDays: int, activated: bool)

  /** `Key`: the weekday mask from bit 56 up, the time-point mask from bit
      24 up, and `(retentionDays + 1) * 2 + activated` below, all in
      unsigned 64-bit arithmetic. */
  function Key(p: KeyFields): (r: int)
    ensures 0 <= r < TwoTo64
    ensures r % 2 == (if p.activated then 1 else 0)
  {
    var act := if p.activated then 1 else 0;
    var half := p.repeatWeekdays * (TwoTo56 / 2) + p.timePoints * (TwoTo24 / 2) + (p.retentionDays + 1);
    WrapKeepsParity(half, act);
    (2 * half + act) % TwoTo64
  }

  /** Reducing modulo 2^64 keeps the low bit. */
  lemma WrapKeepsParity(half: int, act: int)
    requires 0 <= act < 2
    ensures ((2 * half + act) % TwoTo64) % 2 == act
  {
    var n := 2 * half + act;
    var q := n / TwoTo64;
    assert n % TwoTo64 == 2 * (half - q * (TwoTo64 / 2)) + act;
    DivMod(half - q * (TwoTo64 / 2), act, 2);
  }

  /** The fields a key packs, read back. */
  function DecodeKey(k: int): (r: KeyFields)
    requires 0 <= k < TwoTo64
    ensures 0 <= r.repeatWeekdays < 256 && 0 <= r.timePoints < TwoTo32
    ensures -1 <= r.retentionDays < TwoTo24 / 2 - 1
  {
    var low := k % TwoTo24;
    KeyFields(k / TwoTo56, (k / TwoTo24) % TwoTo32, low / 2 - 1, low % 2 == 1)
  }

  /** Fields within their bit ranges. */
  predicate InRange(p: KeyFields)
  {
    0 <= p.repeatWeekdays < 256 && 0 <= p.timePoints < TwoTo32
    && -1 <= p.retentionDays < TwoTo24 / 2 - 1
  }

  lemma MulAtLeast(x: int, c: int)
    requires x >= 1 && c > 0
    ensures x * c >= c
  {
    assert x * c == (x - 1) * c + c;
  }

  /** Quotient and remainder of `a * c + b` by `c` when `b` is a digit. */
  lemma DivMod(a: int, b: int, c: int)
    requires c > 0 && 0 <= b < c
    ensures (a * c + b) / c == a && (a * c + b) % c == b
  {
    var q := (a * c + b) / c;
    var r := (a * c + b) % c;
    assert (a - q) * c == r - b;
    if a - q >= 1 {
      MulAtLeast(a - q, c);
    } else if q - a >= 1 {
      MulAtLeast(q - a, c);
    }
  }

  /** The key of in-range fields, before any wrap-around. */
  function Packed(p: KeyFields): int
  {
    p.repeatWeekdays * TwoTo56 + p.timePoints * TwoTo24 + (p.retentionDays + 1) * 2
    + (if p.activated then 1 else 0)
  }

  lemma PackedInRange(p: KeyFields)
    requires InRange(p)
    ensures 0 <= Packed(p) < TwoTo64 && Key(p) == Packed(p)
  {
    var act := if p.activated then 1 else 0;
    var half := p.repeatWeekdays * (TwoTo56 / 2) + p.timePoints * (TwoTo24 / 2) + (p.retentionDays + 1);
    assert Packed(p) == 2 * half + act;
  }

  /** The three parts of a key: weekdays above bit 56, time points in bits
      24 to 55, the rest below. */
  lemma {:induction false} Unpack(wd: int, tp: int, low: int)
    requires 0 <= tp < TwoTo32 && 0 <= low < TwoTo24
    ensures (wd * TwoTo56 + tp * TwoTo24 + low) / TwoTo56 == wd
    ensures ((wd * TwoTo56 + tp * TwoTo24 + low) / TwoTo24) % TwoTo32 == tp
    ensures (wd * TwoTo56 + tp * TwoTo24 + low) % TwoTo24 == low
  {
    var k := wd * TwoTo56 + tp * TwoTo24 + low;
    assert k == (wd * TwoTo32 + tp) * TwoTo24 + low;
    DivMod(wd * TwoTo32 + tp, low, TwoTo24);
    DivMod(wd, tp, TwoTo32);
    assert k == wd * TwoTo56 + (tp * TwoTo24 + low);
    DivMod(wd, tp * TwoTo24 + low, TwoTo56);
  }

  /** Fields within their bit ranges are recovered from the key, so two
      such policies share a key exactly when their fields agree. */
  lemma {:induction false} DecodeKeyRoundTrip(p: KeyFields)
    requires InRange(p)
    ensures DecodeKey(Key(p)) == p
  {
    var act := if p.activated then 1 else 0;
    var low := (p.retentionDays + 1) * 2 + act;
    PackedInRange(p);
    Unpack(p.repeatWeekdays, p.timePoints, low);
    DivMod(p.retentionDays + 1, act, 2);
  }

  /** Keys of in-range policies differ whenever the policies do. */
  lemma KeyInjective(p: KeyFields, q: KeyFields)
    requires InRange(p) && InRange(q) && Key(p) == Key(q)
    ensures p == q
  {
    DecodeKeyRoundTrip(p);
    DecodeKeyRoundTrip(q);
  }

  /** The five key examples of the policy tests. */
  lemma KeyExamples()
    ensures Key(KeyFields(0, 0, 7, true)) == 15 + 2
    ensures Key(KeyFields(11, 0, 0, false)) == 11 * TwoTo56 + 2
    ensures Key(KeyFields(0, 234, 0, false)) == 234 * TwoTo24 + 2
    ensures Key(KeyFields(0, 0, -1, false)) == 0
    ensures Key(KeyFields(13, 123, 7, false)) == 936748724556660752
  {
  }

  // ------------------------------------------------------------- schedule

  /** A policy's schedule: the weekdays it runs on (1 is Monday, 7 is
      Sunday), the hours it runs at, and the retention in days. */
  datatype Schedule = Schedule(weekdays: set<int>, hours: set<int>, retentionDays: int)

  /** Times are whole hours counted from Monday 00:00; a week is 168 hours. */
  const Week: int := 168

  function Weekday(t: int): (r: int)
    ensures 1 <= r <= 7
  {
    (t / 24) % 7 + 1
  }

  function Hour(t: int): (r: int)
    ensures 0 <= r < 24
  {
    t % 24
  }

  /** The policy's own time points. */
  predicate Scheduled(s: Schedule, t: int)
  {
    Weekday(t) in s.weekdays && Hour(t) in s.hours
  }

  /** The times a sync is due: a scheduled point, or, with a retention
      set, the moment a snapshot taken at a scheduled point expires. */
  predicate Due(s: Schedule, t: int)
  {
    Scheduled(s, t) || (s.retentionDays > 0 && Scheduled(s, t - 24 * s.retentionDays))
  }

  /** The schedule selects at least one real (weekday, hour). */
  predicate Selects(s: Schedule)
  {
    exists d, h :: d in s.weekdays && h in s.hours && 1 <= d <= 7 && 0 <= h < 24
  }

  /** The first due time in `base + k .. base + Week`. */
  function SearchFrom(s: Schedule, base: int, k: int): (r: Option<int>)
    requires 1 <= k <= Week + 1
    ensures r.Some? ==> base + k <= r.value <= base + Week && Due(s, r.value)
    ensures r.Some? ==> forall t :: base + k <= t < r.value ==> !Due(s, t)
    ensures r.None? ==> forall t :: base + k <= t <= base + Week ==> !Due(s, t)
    decreases Week + 1 - k
  {
    if k == Week + 1 then None
    else if Due(s, base + k) then Some(base + k)
    else SearchFrom(s, base, k + 1)
  }

  /** `ComputeNextSyncTime`: the earliest due time strictly after `base`,
      within one week; none when the schedule selects nothing. */
  function NextSync(s: Schedule, base: int): (r: Option<int>)
    ensures r.Some? ==> base < r.value <= base + Week && Due(s, r.value)
    ensures r.Some? ==> forall t :: base < t < r.value ==> !Due(s, t)
    ensures r.None? ==> forall t :: base < t <= base + Week ==> !Due(s, t)
  {
    SearchFrom(s, base, 1)
  }

  /** The next sync is the due time that nothing due precedes. */
  lemma NextSyncIs(s: Schedule, base: int, t: int)
    requires base < t <= base + Week && Due(s, t)
    requires forall u :: base < u < t ==> !Due(s, u)
    ensures NextSync(s, base) == Some(t)
  {
  }

  /** Hours `u` of day `d`. */
  lemma Clock(u: int, d: int)
    requires 24 * d <= u < 24 * d + 24
    ensures u / 24 == d && Hour(u) == u - 24 * d
  {
  }

  /** Moving a week forward or back changes neither weekday nor hour. */
  lemma {:induction false} WeekPeriodic(t: int, m: int)
    ensures Weekday(t + Week * m) == Weekday(t) && Hour(t + Week * m) == Hour(t)
  {
    var d := t / 24;
    Clock(t, d);
    Clock(t + Week * m, d + 7 * m);
    assert (d + 7 * m) % 7 == d % 7 by {
      DivMod(d / 7 + m, d % 7, 7);
      assert d + 7 * m == (d / 7 + m) * 7 + d % 7;
    }
  }

  /** A time point of the week's first days, found again in any week. */
  lemma {:induction false} PointRecurs(s: Schedule, base: int, d: int, h: int)
    requires d in s.weekdays && h in s.hours && 1 <= d <= 7 && 0 <= h < 24
    ensures exists t :: base < t <= base + Week && Scheduled(s, t)
  {
    var t0 := (d - 1) * 24 + h;
    Clock(t0, d - 1);
    assert Weekday(t0) == d;
    var m := (base - t0) / Week + 1;
    var t := t0 + Week * m;
    WeekPeriodic(t0, m);
    assert Scheduled(s, t);
    assert base < t <= base + Week;
  }

  /** A schedule that selects something is due within every week. */
  lemma SelectsGivesNextSync(s: Schedule, base: int)
    requires Selects(s)
    ensures NextSync(s, base).Some?
  {
    var d, h :| d in s.weekdays && h in s.hours && 1 <= d <= 7 && 0 <= h < 24;
    PointRecurs(s, base, d, h);
    var t :| base < t <= base + Week && Scheduled(s, t);
    assert Due(s, t);
  }

  /** A due time needs a selected (weekday, hour). */
  lemma DueNeedsSelects(s: Schedule, t: int)
    requires Due(s, t)
    ensures Selects(s)
  {
    var u := if Scheduled(s, t) then t else t - 24 * s.retentionDays;
    assert Weekday(u) in s.weekdays && Hour(u) in s.hours;
  }

  /** There is a next sync exactly when the schedule selects something. */
  lemma NextSyncExistsIffSelects(s: Schedule, base: int)
    ensures NextSync(s, base).Some? <==> Selects(s)
  {
    if Selects(s) {
      SelectsGivesNextSync(s, base);
    }
    if NextSync(s, base).Some? {
      DueNeedsSelects(s, NextSync(s, base).value);
    }
  }

  // ------------------------------------------------------ the test cases

  /** Saturday 2020-10-31 00:00, counted from Monday 2020-10-26 00:00. */
  const Oct31: int := 5 * 24

  /** Tuesday at 04:00, seen from Saturday midnight, is next Tuesday. */
  lemma NextSyncTuesday()
    ensures NextSync(Schedule({2}, {4}, 0), Oct31) == Some(8 * 24 + 4)
  {
    var s := Schedule({2}, {4}, 0);
    Clock(8 * 24 + 4, 8);
    forall u | Oct31 < u < 8 * 24 + 4 ensures !Due(s, u) {
      Clock(u, u / 24);
    }
    NextSyncIs(s, Oct31, 8 * 24 + 4);
  }

  /** Friday and Sunday at 02:00 and 06:00, seen from Saturday midnight,
      is Sunday at 02:00. */
  lemma NextSyncFridaySunday()
    ensures NextSync(Schedule({5, 7}, {2, 6}, 0), Oct31) == Some(6 * 24 + 2)
  {
    var s := Schedule({5, 7}, {2, 6}, 0);
    Clock(6 * 24 + 2, 6);
    forall u | Oct31 < u < 6 * 24 + 2 ensures !Due(s, u) {
      Clock(u, u / 24);
    }
    NextSyncIs(s, Oct31, 6 * 24 + 2);
  }

  /** Saturday and Sunday at 02:00: from Saturday 00:00 or 01:00 the same
      day's point is next; from the point itself, Sunday's. */
  lemma NextSyncWeekend()
    ensures NextSync(Schedule({6, 7}, {2}, 0), Oct31) == Some(5 * 24 + 2)
    ensures NextSync(Schedule({6, 7}, {2}, 0), Oct31 + 1) == Some(5 * 24 + 2)
    ensures NextSync(Schedule({6, 7}, {2}, 0), Oct31 + 2) == Some(6 * 24 + 2)
  {
    var s := Schedule({6, 7}, {2}, 0);
    Clock(5 * 24 + 2, 5);
    Clock(6 * 24 + 2, 6);
    forall u | Oct31 < u < 5 * 24 + 2 ensures !Due(s, u) {
      Clock(u, 5);
    }
    NextSyncIs(s, Oct31, 5 * 24 + 2);
    NextSyncIs(s, Oct31 + 1, 5 * 24 + 2);
    forall u | Oct31 + 2 < u < 6 * 24 + 2 ensures !Due(s, u) {
      Clock(u, u / 24);
    }
    NextSyncIs(s, Oct31 + 2, 6 * 24 + 2);
  }

  /** Saturday at 02:00 and 04:00, seen from Saturday 05:00, is next
      Saturday at 02:00. */
  lemma NextSyncNextWeek()
    ensures NextSync(Schedule({6}, {2, 4}, 0), Oct31 + 5) == Some(12 * 24 + 2)
  {
    var s := Schedule({6}, {2, 4}, 0);
    Clock(12 * 24 + 2, 12);
    forall u | Oct31 + 5 < u < 12 * 24 + 2 ensures !Due(s, u) {
      Clock(u, u / 24);
    }
    NextSyncIs(s, Oct31 + 5, 12 * 24 + 2);
  }

  /** Every day at midnight, seen from Saturday 05:00, is Sunday midnight. */
  lemma NextSyncEveryMidnight()
    ensures NextSync(Schedule({1, 2, 3, 4, 5, 6, 7}, {0}, 0), Oct31 + 5) == Some(6 * 24)
  {
    var s := Schedule({1, 2, 3, 4, 5, 6, 7}, {0}, 0);
    Clock(6 * 24, 6);
    forall u | Oct31 + 5 < u < 6 * 24 ensures !Due(s, u) {
      Clock(u, 5);
    }
    NextSyncIs(s, Oct31 + 5, 6 * 24);
  }

  /** With a retention set, the expiry of an earlier snapshot can come
      before the next scheduled point: Friday at 04:00 kept two days
      expires on Sunday at 04:00. */
  lemma NextSyncRetentionFriday()
    ensures NextSync(Schedule({5}, {4}, 2), Oct31 + 4) == Some(6 * 24 + 4)
  {
    var s1 := Schedule({5}, {4}, 2);
    Clock(6 * 24 + 4 - 48, 4);
    forall u | Oct31 + 4 < u < 6 * 24 + 4 ensures !Due(s1, u) {
      Clock(u, u / 24);
      Clock(u - 48, u / 24 - 2);
    }
    NextSyncIs(s1, Oct31 + 4, 6 * 24 + 4);
  }

  /** Saturday at 04:00 kept eight days: last week's snapshot expires on
      Sunday at 04:00, before next Saturday. */
  lemma NextSyncRetentionSaturday()
    ensures NextSync(Schedule({6}, {4}, 8), Oct31 + 4) == Some(6 * 24 + 4)
  {
    var s2 := Schedule({6}, {4}, 8);
    Clock(6 * 24 + 4 - 192, -2);
    forall u | Oct31 + 4 < u < 6 * 24 + 4 ensures !Due(s2, u) {
      Clock(u, u / 24);
      Clock(u - 192, u / 24 - 8);
    }
    NextSyncIs(s2, Oct31 + 4, 6 * 24 + 4);
  }

  /** Monday and Saturday at 04:00 kept four days: Monday's point comes
      before any expiry. */
  lemma NextSyncRetentionMonday()
    ensures NextSync(Schedule({1, 6}, {4}, 4), Oct31 + 4) == Some(7 * 24 + 4)
  {
    var s3 := Schedule({1, 6}, {4}, 4);
    Clock(7 * 24 + 4, 7);
    forall u | Oct31 + 4 < u < 7 * 24 + 4 ensures !Due(s3, u) {
      Clock(u, u / 24);
      Clock(u - 96, u / 24 - 4);
    }
    NextSyncIs(s3, Oct31 + 4, 7 * 24 + 4);
  }
}
