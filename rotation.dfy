/**
 * The rotation clock and the window filename: pure integer arithmetic over
 * seconds since the epoch (pg_time_t), with the local UTC offset an input.
 */
module RotationClock {

  const SecsPerMinute: int := 60
  const IntMax: int := 0x7fff_ffff

  /** Default of pgaudit.log_rotation_age: one day, in minutes. */
  const RotationAgeDefault: int := 24 * 60
  /** Upper bound of pgaudit.log_rotation_age, so that minutes * 60 fits in an int. */
  const RotationAgeMax: int := IntMax / SecsPerMinute

  /** The range pgaudit.log_rotation_age is registered with: minimum 0. */
  predicate RotationAgeAcceptedAsWritten(minutes: int) {
    0 <= minutes <= RotationAgeMax
  }

  /** The range the rotation arithmetic needs: at least one minute. */
  predicate RotationAgeAccepted(minutes: int) {
    1 <= minutes <= RotationAgeMax
  }

  /** The registered range lets through a rotation interval of zero seconds, the divisor of the clock. */
  lemma ZeroRotationAgeAcceptedAsWritten()
    ensures RotationAgeAcceptedAsWritten(0) && 0 * SecsPerMinute == 0
    ensures !RotationAgeAccepted(0)
  {
  }

  /** Every accepted age, the default among them, gives a positive interval that fits in a C int. */
  lemma AcceptedRotationAgeIsUsable(minutes: int)
    requires RotationAgeAccepted(minutes)
    ensures 0 < minutes * SecsPerMinute <= IntMax
    ensures RotationAgeAccepted(RotationAgeDefault)
  {
  }

  /** C's `%` on signed integers: the quotient truncates toward zero, so the remainder takes the dividend's sign. */
  function CRemainder(a: int, b: int): (r: int)
    requires b > 0
    ensures -b < r < b
    ensures a >= 0 ==> r == a % b
    ensures a < 0 ==> r <= 0
    ensures (a - r) % b == 0
  {
    if a >= 0 then
      DivisionUnique(a - a % b, b, a / b, 0);
      a % b
    else
      DivisionUnique(a + (-a) % b, b, -((-a) / b), 0);
      -((-a) % b)
  }

  /** Euclidean division has one quotient and one remainder. */
  lemma DivisionUnique(x: int, b: int, q: int, r: int)
    requires b > 0 && x == b * q + r && 0 <= r < b
    ensures x / b == q && x % b == r
  {
    var q', r' := x / b, x % b;
    if q' < q {
      MultiplyMonotone(b, q' + 1, q);
      assert false;
    }
    if q' > q {
      MultiplyMonotone(b, q + 1, q');
      assert false;
    }
  }

  /**
   * pgauditlogtofile_calculate_next_rotation_time: shift `now` into local time,
   * drop the remainder modulo the interval, add one interval, shift back.
   * Whatever the sign of local time, the result lies after `now` on a local
   * interval boundary; for local times from the epoch on it is at most one
   * interval ahead.
   */
  function NextRotationTime(now: int, interval: int, gmtoff: int): (next: int)
    requires interval > 0
    ensures next > now
    ensures (next + gmtoff) % interval == 0
    ensures now + gmtoff >= 0 ==> next <= now + interval
  {
    var local := now + gmtoff;
    var boundary := local - CRemainder(local, interval);
    DivisionUnique(boundary + interval, interval, boundary / interval + 1, 0);
    boundary + interval - gmtoff
  }

  /** From the epoch on, the next rotation time is the FIRST local boundary after `now`. */
  lemma NextRotationIsFirstBoundary(now: int, interval: int, gmtoff: int, t: int)
    requires interval > 0 && now + gmtoff >= 0
    requires t > now && (t + gmtoff) % interval == 0
    ensures NextRotationTime(now, interval, gmtoff) <= t
  {
    var local, target := now + gmtoff, t + gmtoff;
    var m, k := local / interval, target / interval;
    assert local == interval * m + local % interval;
    assert target == interval * k;
    if k <= m {
      assert interval * k <= interval * m by { MultiplyMonotone(interval, k, m); }
      assert false;
    }
    assert interval * k >= interval * (m + 1) by { MultiplyMonotone(interval, m + 1, k); }
  }

  lemma MultiplyMonotone(c: int, a: int, b: int)
    requires c > 0 && a <= b
    ensures c * a <= c * b
  {
    assert c * b - c * a == c * (b - a);
  }

  /** From the epoch on, the next rotation time depends only on which local window `now` falls in. */
  lemma SameWindowSameRotation(now1: int, now2: int, interval: int, gmtoff: int)
    requires interval > 0 && now1 + gmtoff >= 0 && now2 + gmtoff >= 0
    requires (now1 + gmtoff) / interval == (now2 + gmtoff) / interval
    ensures NextRotationTime(now1, interval, gmtoff) == NextRotationTime(now2, interval, gmtoff)
  {
    var l1, l2 := now1 + gmtoff, now2 + gmtoff;
    assert l1 - l1 % interval == interval * (l1 / interval);
    assert l2 - l2 % interval == interval * (l2 / interval);
  }

  /** Recomputing the schedule at a later instant never moves it back. */
  lemma NextRotationMonotone(now1: int, now2: int, interval: int, gmtoff: int)
    requires interval > 0 && now1 + gmtoff >= 0 && now1 <= now2
    ensures NextRotationTime(now1, interval, gmtoff) <= NextRotationTime(now2, interval, gmtoff)
  {
    NextRotationIsFirstBoundary(now1, interval, gmtoff, NextRotationTime(now2, interval, gmtoff));
  }

  /** Before the epoch, local time truncates toward zero: the rotation lands more than one interval ahead. */
  lemma BeforeEpochRotationOvershoots()
    ensures NextRotationTime(-5, 10, 0) == 10
  {
  }

  /** pgauditlogtofile_calculate_filename's window start: one rotation interval before the next rotation. */
  function WindowStart(nextRotation: int, minutes: int): (start: int)
    ensures start + minutes * SecsPerMinute == nextRotation
  {
    nextRotation - minutes * SecsPerMinute
  }

  /**
   * From the epoch on, the window the filename is rendered for is the one that
   * holds `now`, and it starts on a local interval boundary.
   */
  lemma WindowContainsNow(now: int, minutes: int, gmtoff: int)
    requires RotationAgeAccepted(minutes) && now + gmtoff >= 0
    ensures var interval := minutes * SecsPerMinute;
      var start := WindowStart(NextRotationTime(now, interval, gmtoff), minutes);
      start <= now < start + interval && (start + gmtoff) % interval == 0
      && start + gmtoff == interval * ((now + gmtoff) / interval)
  {
    var interval := minutes * SecsPerMinute;
    var local := now + gmtoff;
    assert local - local % interval == interval * (local / interval);
  }

  /** Hourly rotation at 10:15 (UTC): next rotation at 11:00, current file for the 10:00 window. */
  lemma HourlyRotationAtQuarterPast()
    ensures NextRotationTime(10 * 3600 + 15 * 60, 60 * SecsPerMinute, 0) == 11 * 3600
    ensures WindowStart(11 * 3600, 60) == 10 * 3600
  {
  }

  /**
   * The assign hook of the rotation age only requests a rotation and leaves
   * the schedule alone: an hourly schedule at 10:15, switched to 30 minutes,
   * names its forced rotation's file after 10:30, a window still to come.
   */
  lemma AgeChangeKeepsOldBoundary()
    ensures var next := NextRotationTime(10 * 3600 + 15 * 60, 60 * SecsPerMinute, 0);
      WindowStart(next, 30) == 10 * 3600 + 30 * 60 && WindowStart(next, 30) > 10 * 3600 + 15 * 60
  {
    HourlyRotationAtQuarterPast();
  }

  /**
   * pgauditlogtofile_calculate_filename: the directory, a slash, then the
   * filename pattern rendered at the window start (pg_strftime in the local
   * time zone, here the opaque `render`).
   */
  function AuditFilename(directory: string, pattern: string, windowStart: int, render: (string, int) -> string): (path: string)
    ensures |path| == |directory| + 1 + |render(pattern, windowStart)|
  {
    directory + "/" + render(pattern, windowStart)
  }

  /** A derived path splits back into its directory, the slash and the rendered pattern. */
  lemma AuditFilenameParts(directory: string, pattern: string, windowStart: int, render: (string, int) -> string)
    ensures var path := AuditFilename(directory, pattern, windowStart, render);
      path[..|directory|] == directory && path[|directory|] == '/'
      && path[|directory| + 1..] == render(pattern, windowStart)
  {
    var path := AuditFilename(directory, pattern, windowStart, render);
    assert path == directory + ("/" + render(pattern, windowStart));
  }

  /**
   * Two workers with the same configuration and time zone that compute their
   * schedules anywhere in the same local window derive the same filename.
   */
  lemma WorkersConvergeOnFilename(directory: string, pattern: string, render: (string, int) -> string,
                                  minutes: int, gmtoff: int, now1: int, now2: int)
    requires RotationAgeAccepted(minutes) && now1 + gmtoff >= 0 && now2 + gmtoff >= 0
    requires (now1 + gmtoff) / (minutes * SecsPerMinute) == (now2 + gmtoff) / (minutes * SecsPerMinute)
    ensures var interval := minutes * SecsPerMinute;
      AuditFilename(directory, pattern, WindowStart(NextRotationTime(now1, interval, gmtoff), minutes), render)
      == AuditFilename(directory, pattern, WindowStart(NextRotationTime(now2, interval, gmtoff), minutes), render)
  {
    SameWindowSameRotation(now1, now2, minutes * SecsPerMinute, gmtoff);
  }
}
