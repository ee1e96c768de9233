/**
 * The CME session calendar. Instants are milliseconds; trade dates are consecutive day numbers with day 0 a
 * Monday. The time-zone database enters only through three functions: when the session of a trade date opens
 * (17:00 Chicago on the previous day), when it closes (16:00 or an early close), and the trade date an instant
 * belongs to. `Valid` is what wall-clock time guarantees about them.
 */
module SessionCalendar {
  import opened Outcomes

  datatype Timeframe = FiveMinutes | OneHour | FourHours | TwelveHours | OneDay | OneWeek

  datatype Session = Session(id: int, openAt: int, closeAt: int)

  datatype CalendarError =
    | NoCoverage(day: int)
    | OutsideSession
    | NoTradableSession(monday: int)

  function WeekMonday(day: int): int {
    day - day % 7
  }

  predicate Intraday(tf: Timeframe) {
    tf != OneDay && tf != OneWeek
  }

  function BucketMs(tf: Timeframe): int
    requires Intraday(tf)
  {
    match tf
    case FiveMinutes => 300_000
    case OneHour => 3_600_000
    case FourHours => 14_400_000
    case TwelveHours => 43_200_000
  }

  datatype Calendar = Calendar(
    coverageStart: int,
    coverageEnd: int,
    closures: set<int>,
    openAt: int -> int,
    closeAt: int -> int,
    tradeDate: int -> int)
  {
    // Sessions are ordered and disjoint, and 17:00 Chicago is where one trade date ends and the next begins.
    ghost predicate Valid() {
      && (forall d {:trigger closeAt(d)} :: openAt(d) < closeAt(d) <= openAt(d + 1))
      && (forall t {:trigger tradeDate(t)} :: openAt(tradeDate(t)) <= t < openAt(tradeDate(t) + 1))
    }

    function SessionForTradeDate(day: int): Result<Option<Session>, CalendarError> {
      if day < coverageStart || day > coverageEnd then Failure(NoCoverage(day))
      else if day % 7 == 6 || day % 7 == 5 || day in closures then Success(None)
      else Success(Some(Session(day, openAt(day), closeAt(day))))
    }

    function SessionFor(t: int): Result<Option<Session>, CalendarError> {
      var session :- SessionForTradeDate(tradeDate(t));
      if session.Some? && session.value.openAt <= t < session.value.closeAt then Success(session)
      else Success(None)
    }

    predicate InSession(t: int) {
      SessionFor(t).Success? && SessionFor(t).value.Some?
    }

    // The last tradable session of the week, looking back from `monday + offset`.
    function LastCloseOfWeek(monday: int, offset: nat): Result<int, CalendarError> {
      var candidate :- SessionForTradeDate(monday + offset);
      if candidate.Some? then Success(candidate.value.closeAt)
      else if offset == 0 then Failure(NoTradableSession(monday))
      else LastCloseOfWeek(monday, offset - 1)
    }

    function CompletedAt(t: int, tf: Timeframe): Result<int, CalendarError> {
      var found :- SessionFor(t);
      if found.None? then Failure(OutsideSession)
      else
        var session := found.value;
        match tf
        case OneDay => Success(session.closeAt)
        case OneWeek => LastCloseOfWeek(WeekMonday(session.id), 4)
        case _ =>
          var end := session.openAt + FloorTo(t - session.openAt, BucketMs(tf)) + BucketMs(tf);
          Success(if end <= session.closeAt then end else session.closeAt)
    }

    function BucketStart(t: int, tf: Timeframe): Result<int, CalendarError> {
      var found :- SessionFor(t);
      if found.None? then Failure(OutsideSession)
      else
        var session := found.value;
        if !Intraday(tf) then Success(session.openAt)
        else Success(session.openAt + FloorTo(t - session.openAt, BucketMs(tf)))
    }

    function TradeWeekId(t: int): Result<int, CalendarError> {
      var found :- SessionFor(t);
      if found.None? then Failure(OutsideSession) else Success(WeekMonday(found.value.id))
    }

    // ----- ordering of sessions and trade dates

    lemma {:induction false} OpensAreOrdered(a: int, b: int)
      requires Valid() && a < b
      ensures closeAt(a) <= openAt(b) && openAt(a + 1) <= openAt(b)
      decreases b - a
    {
      assert closeAt(a) <= openAt(a + 1);
      if a + 1 < b {
        OpensAreOrdered(a + 1, b);
        assert openAt(a + 1) < closeAt(a + 1);
      }
    }

    lemma TradeDateIsMonotone(t: int, u: int)
      requires Valid() && t <= u
      ensures tradeDate(t) <= tradeDate(u)
    {
      if tradeDate(u) < tradeDate(t) {
        OpensAreOrdered(tradeDate(u), tradeDate(t));
      }
    }

    // An instant inside a session belongs to that session's trade date and to no other.
    lemma SessionOwnsInstant(day: int, t: int)
      requires Valid() && openAt(day) <= t < closeAt(day)
      ensures tradeDate(t) == day
    {
      var d := tradeDate(t);
      assert closeAt(day) <= openAt(day + 1);
      assert openAt(d) < closeAt(d);
      assert openAt(day) < closeAt(day);
      if d < day {
        OpensAreOrdered(d, day);
      } else if day < d {
        OpensAreOrdered(day, d);
      }
    }

    // ----- week ends

    lemma {:induction false} LastCloseCoversWeek(monday: int, offset: nat, day: int)
      requires Valid() && LastCloseOfWeek(monday, offset).Success?
      requires monday <= day <= monday + offset
      requires SessionForTradeDate(day).Success? && SessionForTradeDate(day).value.Some?
      ensures closeAt(day) <= LastCloseOfWeek(monday, offset).value
      decreases offset
    {
      if SessionForTradeDate(monday + offset).value.Some? {
        if day < monday + offset {
          OpensAreOrdered(day, monday + offset);
          assert openAt(monday + offset) < closeAt(monday + offset);
        }
      } else {
        LastCloseCoversWeek(monday, offset - 1, day);
      }
    }

    lemma {:induction false} LastCloseIsInWeek(monday: int, offset: nat) returns (day: int)
      requires LastCloseOfWeek(monday, offset).Success?
      ensures monday <= day <= monday + offset
      ensures LastCloseOfWeek(monday, offset).value == closeAt(day)
      decreases offset
    {
      if SessionForTradeDate(monday + offset).value.Some? {
        day := monday + offset;
      } else {
        day := LastCloseIsInWeek(monday, offset - 1);
      }
    }

    // ----- buckets

    // A bar is over only after every instant in it: no instant sees its own bar complete.
    lemma CompletionFollowsInstant(t: int, tf: Timeframe)
      requires Valid() && CompletedAt(t, tf).Success?
      ensures t < CompletedAt(t, tf).value
    {
      var session := SessionFor(t).value.value;
      if tf == OneWeek {
        LastCloseCoversWeek(WeekMonday(session.id), 4, session.id);
      }
    }

    // The completion instant is monotone in time, within a session, across sessions and across weeks.
    lemma CompletedAtIsMonotone(t: int, u: int, tf: Timeframe)
      requires Valid() && t <= u
      requires CompletedAt(t, tf).Success? && CompletedAt(u, tf).Success?
      ensures CompletedAt(t, tf).value <= CompletedAt(u, tf).value
    {
      TradeDateIsMonotone(t, u);
      if tradeDate(t) < tradeDate(u) {
        CompletedBeforeLaterSession(t, u, tf);
      } else if Intraday(tf) {
        var session := SessionFor(t).value.value;
        FloorIsMonotone(t - session.openAt, u - session.openAt, BucketMs(tf));
      }
    }

    lemma CompletedBeforeLaterSession(t: int, u: int, tf: Timeframe)
      requires Valid() && tradeDate(t) < tradeDate(u)
      requires CompletedAt(t, tf).Success? && CompletedAt(u, tf).Success?
      ensures CompletedAt(t, tf).value <= CompletedAt(u, tf).value
    {
      if tf == OneWeek && WeekMonday(tradeDate(t)) == WeekMonday(tradeDate(u)) {
        SameWeekCompletesTogether(t, u);
      } else {
        var last := CompletionDay(t, tf);
        EarlierWeekIsEarlier(last, tradeDate(t), tradeDate(u));
        OpensAreOrdered(last, tradeDate(u));
        CompletionFollowsInstant(u, tf);
        InstantFollowsOpen(u, tf);
      }
    }

    lemma EarlierWeekIsEarlier(last: int, a: int, b: int)
      requires a < b
      ensures WeekMonday(last) == WeekMonday(a) && WeekMonday(a) != WeekMonday(b) ==> last < b
    {
    }

    lemma SameWeekCompletesTogether(t: int, u: int)
      requires CompletedAt(t, OneWeek).Success? && CompletedAt(u, OneWeek).Success?
      requires WeekMonday(tradeDate(t)) == WeekMonday(tradeDate(u))
      ensures CompletedAt(t, OneWeek) == CompletedAt(u, OneWeek)
    {
    }

    lemma InstantFollowsOpen(t: int, tf: Timeframe)
      requires CompletedAt(t, tf).Success?
      ensures openAt(tradeDate(t)) <= t < closeAt(tradeDate(t))
    {
    }

    // A bar completes no later than the close of a day of its own session, or of its own week.
    lemma CompletionDay(t: int, tf: Timeframe) returns (day: int)
      requires CompletedAt(t, tf).Success?
      ensures CompletedAt(t, tf).value <= closeAt(day)
      ensures tf != OneWeek ==> day == tradeDate(t)
      ensures tf == OneWeek ==> WeekMonday(day) == WeekMonday(tradeDate(t))
    {
      if tf == OneWeek {
        day := LastCloseIsInWeek(WeekMonday(tradeDate(t)), 4);
      } else {
        day := tradeDate(t);
      }
    }

    // The start of a bucket is an instant of the same session, in the same bucket, with the same completion.
    lemma BucketStartIsRepresentative(t: int, tf: Timeframe)
      requires Valid() && InSession(t)
      ensures var s := BucketStart(t, tf);
        && s.Success? && s.value <= t
        && SessionFor(s.value) == SessionFor(t)
        && BucketStart(s.value, tf) == s
        && CompletedAt(s.value, tf) == CompletedAt(t, tf)
    {
      var session := SessionFor(t).value.value;
      var s := BucketStart(t, tf).value;
      if Intraday(tf) {
        var m, x := BucketMs(tf), t - session.openAt;
        FloorIsIdempotent(x, m);
        FloorIsMonotone(0, x, m);
        RemainderIsUnique(0, 0, 0, m);
      }
      assert session.openAt <= s <= t;
      SessionOwnsInstant(session.id, s);
    }

    // Five minutes divide every longer bucket, so coarsening a bar's start loses nothing.
    lemma FiveMinuteStartsRefine(t: int, tf: Timeframe)
      requires Valid() && InSession(t)
      ensures BucketStart(t, FiveMinutes).Success?
      ensures var s := BucketStart(t, FiveMinutes).value;
        && SessionFor(s) == SessionFor(t)
        && BucketStart(s, tf) == BucketStart(t, tf)
        && TradeWeekId(s) == TradeWeekId(t)
    {
      BucketStartIsRepresentative(t, FiveMinutes);
      if Intraday(tf) {
        FiveMinutesDivide(t - openAt(tradeDate(t)), tf);
        SameSessionSameBucket(BucketStart(t, FiveMinutes).value, t, tf);
      }
    }

    lemma SameSessionSameBucket(s: int, t: int, tf: Timeframe)
      requires InSession(t) && SessionFor(s) == SessionFor(t) && Intraday(tf)
      requires var open := openAt(tradeDate(t));
        FloorTo(s - open, BucketMs(tf)) == FloorTo(t - open, BucketMs(tf))
      ensures BucketStart(s, tf) == BucketStart(t, tf)
    {
    }

    lemma BucketStartIsMonotone(t: int, u: int, tf: Timeframe)
      requires Valid() && t <= u && InSession(t) && InSession(u)
      ensures BucketStart(t, tf).Success? && BucketStart(u, tf).Success?
      ensures BucketStart(t, tf).value <= BucketStart(u, tf).value
    {
      TradeDateIsMonotone(t, u);
      if tradeDate(t) < tradeDate(u) {
        OpensAreOrdered(tradeDate(t), tradeDate(u));
        BucketStartWithinSession(t, tf);
        BucketStartWithinSession(u, tf);
      } else if Intraday(tf) {
        FloorIsMonotone(t - openAt(tradeDate(t)), u - openAt(tradeDate(t)), BucketMs(tf));
      }
    }

    lemma BucketStartWithinSession(t: int, tf: Timeframe)
      requires Valid() && InSession(t)
      ensures openAt(tradeDate(t)) <= BucketStart(t, tf).value <= t < closeAt(tradeDate(t))
    {
      if Intraday(tf) {
        var m := BucketMs(tf);
        FloorIsMonotone(0, t - openAt(tradeDate(t)), m);
        RemainderIsUnique(0, 0, 0, m);
      }
    }
  }

  // ----- rounding down to a multiple

  // The largest multiple of `m` not above `x`.
  function FloorTo(x: int, m: int): int
    requires m > 0
  {
    x - x % m
  }

  lemma FloorIsIdempotent(x: int, m: int)
    requires m > 0
    ensures FloorTo(FloorTo(x, m), m) == FloorTo(x, m)
  {
    var q := x / m;
    assert x == q * m + x % m;
    RemainderIsUnique(q * m, q, 0, m);
  }

  lemma FloorIsMonotone(x: int, y: int, m: int)
    requires m > 0 && x <= y
    ensures FloorTo(x, m) <= FloorTo(y, m)
  {
    var p, q := x / m, y / m;
    assert x == p * m + x % m && y == q * m + y % m;
    assert q < p ==> (q + 1) * m <= p * m;
    assert p <= q ==> p * m <= q * m;
  }

  lemma FloorOfFloor(x: int, m: int, f: int)
    requires m > 0 && f > 0
    ensures m * f > 0
    ensures FloorTo(FloorTo(x, m), m * f) == FloorTo(x, m * f)
  {
    var q, r := x / (m * f), x % (m * f);
    assert x == q * (m * f) + r;
    var p, s := r / m, r % m;
    assert r == p * m + s;
    assert q * (m * f) == (q * f) * m;
    assert (q * f + p) * m == (q * f) * m + p * m;
    RemainderIsUnique(x, q * f + p, s, m);
    assert FloorTo(x, m) == q * (m * f) + p * m;
    assert p < 0 ==> p * m + m <= 0;
    assert p * m < m * f;
    RemainderIsUnique(q * (m * f) + p * m, q, p * m, m * f);
  }

  lemma FiveMinutesDivide(x: int, tf: Timeframe)
    requires Intraday(tf)
    ensures FloorTo(FloorTo(x, BucketMs(FiveMinutes)), BucketMs(tf)) == FloorTo(x, BucketMs(tf))
  {
    FloorOfFloor(x, 300_000, BucketMs(tf) / 300_000);
  }

  lemma RemainderIsUnique(x: int, q: int, r: int, m: int)
    requires m > 0 && x == q * m + r && 0 <= r < m
    ensures x % m == r
  {
    var p, s := x / m, x % m;
    assert x == p * m + s && 0 <= s < m;
    Distribute(p, q, m);
    SmallMultipleIsZero(p - q, m);
  }

  lemma Distribute(p: int, q: int, m: int)
    ensures (p - q) * m == p * m - q * m
  {
  }

  lemma SmallMultipleIsZero(k: int, m: int)
    requires m > 0 && -m < k * m < m
    ensures k == 0
  {
  }
}
