/**
 * What the calendar's answers mean for the instants of a session: which instants are in session, where buckets begin,
 * and that a bucket completes right after its last in-session instant, neither earlier nor later.
 */
module SessionBuckets {
  import opened Outcomes
  import opened SessionCalendar

  // ----- sessions

  predicate InCoverage(cal: Calendar, day: int) {
    cal.coverageStart <= day <= cal.coverageEnd
  }

  // A covered weekday that is not a closure; day 0 is a Monday.
  predicate Trades(cal: Calendar, day: int) {
    InCoverage(cal, day) && 0 <= day % 7 <= 4 && day !in cal.closures
  }

  predicate During(cal: Calendar, day: int, t: int) {
    cal.openAt(day) <= t < cal.closeAt(day)
  }

  // An instant is in session exactly when it lies between the open and the close of some trading day.
  lemma InSessionIff(cal: Calendar, t: int)
    requires cal.Valid()
    ensures cal.InSession(t) <==> exists day :: Trades(cal, day) && During(cal, day, t)
  {
    SessionIsTheDays(cal, t);
    if day :| Trades(cal, day) && During(cal, day, t) {
      cal.SessionOwnsInstant(day, t);
    }
  }

  lemma SessionIsTheDays(cal: Calendar, t: int)
    ensures var day := cal.tradeDate(t);
      && (cal.InSession(t) <==> Trades(cal, day) && During(cal, day, t))
      && (cal.InSession(t) ==>
           cal.SessionFor(t) == Success(Some(Session(day, cal.openAt(day), cal.closeAt(day)))))
      && (cal.SessionFor(t).Failure? <==> !InCoverage(cal, day))
  {
  }

  // The Monday of a day's week is the latest day divisible by seven.
  lemma WeekBeginsOnMonday(day: int)
    ensures WeekMonday(day) % 7 == 0 && WeekMonday(day) <= day < WeekMonday(day) + 7
  {
  }

  // ----- lengths

  // The length of an intraday bucket in milliseconds.
  predicate LastsFor(tf: Timeframe, length: int) {
    match tf
    case FiveMinutes => length == 5 * 60 * 1000
    case OneHour => length == 60 * 60 * 1000
    case FourHours => length == 4 * 60 * 60 * 1000
    case TwelveHours => length == 12 * 60 * 60 * 1000
    case _ => false
  }

  lemma {:induction false} MultipleBelow(x: int, m: int) returns (k: int)
    requires m > 0
    ensures FloorTo(x, m) == k * m && k * m <= x < k * m + m
  {
    k := x / m;
    assert x == k * m + x % m;
  }

  // An intraday bucket starts a whole number of its lengths after the open, less than one length before the instant;
  // any other starts at the open.
  lemma BucketsStartAtMultiples(cal: Calendar, t: int, tf: Timeframe, length: int) returns (k: int)
    requires cal.Valid() && cal.InSession(t)
    ensures cal.BucketStart(t, tf).Success?
    ensures var open, start := cal.openAt(cal.tradeDate(t)), cal.BucketStart(t, tf).value;
      && (LastsFor(tf, length) ==> start == open + k * length && start <= t < start + length && k >= 0)
      && (tf == OneDay || tf == OneWeek ==> start == open)
  {
    k := 0;
    if LastsFor(tf, length) {
      var open := cal.openAt(cal.tradeDate(t));
      k := MultipleBelow(t - open, length);
      if k < 0 {
        NegativeMultiple(k, length);
      }
    }
  }

  lemma NegativeMultiple(k: int, m: int)
    requires k < 0 && m > 0
    ensures k * m + m <= 0
  {
  }

  // ----- completion

  // Both instants are in session and in one bucket: of one start, or, for a week, of one Monday.
  predicate Together(cal: Calendar, tf: Timeframe, t: int, u: int) {
    cal.InSession(t) && cal.InSession(u)
    && if tf == OneWeek then cal.TradeWeekId(t) == cal.TradeWeekId(u)
       else cal.BucketStart(t, tf) == cal.BucketStart(u, tf)
  }

  // A week completes with its last trading day of Monday to Friday, and cannot be told when a day after that one is not
  // covered.
  lemma {:induction false} LastTradingDayCloses(cal: Calendar, monday: int, offset: nat) returns (day: int)
    requires cal.LastCloseOfWeek(monday, offset).Success?
    ensures monday <= day <= monday + offset && Trades(cal, day)
    ensures cal.LastCloseOfWeek(monday, offset).value == cal.closeAt(day)
    ensures forall d :: day < d <= monday + offset ==> InCoverage(cal, d) && !Trades(cal, d)
    decreases offset
  {
    if Trades(cal, monday + offset) {
      day := monday + offset;
    } else {
      day := LastTradingDayCloses(cal, monday, offset - 1);
    }
  }

  ghost predicate ToldBy(cal: Calendar, monday: int, offset: nat, day: int) {
    && monday <= day <= monday + offset && Trades(cal, day)
    && forall d :: day < d <= monday + offset ==> InCoverage(cal, d)
  }

  lemma WeekIsToldIff(cal: Calendar, monday: int, offset: nat)
    ensures cal.LastCloseOfWeek(monday, offset).Success? <==> exists day :: ToldBy(cal, monday, offset, day)
  {
    if cal.LastCloseOfWeek(monday, offset).Success? {
      var day := LastTradingDayCloses(cal, monday, offset);
      assert ToldBy(cal, monday, offset, day);
    }
    if day :| ToldBy(cal, monday, offset, day) {
      TradingDayTells(cal, monday, offset, day);
    }
  }

  lemma {:induction false} TradingDayTells(cal: Calendar, monday: int, offset: nat, day: int)
    requires ToldBy(cal, monday, offset, day)
    ensures cal.LastCloseOfWeek(monday, offset).Success?
    decreases offset
  {
    assert InCoverage(cal, monday + offset);
    if day < monday + offset {
      TradingDayTells(cal, monday, offset - 1, day);
    }
  }

  // Unless the close cuts it short an intraday bucket completes one length after its start; a day completes at its
  // close.
  lemma CompletionIsNearest(cal: Calendar, t: int, tf: Timeframe, length: int)
    requires cal.Valid() && cal.InSession(t)
    ensures tf != OneWeek ==> cal.CompletedAt(t, tf).Success?
    ensures var start, close := cal.BucketStart(t, tf).value, cal.closeAt(cal.tradeDate(t));
      && (LastsFor(tf, length) ==>
           cal.CompletedAt(t, tf).value == if start + length <= close then start + length else close)
      && (tf == OneDay ==> cal.CompletedAt(t, tf).value == close)
  {
  }

  lemma {:induction false} SameMultiple(x: int, k: int, m: int)
    requires m > 0 && k * m <= x < k * m + m
    ensures FloorTo(x, m) == k * m
  {
    RemainderIsUnique(x, k, x - k * m, m);
  }

  // A bucket completes one millisecond after the last in-session instant in it: every instant of the bucket is before
  // its completion, and the one just before the completion is in the bucket.
  lemma CompletionIsTight(cal: Calendar, t: int, tf: Timeframe)
    requires cal.Valid() && cal.CompletedAt(t, tf).Success?
    ensures var end := cal.CompletedAt(t, tf).value;
      Together(cal, tf, t, end - 1) && forall u :: Together(cal, tf, t, u) ==> u < end
  {
    var end := cal.CompletedAt(t, tf).value;
    if tf == OneWeek {
      WeekEndsTight(cal, t);
    } else {
      SessionEndsTight(cal, t, tf);
    }
    forall u | Together(cal, tf, t, u)
      ensures u < end
    {
      TogetherCompletes(cal, t, u, tf);
      cal.CompletionFollowsInstant(u, tf);
    }
  }

  lemma TogetherCompletes(cal: Calendar, t: int, u: int, tf: Timeframe)
    requires cal.Valid() && Together(cal, tf, t, u)
    ensures cal.CompletedAt(t, tf) == cal.CompletedAt(u, tf)
  {
    if tf != OneWeek {
      cal.BucketStartIsRepresentative(t, tf);
      cal.BucketStartIsRepresentative(u, tf);
    }
  }

  lemma WeekEndsTight(cal: Calendar, t: int)
    requires cal.Valid() && cal.CompletedAt(t, OneWeek).Success?
    ensures Together(cal, OneWeek, t, cal.CompletedAt(t, OneWeek).value - 1)
  {
    var monday := WeekMonday(cal.tradeDate(t));
    var day := LastTradingDayCloses(cal, monday, 4);
    var last := cal.closeAt(day) - 1;
    assert cal.openAt(day) < cal.closeAt(day);
    cal.SessionOwnsInstant(day, last);
    assert cal.tradeDate(last) == day;
  }

  lemma SessionEndsTight(cal: Calendar, t: int, tf: Timeframe)
    requires cal.Valid() && tf != OneWeek && cal.CompletedAt(t, tf).Success?
    ensures Together(cal, tf, t, cal.CompletedAt(t, tf).value - 1)
  {
    var day := cal.tradeDate(t);
    var open, close, last := cal.openAt(day), cal.closeAt(day), cal.CompletedAt(t, tf).value - 1;
    if tf == OneDay {
      cal.SessionOwnsInstant(day, last);
    } else {
      var length := BucketMs(tf);
      var k := BucketsStartAtMultiples(cal, t, tf, length);
      assert open <= open + k * length by {
        NotNegative(k, length);
      }
      cal.SessionOwnsInstant(day, last);
      SameMultiple(last - open, k, length);
    }
  }

  lemma NotNegative(k: int, m: int)
    requires k >= 0 && m > 0
    ensures k * m >= 0
  {
  }
}
