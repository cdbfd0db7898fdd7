/** Whole periods under the spread plan: heavy days are kept in reserve, and the
    allowance is used up. */
module DailyRuns {
  import opened DailyPlan
  import opened Options
  import opened Collections

  datatype HeavyError = Overbooked | NothingForTheRest

  // validate_heavy
  ghost function ValidateHeavy(s: Settings, b: Basis, today: int, end: Option<int>): Option<HeavyError> {
    var heavy := FutureHeavy(s.heavy, today, end);
    var left := Max0(b.allowance - b.before - b.today);
    if Sum(heavy) > left + EPS then Some(Overbooked)
    else if s.mode == Spread && end.Some? && DaysLeft(today, end) - |heavy| <= 0 && Sum(heavy) < left - EPS
    then Some(NothingForTheRest)
    else None
  }

  /** A person's spread period: plan, allowance and first day of the next period. */
  datatype Period = Period(settings: Settings, allowance: real, end: int) {
    predicate Spreads() {
      settings.mode == Spread && settings.carry == Redistribute
    }

    function Future(today: int): map<int, real> {
      FutureHeavy(settings.heavy, today, Some(end))
    }

    /** The cap computed on `today` when `before` was used on earlier days and
        `at` so far today. */
    ghost function Cap(before: real, at: real, today: int): real {
      ExactCap(settings, Basis(allowance, before, at), today, Some(end), 0.0)
    }
  }

  ghost function Total(before: real, uses: seq<real>): real
    decreases |uses|
  {
    if uses == [] then before else Total(before + uses[0], uses[1..])
  }

  /** Each day uses at most its cap; later caps are computed at midnight. */
  ghost predicate Follows(p: Period, before: real, at: real, today: int, uses: seq<real>)
    decreases |uses|
  {
    uses != [] ==>
      && today < p.end
      && at <= uses[0] <= p.Cap(before, at, today)
      && Follows(p, before + uses[0], 0.0, today + 1, uses[1..])
  }

  /** Each day uses its whole cap. */
  ghost predicate FollowsFully(p: Period, before: real, at: real, today: int, uses: seq<real>)
    decreases |uses|
  {
    uses != [] ==>
      && today < p.end
      && uses[0] == p.Cap(before, at, today)
      && FollowsFully(p, before + uses[0], 0.0, today + 1, uses[1..])
  }

  function Left(p: Period, before: real, at: real): real {
    p.allowance - before - at
  }

  /** What is left covers every heavy day still to come, up to `slack`. */
  ghost predicate Reserved(p: Period, before: real, at: real, today: int, slack: real) {
    at >= 0.0 && Left(p, before, at) >= 0.0 && Sum(p.Future(today)) <= Left(p, before, at) + slack
  }

  /** ... and when only heavy days remain, nothing more than them is left. */
  ghost predicate Balanced(p: Period, before: real, at: real, today: int, slack: real) {
    && Reserved(p, before, at, today, slack)
    && (|p.Future(today)| == p.end - today ==> Left(p, before, at) <= Sum(p.Future(today)) + slack)
  }

  // ---- The calendar of heavy days ------------------------------------------------------

  lemma {:induction false} FewInRange(days: set<int>, lo: int, hi: int)
    requires lo <= hi && forall d <- days :: lo <= d < hi
    ensures |days| <= hi - lo
    decreases hi - lo
  {
    if lo == hi {
      assert forall d: int :: d !in days;
      assert (forall d: int :: d !in days) ==> days == {};
    } else {
      FewInRange(days - {lo}, lo + 1, hi);
      assert |days| <= |days - {lo}| + 1;
    }
  }

  lemma FutureNext(p: Period, today: int)
    requires today < p.end
    ensures p.Future(today + 1) == p.Future(today) - {today}
    ensures today in p.Future(today) ==>
              && Sum(p.Future(today)) == p.Future(today)[today] + Sum(p.Future(today + 1))
              && |p.Future(today)| == |p.Future(today + 1)| + 1
              && p.Future(today)[today] > 0.0
    ensures today !in p.Future(today) ==>
              p.Future(today + 1) == p.Future(today) && |p.Future(today)| <= p.end - today - 1
    ensures Sum(p.Future(today)) >= 0.0
  {
    var f := p.Future(today);
    assert p.Future(today + 1) == f - {today};
    FutureIsPositive(p.settings.heavy, today, Some(p.end));
    SumOfPositive(f);
    if today in f {
      SumRemove(f, today);
      SmallerMap(f, today);
    } else {
      assert f - {today} == f;
      assert |f| == |f.Keys|;
      FewInRange(f.Keys, today + 1, p.end);
    }
  }

  // ---- One day -----------------------------------------------------------------------------

  lemma CapOfHeavyDay(p: Period, before: real, at: real, today: int, slack: real)
    requires p.Spreads() && today in p.Future(today) && today < p.end
    requires slack >= 0.0 && Reserved(p, before, at, today, slack)
    ensures var h := p.settings.heavy[today];
            && at + h - slack <= p.Cap(before, at, today) <= at + h
            && p.Cap(before, at, today) == Min(at + h, p.allowance - before)
  {
    FutureNext(p, today);
    FutureIsPositive(p.settings.heavy, today + 1, Some(p.end));
    SumOfPositive(p.Future(today + 1));
  }

  lemma CapOfNormalDay(p: Period, before: real, at: real, today: int, slack: real)
    requires p.Spreads() && today !in p.Future(today) && today < p.end
    requires slack >= 0.0 && Reserved(p, before, at, today, slack)
    ensures var free := Max0(Left(p, before, at) - Sum(p.Future(today)));
            var n := p.end - today - |p.Future(today)|;
            n >= 1 && p.Cap(before, at, today) == at + free / (n as real)
            && 0.0 <= free / (n as real) <= free <= Left(p, before, at)
  {
    FutureNext(p, today);
    var free := Max0(Left(p, before, at) - Sum(p.Future(today)));
    var n := p.end - today - |p.Future(today)|;
    DivMonotone(0.0, free, n);
    Divided(free, n);
    assert DaysLeft(today, Some(p.end)) == p.end - today;
    assert LeftNow(Basis(p.allowance, before, at)) == Left(p, before, at);
  }

  lemma Divided(x: real, n: int)
    requires x >= 0.0 && n >= 1
    ensures x / (n as real) <= x
  {
    var r := n as real;
    var q := x / r;
    assert q * r == x;
    DivMonotone(0.0, x, n);
    assert q * r >= q * 1.0;
  }

  lemma DayKeepsReserve(p: Period, before: real, at: real, today: int, used: real, slack: real)
    requires p.Spreads() && today < p.end && slack >= 0.0
    requires Reserved(p, before, at, today, slack)
    requires at <= used <= p.Cap(before, at, today)
    ensures Reserved(p, before + used, 0.0, today + 1, slack)
  {
    FutureNext(p, today);
    if today in p.Future(today) {
      CapOfHeavyDay(p, before, at, today, slack);
    } else {
      CapOfNormalDay(p, before, at, today, slack);
    }
  }

  // ---- Every run --------------------------------------------------------------------------

  lemma {:induction false} RunKeepsReserve(p: Period, before: real, at: real, today: int, uses: seq<real>, slack: real)
    requires p.Spreads() && slack >= 0.0 && uses != []
    requires Reserved(p, before, at, today, slack) && Follows(p, before, at, today, uses)
    ensures Reserved(p, Total(before, uses), 0.0, today + |uses|, slack)
    decreases |uses|
  {
    DayKeepsReserve(p, before, at, today, uses[0], slack);
    if |uses| > 1 {
      RunKeepsReserve(p, before + uses[0], 0.0, today + 1, uses[1..], slack);
    } else {
      assert uses[1..] == [];
    }
  }

  lemma AcceptedIsReserved(p: Period, before: real, at: real, today: int)
    requires at >= 0.0 && before + at <= p.allowance
    requires ValidateHeavy(p.settings, Basis(p.allowance, before, at), today, Some(p.end)) == None
    ensures Reserved(p, before, at, today, EPS)
    ensures p.Spreads() && today < p.end ==> Balanced(p, before, at, today, EPS)
  {
  }

  /** Heavy days accepted by validate_heavy stay paid for: after any run of days
      within their caps (none of them, for today) the next day, if it is heavy, gets
      what was asked for on top of what it has used already.
      The only shortfall possible is the validator's own tolerance, and there is
      none when the heavy days fitted without it. */
  lemma HeavyDaysAreHonoured(p: Period, before: real, at: real, today: int, uses: seq<real>)
    requires p.Spreads() && at >= 0.0 && before + at <= p.allowance
    requires ValidateHeavy(p.settings, Basis(p.allowance, before, at), today, Some(p.end)) == None
    requires Follows(p, before, at, today, uses)
    ensures var day := today + |uses|;
            var already := if uses == [] then at else 0.0;
            var cap := p.Cap(Total(before, uses), already, day);
            day in p.Future(day) ==>
              && p.settings.heavy[day] - EPS <= cap - already <= p.settings.heavy[day]
              && (Sum(p.Future(today)) <= Left(p, before, at) ==> cap - already == p.settings.heavy[day])
  {
    var day := today + |uses|;
    var already := if uses == [] then at else 0.0;
    AcceptedIsReserved(p, before, at, today);
    var exact := Sum(p.Future(today)) <= Left(p, before, at);
    if uses != [] {
      RunKeepsReserve(p, before, at, today, uses, EPS);
      if exact {
        RunKeepsReserve(p, before, at, today, uses, 0.0);
      }
    }
    if day in p.Future(day) {
      CapOfHeavyDay(p, Total(before, uses), already, day, EPS);
      if exact {
        CapOfHeavyDay(p, Total(before, uses), already, day, 0.0);
      }
    }
  }

  lemma DayKeepsBalance(p: Period, before: real, at: real, today: int, slack: real)
    requires p.Spreads() && today < p.end && slack >= 0.0
    requires Balanced(p, before, at, today, slack)
    ensures Balanced(p, before + p.Cap(before, at, today), 0.0, today + 1, slack)
  {
    FutureNext(p, today);
    FutureIsPositive(p.settings.heavy, today + 1, Some(p.end));
    SumOfPositive(p.Future(today + 1));
    if today in p.Future(today) {
      CapOfHeavyDay(p, before, at, today, slack);
    } else {
      CapOfNormalDay(p, before, at, today, slack);
      var n := p.end - today - |p.Future(today)|;
      if n == 1 {
        var free := Max0(Left(p, before, at) - Sum(p.Future(today)));
        assert free / (n as real) == free;
      }
    }
  }

  lemma {:induction false} FullRunSpendsAll(p: Period, before: real, at: real, today: int, uses: seq<real>, slack: real)
    requires p.Spreads() && slack >= 0.0
    requires Balanced(p, before, at, today, slack) && FollowsFully(p, before, at, today, uses)
    requires today + |uses| == p.end && (uses == [] ==> at == 0.0)
    ensures 0.0 <= p.allowance - Total(before, uses) <= slack
    decreases |uses|
  {
    if uses == [] {
      assert p.Future(today) == map[];
    } else {
      DayKeepsBalance(p, before, at, today, slack);
      FullRunSpendsAll(p, before + uses[0], 0.0, today + 1, uses[1..], slack);
    }
  }

  // ---- Exactly when nothing is left over ----------------------------------------------------

  lemma OverbookedDay(p: Period, before: real, at: real, today: int)
    requires p.Spreads() && today < p.end && at >= 0.0
    requires 0.0 <= Left(p, before, at) <= Sum(p.Future(today))
    ensures var after := before + p.Cap(before, at, today);
            0.0 <= Left(p, after, 0.0) <= Sum(p.Future(today + 1))
  {
    var slack := Sum(p.Future(today)) - Left(p, before, at);
    FutureNext(p, today);
    FutureIsPositive(p.settings.heavy, today + 1, Some(p.end));
    SumOfPositive(p.Future(today + 1));
    if today in p.Future(today) {
      CapOfHeavyDay(p, before, at, today, slack);
    } else {
      CapOfNormalDay(p, before, at, today, slack);
    }
  }

  /** Heavy days that ask for everything, or for more, leave nothing. */
  lemma {:induction false} OverbookedSpendsAll(p: Period, before: real, at: real, today: int, uses: seq<real>)
    requires p.Spreads() && at >= 0.0 && 0.0 <= Left(p, before, at) <= Sum(p.Future(today))
    requires FollowsFully(p, before, at, today, uses)
    requires today + |uses| == p.end && (uses == [] ==> at == 0.0)
    ensures Total(before, uses) == p.allowance
    decreases |uses|
  {
    if uses == [] {
      assert p.Future(today) == map[];
    } else {
      OverbookedDay(p, before, at, today);
      OverbookedSpendsAll(p, before + uses[0], 0.0, today + 1, uses[1..]);
    }
  }

  /** When every day is heavy, what they do not ask for is left over. */
  lemma {:induction false} AllHeavyLeavesTheRest(p: Period, before: real, at: real, today: int, uses: seq<real>)
    requires p.Spreads() && at >= 0.0 && Sum(p.Future(today)) <= Left(p, before, at)
    requires |p.Future(today)| == p.end - today && FollowsFully(p, before, at, today, uses)
    requires today + |uses| == p.end && (uses == [] ==> at == 0.0)
    ensures p.allowance - Total(before, uses) == Left(p, before, at) - Sum(p.Future(today))
    decreases |uses|
  {
    if uses == [] {
      assert p.Future(today) == map[];
    } else {
      FutureNext(p, today);
      CapOfHeavyDay(p, before, at, today, 0.0);
      AllHeavyLeavesTheRest(p, before + uses[0], 0.0, today + 1, uses[1..]);
    }
  }

  /** If every day to the end of the period uses its whole cap, the allowance is
      used up to the last bit, if and only if the days are not all heavy with
      gigabytes left over. No validation is needed for that. */
  lemma AllowanceIsUsedUp(p: Period, before: real, at: real, today: int, uses: seq<real>)
    requires p.Spreads() && at >= 0.0 && before + at <= p.allowance && uses != []
    requires FollowsFully(p, before, at, today, uses) && today + |uses| == p.end
    ensures Total(before, uses) == p.allowance <==>
            (|p.Future(today)| == p.end - today ==> Sum(p.Future(today)) >= Left(p, before, at))
  {
    FutureNext(p, today);
    if Sum(p.Future(today)) >= Left(p, before, at) {
      OverbookedSpendsAll(p, before, at, today, uses);
    } else if |p.Future(today)| == p.end - today {
      AllHeavyLeavesTheRest(p, before, at, today, uses);
    } else {
      FullRunSpendsAll(p, before, at, today, uses, 0.0);
    }
  }

  /** The validator refuses that one case, up to its tolerance. */
  lemma AcceptedIsUsedUp(p: Period, before: real, at: real, today: int, uses: seq<real>)
    requires p.Spreads() && at >= 0.0 && before + at <= p.allowance && uses != []
    requires ValidateHeavy(p.settings, Basis(p.allowance, before, at), today, Some(p.end)) == None
    requires FollowsFully(p, before, at, today, uses) && today + |uses| == p.end
    ensures p.allowance - EPS <= Total(before, uses) <= p.allowance
  {
    AcceptedIsReserved(p, before, at, today);
    FullRunSpendsAll(p, before, at, today, uses, EPS);
  }
}
