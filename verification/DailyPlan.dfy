/** The daily planner: how fast a monthly allowance may be spent. Gigabytes are
    real numbers and days are ordinals. */
module DailyPlan {
  import opened Options
  import opened Collections

  datatype Mode = Fixed | Spread
  datatype Carry = NextDay | Redistribute

  /** `heavy` maps a day to the gigabytes asked for; texts that are not dates
      never get into it. */
  datatype Settings = Settings(mode: Mode, dailyGb: real, carry: Carry, heavy: map<int, real>)

  const EPS: real := 0.000000001

  function Max0(x: real): real { if x > 0.0 then x else 0.0 }
  function Min(x: real, y: real): real { if x < y then x else y }

  // days_left
  function DaysLeft(today: int, end: Option<int>): (n: int)
    ensures n >= 1
  {
    if end == None || end.value - today < 1 then 1 else end.value - today
  }

  // ---- Heavy days -------------------------------------------------------------------

  predicate IsFuture(heavy: map<int, real>, d: int, today: int, end: Option<int>) {
    d in heavy && today <= d && (end.Some? ==> d < end.value) && heavy[d] > 0.0
  }

  function FutureHeavy(heavy: map<int, real>, today: int, end: Option<int>): map<int, real> {
    map d | d in heavy && IsFuture(heavy, d, today, end) :: heavy[d]
  }

  method CollectFutureHeavy(heavy: map<int, real>, today: int, end: Option<int>) returns (out: map<int, real>)
    ensures out == FutureHeavy(heavy, today, end)
  {
    out := map[];
    var todo := heavy;
    while |todo| > 0
      invariant todo.Keys <= heavy.Keys
      invariant out == map d | d in heavy && d !in todo && IsFuture(heavy, d, today, end) :: heavy[d]
    {
      ghost var some: int := Pick(todo);
      assert some in todo;
      var d :| d in todo;
      SmallerMap(todo, d);
      todo := todo - {d};
      if d < today || (end.Some? && d >= end.value) {
        continue;
      }
      if heavy[d] > 0.0 {
        out := out[d := heavy[d]];
      }
    }
  }

  // sum(heavy.values())
  ghost function Sum(m: map<int, real>): real
    decreases |m|
  {
    if m == map[] then 0.0
    else
      var d := Pick(m);
      SmallerMap(m, d);
      m[d] + Sum(m - {d})
  }

  lemma {:induction false} SumRemove(m: map<int, real>, d: int)
    requires d in m
    ensures Sum(m) == m[d] + Sum(m - {d})
    decreases |m|
  {
    var e := Pick(m);
    if e != d {
      SmallerMap(m, e);
      SmallerMap(m, d);
      SumRemove(m - {e}, d);
      SumRemove(m - {d}, e);
      assert m - {e} - {d} == m - {d} - {e};
    }
  }

  predicate Positive(m: map<int, real>) {
    forall d <- m :: m[d] > 0.0
  }

  lemma {:induction false} SumOfPositive(m: map<int, real>)
    requires Positive(m)
    ensures Sum(m) >= 0.0
    ensures forall d <- m :: Sum(m) >= m[d]
    decreases |m|
  {
    if m != map[] {
      var e := Pick(m);
      SmallerMap(m, e);
      SumOfPositive(m - {e});
      forall d | d in m ensures Sum(m) >= m[d] {
        SumRemove(m, e);
        assert d != e ==> (m - {e})[d] == m[d];
      }
    }
  }

  // ---- plan_day -----------------------------------------------------------------------

  /** What is known when a cap is computed: the month's allowance, the usage
      before today, and today's usage at that moment. */
  datatype Basis = Basis(allowance: real, before: real, today: real)

  function LeftAtStart(b: Basis): real { Max0(b.allowance - b.before) }
  function LeftNow(b: Basis): real { Max0(LeftAtStart(b) - b.today) }

  function UsableBank(s: Settings, b: Basis, bank: real): real {
    if s.carry == NextDay then Max0(Min(bank, LeftNow(b))) else 0.0
  }

  ghost function Share(s: Settings, b: Basis, today: int, end: Option<int>, bank: real): real {
    var heavy := FutureHeavy(s.heavy, today, end);
    if today in heavy then heavy[today]
    else if s.mode == Fixed then Max0(s.dailyGb)
    else
      var normal := DaysLeft(today, end) - |heavy|;
      var pool := Max0(LeftNow(b) - UsableBank(s, b, bank) - Sum(heavy));
      if normal > 0 then pool / (normal as real) else 0.0
  }

  /** The cap before rounding. */
  ghost function ExactCap(s: Settings, b: Basis, today: int, end: Option<int>, bank: real): real {
    Max0(Min(b.today + Share(s, b, today, end, bank) + UsableBank(s, b, bank), LeftAtStart(b)))
  }

  /** The nearest integer, the even one on a tie. */
  function Nearest(x: real): int {
    var f := x.Floor;
    var rest := x - f as real;
    if rest < 0.5 || (rest == 0.5 && f % 2 == 0) then f else f + 1
  }

  // round(x, 4)
  function Round4(x: real): real {
    Nearest(x * 10000.0) as real / 10000.0
  }

  ghost function PlanDay(s: Settings, b: Basis, today: int, end: Option<int>, bank: real): real {
    Round4(ExactCap(s, b, today, end, bank))
  }

  lemma Round4Close(x: real)
    ensures x - 0.00005 <= Round4(x) <= x + 0.00005
    ensures x == 0.0 ==> Round4(x) == 0.0
    ensures x >= 0.0 ==> Round4(x) >= 0.0
  {
    var n := Nearest(x * 10000.0);
    assert x * 10000.0 - 0.5 <= n as real <= x * 10000.0 + 0.5;
  }

  // ---- Nobody overspends ----------------------------------------------------------------

  /** One day of a run: the plan and the moment the cap was computed, and what
      was used by midnight. Plans may change from day to day. */
  datatype Day = Day(settings: Settings, at: real, today: int, end: Option<int>, bank: real, used: real)

  ghost function UsedAfter(before: real, days: seq<Day>): real {
    if days == [] then before
    else UsedAfter(before, days[..|days| - 1]) + days[|days| - 1].used
  }

  ghost predicate WithinCaps(allowance: real, before: real, days: seq<Day>) {
    days != [] ==>
      var l := |days| - 1;
      var d := days[l];
      && WithinCaps(allowance, before, days[..l])
      && 0.0 <= d.used
      && d.used <= PlanDay(d.settings, Basis(allowance, UsedAfter(before, days[..l]), d.at), d.today, d.end, d.bank)
  }

  /** However many days there are and whatever plans they run under, usage within
      the caps passes the allowance by half a unit of the last decimal at most. */
  lemma {:induction false} NeverOverspent(allowance: real, before: real, days: seq<Day>)
    requires WithinCaps(allowance, before, days)
    ensures UsedAfter(before, days) <= before || UsedAfter(before, days) <= allowance + 0.00005
  {
    if days != [] {
      var l := |days| - 1;
      var d := days[l];
      NeverOverspent(allowance, before, days[..l]);
      var b := Basis(allowance, UsedAfter(before, days[..l]), d.at);
      Round4Close(ExactCap(d.settings, b, d.today, d.end, d.bank));
    }
  }

  // ---- Using more never earns more -------------------------------------------------------

  lemma DivMonotone(x: real, y: real, n: int)
    requires x <= y && n > 0
    ensures x / (n as real) <= y / (n as real)
  {
    var r := n as real;
    assert x / r * r == x && y / r * r == y;
    if x / r > y / r {
      assert x / r * r > y / r * r;
    }
  }

  lemma ShareNonNegative(s: Settings, b: Basis, today: int, end: Option<int>, bank: real)
    ensures Share(s, b, today, end, bank) >= 0.0
  {
    var heavy := FutureHeavy(s.heavy, today, end);
    var normal := DaysLeft(today, end) - |heavy|;
    if normal > 0 {
      DivMonotone(0.0, Max0(LeftNow(b) - UsableBank(s, b, bank) - Sum(heavy)), normal);
    }
  }

  /** Less left now means a smaller share and bank together. */
  lemma ShareAndBankShrink(s: Settings, b: Basis, b': Basis, today: int, end: Option<int>, bank: real)
    requires b' == b.(today := b'.today) && b.today <= b'.today
    ensures Share(s, b', today, end, bank) + UsableBank(s, b', bank) <=
            Share(s, b, today, end, bank) + UsableBank(s, b, bank)
  {
    var heavy := FutureHeavy(s.heavy, today, end);
    FutureIsPositive(s.heavy, today, end);
    SumOfPositive(heavy);
    assert LeftNow(b') <= LeftNow(b);
    if today !in heavy && s.mode == Spread {
      var n := DaysLeft(today, end) - |heavy|;
      var bk, bk' := UsableBank(s, b, bank), UsableBank(s, b', bank);
      var p, p' := Max0(LeftNow(b) - bk - Sum(heavy)), Max0(LeftNow(b') - bk' - Sum(heavy));
      if n > 0 {
        // a bank that gives way takes the whole pool with it
        assert p' <= p && bk' <= bk;
        DivMonotone(p', p, n);
      }
    }
  }

  lemma FutureIsPositive(heavy: map<int, real>, today: int, end: Option<int>)
    ensures Positive(FutureHeavy(heavy, today, end))
  {
  }

  /** Recomputing a cap later in the day never raises the headroom, and the cap
      covers what was already used as long as that fits the month. */
  lemma HeadroomNeverGrows(s: Settings, b: Basis, b': Basis, today: int, end: Option<int>, bank: real)
    requires b' == b.(today := b'.today) && 0.0 <= b.today <= b'.today
    ensures ExactCap(s, b', today, end, bank) - b'.today <= ExactCap(s, b, today, end, bank) - b.today
    ensures b.today <= LeftAtStart(b) ==> ExactCap(s, b, today, end, bank) >= b.today
  {
    ShareAndBankShrink(s, b, b', today, end, bank);
    ShareNonNegative(s, b, today, end, bank);
    ShareNonNegative(s, b', today, end, bank);
  }
}
