/** The projected schedule: every remaining day used exactly up to its cap. */
module DailyPreview {
  import opened DailyPlan
  import opened Options
  import opened Collections

  datatype Row = Row(day: int, cap: real, heavy: bool)

  // round(x, 3)
  function Round3(x: real): real {
    Nearest(x * 1000.0) as real / 1000.0
  }

  predicate Stops(day: int, end: Option<int>, before: real, allowance: real) {
    end == None || day >= end.value || before >= allowance - EPS
  }

  function Larger(x: real, y: real): real { if x < y then y else x }

  /** What a preview starts from; `usedToday` may already be past today's cap. */
  datatype Start = Start(allowance: real, usedBefore: real, usedToday: real, today: int, end: Option<int>, capToday: real)

  /** The usage before day `i` of the preview, each day before it used up to its cap. */
  ghost function Before(s: Settings, p: Start, i: nat): real
    decreases i, 0
  {
    if i == 0 then p.usedBefore
    else if i == 1 then p.usedBefore + Larger(p.capToday, p.usedToday)
    else Before(s, p, i - 1) + Cap(s, p, i - 1)
  }

  ghost function Cap(s: Settings, p: Start, i: nat): real
    decreases i, 1
  {
    if i == 0 then p.capToday
    else PlanDay(s, Basis(p.allowance, Before(s, p, i), 0.0), p.today + i, p.end, 0.0)
  }

  ghost predicate Ends(s: Settings, p: Start, i: nat) {
    Stops(p.today + i, p.end, Before(s, p, i), p.allowance)
  }

  ghost function RowAt(s: Settings, p: Start, i: nat): Row {
    Row(p.today + i, Round3(Cap(s, p, i)), p.today + i in s.heavy)
  }

  ghost function Rows(s: Settings, p: Start, n: nat): (rows: seq<Row>)
    ensures |rows| == n
  {
    if n == 0 then []
    else Rows(s, p, n - 1) + [RowAt(s, p, n - 1)]
  }

  /** No day from the second to day `n` ends the preview. */
  ghost predicate GoesOn(s: Settings, p: Start, n: nat) {
    n > 0 ==> GoesOn(s, p, n - 1) && !Ends(s, p, n)
  }

  // ---- The computation ------------------------------------------------------------------

  method SumHeavy(m: map<int, real>) returns (total: real)
    ensures total == Sum(m)
  {
    total := 0.0;
    var left := m;
    while |left| > 0
      invariant total + Sum(left) == Sum(m)
      decreases |left|
    {
      NonEmptyHasKey(left);
      var d :| d in left;
      SumRemove(left, d);
      SmallerMap(left, d);
      total := total + left[d];
      left := left - {d};
    }
    assert left == map[];
  }

  method ComputeCap(s: Settings, b: Basis, today: int, end: Option<int>, bank: real) returns (cap: real)
    ensures cap == PlanDay(s, b, today, end, bank)
  {
    var heavy := CollectFutureHeavy(s.heavy, today, end);
    var usable := UsableBank(s, b, bank);
    var share := 0.0;
    if today in heavy {
      share := heavy[today];
    } else if s.mode == Fixed {
      share := Max0(s.dailyGb);
    } else {
      var reserved := SumHeavy(heavy);
      var normal := DaysLeft(today, end) - |heavy|;
      if normal > 0 {
        share := Max0(LeftNow(b) - usable - reserved) / (normal as real);
      }
    }
    cap := Round4(Max0(Min(b.today + share + usable, LeftAtStart(b))));
  }

  method DayCap(s: Settings, p: Start, i: nat, before: real) returns (cap: real, spent: real)
    requires before == Before(s, p, i)
    ensures cap == Cap(s, p, i)
    ensures before + spent == Before(s, p, i + 1)
  {
    if i == 0 {
      cap, spent := p.capToday, Larger(p.capToday, p.usedToday);
    } else {
      cap := ComputeCap(s, Basis(p.allowance, before, 0.0), p.today + i, p.end, 0.0);
      spent := cap;
    }
  }

  method DayRow(s: Settings, p: Start, i: nat, before: real) returns (row: Row, after: real)
    requires before == Before(s, p, i)
    ensures row == RowAt(s, p, i)
    ensures after == Before(s, p, i + 1)
  {
    var cap, spent := DayCap(s, p, i, before);
    row := Row(p.today + i, Round3(cap), p.today + i in s.heavy);
    after := before + spent;
  }

  lemma RowsNext(s: Settings, p: Start, rows: seq<Row>, row: Row)
    requires rows == Rows(s, p, |rows|)
    requires row == RowAt(s, p, |rows|)
    ensures rows + [row] == Rows(s, p, |rows| + 1)
  {
    var n := |rows|;
    assert Rows(s, p, n + 1) == Rows(s, p, n) + [RowAt(s, p, n)];
  }

  /** The preview is the longest run of days that fits the limit, the period and
      the allowance; each row shows the rounded cap of its day. */
  method Preview(s: Settings, p: Start, limit: nat) returns (rows: seq<Row>)
    ensures |rows| <= limit && (limit > 0 ==> rows != [])
    ensures rows == Rows(s, p, |rows|)
    ensures |rows| > 0 ==> GoesOn(s, p, |rows| - 1)
    ensures |rows| < limit ==> Ends(s, p, |rows|)
  {
    rows := [];
    var day, before := p.today, p.usedBefore;
    while |rows| < limit
      invariant |rows| <= limit && day == p.today + |rows| && before == Before(s, p, |rows|)
      invariant rows == Rows(s, p, |rows|)
      invariant GoesOn(s, p, |rows|)
      decreases limit - |rows|
    {
      var row;
      row, before := DayRow(s, p, |rows|, before);
      RowsNext(s, p, rows, row);
      rows := rows + [row];
      day := day + 1;
      if p.end == None || day >= p.end.value {
        break;
      }
      if before >= p.allowance - EPS {
        break;
      }
    }
  }

  // ---- What a preview promises ----------------------------------------------------------

  lemma CapFits(s: Settings, p: Start, i: nat)
    requires i >= 1
    ensures Cap(s, p, i) <= Max0(p.allowance - Before(s, p, i)) + 0.00005
  {
    Round4Close(ExactCap(s, Basis(p.allowance, Before(s, p, i), 0.0), p.today + i, p.end, 0.0));
  }

  lemma DayFits(s: Settings, p: Start, i: nat)
    requires i >= 1
    ensures Before(s, p, i + 1) <= Before(s, p, i) || Before(s, p, i + 1) <= p.allowance + 0.00005
  {
    CapFits(s, p, i);
    assert Before(s, p, i + 1) == Before(s, p, i) + Cap(s, p, i);
  }

  /** However long it runs, a preview never plans past the allowance by more than
      the rounding of one cap, unless today is past it already. */
  lemma {:induction false} PreviewStaysInside(s: Settings, p: Start, i: nat)
    ensures Before(s, p, 1 + i) <= Before(s, p, 1) || Before(s, p, 1 + i) <= p.allowance + 0.00005
  {
    if i > 0 {
      PreviewStaysInside(s, p, i - 1);
      DayFits(s, p, i);
    }
  }
}
