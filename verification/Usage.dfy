/** The usage_daily table: calibrating a device's period total, and draining the
    packet counters into it. Dates are ordinals; the text order of ISO dates is
    the order of days. */
module Usage {
  import opened Options
  import opened Collections

  datatype RowKey = RowKey(device: int, date: int)
  datatype Bytes = Bytes(up: int, down: int) {
    function Total(): int { up + down }
  }

  const ZERO: Bytes := Bytes(0, 0)
  function Add(a: Bytes, b: Bytes): Bytes { Bytes(a.up + b.up, a.down + b.down) }

  type Rows = map<RowKey, Bytes>

  // ---- Sums of rows ------------------------------------------------------------------

  // sum(r["up_bytes"] + r["down_bytes"] for r in rows)
  ghost function Sum(m: Rows): int
    decreases |m|
  {
    if m == map[] then 0
    else
      var k := Pick(m);
      SmallerMap(m, k);
      m[k].Total() + Sum(m - {k})
  }

  lemma {:induction false} SumRemove(m: Rows, k: RowKey)
    requires k in m
    ensures Sum(m) == m[k].Total() + Sum(m - {k})
    decreases |m|
  {
    var e := Pick(m);
    if e != k {
      SmallerMap(m, e);
      SmallerMap(m, k);
      SumRemove(m - {e}, k);
      SumRemove(m - {k}, e);
      assert m - {e} - {k} == m - {k} - {e};
    }
  }

  lemma {:induction false} SumUnion(a: Rows, b: Rows)
    requires a.Keys !! b.Keys
    ensures Sum(a + b) == Sum(a) + Sum(b)
    decreases |b|
  {
    if b == map[] {
      assert a + b == a;
    } else {
      var k := Pick(b);
      SmallerMap(b, k);
      UnionWithout(a, b, k);
      SumUnion(a, b - {k});
      SumRemove(b, k);
      SumRemove(a + b, k);
    }
  }

  lemma UnionWithout(a: Rows, b: Rows, k: RowKey)
    requires a.Keys !! b.Keys && k in b
    ensures (a + b) - {k} == a + (b - {k}) && (a + b)[k] == b[k] && a.Keys !! (b - {k}).Keys
  {
  }

  lemma SumOfOne(k: RowKey, b: Bytes)
    ensures Sum(map[k := b]) == b.Total()
  {
    SumRemove(map[k := b], k);
    assert map[k := b] - {k} == map[];
  }

  /** A device's rows from one date up to, not including, another. */
  function Span(m: Rows, device: int, from: int, to: int): Rows {
    map k | k in m && k.device == device && from <= k.date < to :: m[k]
  }

  /** A device's rows since a date. */
  function Since(m: Rows, device: int, from: int): Rows {
    map k | k in m && k.device == device && from <= k.date :: m[k]
  }

  predicate NonNegative(m: Rows) {
    forall k <- m :: m[k].up >= 0 && m[k].down >= 0
  }

  predicate AllZero(m: Rows) {
    forall k <- m :: m[k] == ZERO
  }

  function Clamp(x: int): int { if x < 0 then 0 else x }

  // int(needed * 0.85)
  function DownPart(n: int): int { n * 85 / 100 }

  lemma DownPartBounds(n: int)
    requires n >= 0
    ensures 0 <= DownPart(n) <= n
  {
  }

  // ---- The drained counters ------------------------------------------------------------

  datatype Record = Record(device: int, date: int, bytes: Bytes)

  function Upserted(m: Rows, r: Record): Rows {
    var k := RowKey(r.device, r.date);
    m[k := if k in m then Add(m[k], r.bytes) else r.bytes]
  }

  function AllUpserted(m: Rows, rs: seq<Record>): Rows {
    if rs == [] then m else Upserted(AllUpserted(m, rs[..|rs| - 1]), rs[|rs| - 1])
  }

  function RowOf(m: Rows, k: RowKey): Bytes { if k in m then m[k] else ZERO }

  function RecordsFor(rs: seq<Record>, k: RowKey): Bytes {
    if rs == [] then ZERO
    else
      var r, sofar := rs[|rs| - 1], RecordsFor(rs[..|rs| - 1], k);
      if RowKey(r.device, r.date) == k then Add(sofar, r.bytes) else sofar
  }

  /** A batch adds to every row exactly the records that name it. */
  lemma {:induction false} BatchAddsRecords(m: Rows, rs: seq<Record>, k: RowKey)
    ensures RowOf(AllUpserted(m, rs), k) == Add(RowOf(m, k), RecordsFor(rs, k))
  {
    if rs != [] {
      var l := |rs| - 1;
      BatchAddsRecords(m, rs[..l], k);
      UpsertAdds(AllUpserted(m, rs[..l]), rs[l], k);
    }
  }

  lemma UpsertAdds(m: Rows, r: Record, k: RowKey)
    ensures RowOf(Upserted(m, r), k) ==
            if RowKey(r.device, r.date) == k then Add(RowOf(m, k), r.bytes) else RowOf(m, k)
  {
  }

  // ---- The table object ----------------------------------------------------------------

  class Database {
    var usage: Rows
    var periodStart: int

    constructor (periodStart: int)
      ensures usage == map[] && this.periodStart == periodStart
    {
      usage, this.periodStart := map[], periodStart;
    }

    method AddUsageBatch(records: seq<Record>)
      modifies this`usage
      ensures usage == AllUpserted(old(usage), records)
    {
      for i := 0 to |records|
        invariant usage == AllUpserted(old(usage), records[..i])
      {
        assert records[..i + 1][..i] == records[..i];
        var k := RowKey(records[i].device, records[i].date);
        if k in usage {
          usage := usage[k := Add(usage[k], records[i].bytes)];
        } else {
          usage := usage[k := records[i].bytes];
        }
      }
      assert records[..|records|] == records;
    }

    method SetUsage(device: int, date: int, b: Bytes)
      modifies this`usage
      ensures usage == old(usage)[RowKey(device, date) := Bytes(Clamp(b.up), Clamp(b.down))]
    {
      usage := usage[RowKey(device, date) := Bytes(Clamp(b.up), Clamp(b.down))];
    }

    /** SELECT ... WHERE device_id=? AND date>=? AND date<?, summed. */
    method SumSpan(device: int, from: int, to: int) returns (total: int)
      ensures total == Sum(Span(usage, device, from, to))
    {
      total := SumRows(Span(usage, device, from, to));
    }

    static method SumRows(rows: Rows) returns (total: int)
      ensures total == Sum(rows)
    {
      total := 0;
      var left := rows;
      while |left| > 0
        invariant total + Sum(left) == Sum(rows)
        decreases |left|
      {
        NonEmptyHasKey(left);
        var k :| k in left;
        SumRemove(left, k);
        SmallerMap(left, k);
        total := total + left[k].Total();
        left := left - {k};
      }
      assert left == map[];
    }

    /** Whatever the ratio, today's two parts make up the needed bytes. */
    method SetDevicePeriodUsage(device: int, target: int, today: int) returns (total: int)
      modifies this`usage
      ensures periodStart <= today ==>
                Sum(Since(usage, device, periodStart))
                == Clamp(target) + Sum(Since(old(usage), device, today + 1))
      ensures total == Sum(Since(usage, device, periodStart))
      ensures var row := RowOf(usage, RowKey(device, today));
              row.up >= 0 && row.down == DownPart(row.Total())
      ensures forall k: RowKey :: k.device != device || (k.date < periodStart && k.date != today) || today < k.date ==>
                (k in usage <==> k in old(usage)) && (k in usage ==> usage[k] == old(usage)[k])
    {
      var wanted := Clamp(target);
      var prior := SumSpan(device, periodStart, today);
      var needed := wanted - prior;
      if wanted <= prior {
        usage := usage - Span(usage, device, periodStart, today).Keys;
        needed := wanted;
      }
      label Settled:
      DownPartBounds(needed);
      var down := DownPart(needed);
      SetUsage(device, today, Bytes(needed - down, down));
      if periodStart <= today {
        ghost var prior' := if wanted <= prior then map[] else Span(old(usage), device, periodStart, today);
        assert Span(old@Settled(usage), device, periodStart, today) == prior';
        assert Since(old@Settled(usage), device, today + 1) == Since(old(usage), device, today + 1);
        TodayReplaced(old@Settled(usage), device, periodStart, today, Bytes(needed - down, down));
      }
      total := SumRows(Since(usage, device, periodStart));
    }
  }

  /** The period splits into earlier days, today's row and later days. */
  lemma TodayReplaced(m: Rows, device: int, since: int, today: int, b: Bytes)
    requires since <= today
    ensures Sum(Since(m[RowKey(device, today) := b], device, since)) ==
            Sum(Span(m, device, since, today)) + b.Total() + Sum(Since(m, device, today + 1))
  {
    var k := RowKey(device, today);
    var before, after := Span(m, device, since, today), Since(m, device, today + 1);
    assert Since(m[k := b], device, since) == (before + map[k := b]) + after;
    SumUnion(before + map[k := b], after);
    SumUnion(before, map[k := b]);
    SumOfOne(k, b);
  }

  /** After a calibration, as its contract leaves the table, the total is exactly the
      target if and only if nothing was recorded for a later day. */
  lemma CalibrationIsExact(rows: Rows, rows': Rows, device: int, since: int, today: int, target: int)
    requires Sum(Since(rows', device, since)) == Clamp(target) + Sum(Since(rows, device, today + 1))
    requires NonNegative(Since(rows, device, today + 1))
    ensures Sum(Since(rows', device, since)) == Clamp(target) <==> AllZero(Since(rows, device, today + 1))
  {
    SumOfNonNegative(Since(rows, device, today + 1));
  }

  lemma {:induction false} SumOfNonNegative(m: Rows)
    requires NonNegative(m)
    ensures Sum(m) >= 0
    ensures Sum(m) == 0 <==> AllZero(m)
    decreases |m|
  {
    if m != map[] {
      var e := Pick(m);
      SmallerMap(m, e);
      SumOfNonNegative(m - {e});
      assert forall k :: k in m <==> k == e || k in m - {e};
      assert forall k <- m - {e} :: (m - {e})[k] == m[k];
    }
  }

  // ---- One maintenance tick -------------------------------------------------------------

  datatype Drained = Drained(ip: string, bytes: Bytes)

  /** What the tick knows: live ip-to-mac pairs, those of the database, and the
      devices by lower-case mac. */
  datatype Lookup = Lookup(live: map<string, string>, leased: map<string, string>, byMac: map<string, int>) {
    function MacOf(ip: string): string {
      var m := if ip in live then live[ip] else "";
      if m != "" then m else if ip in leased then leased[ip] else ""
    }

    function DeviceOf(ip: string): Option<int> {
      var m := Lower(MacOf(ip));
      if m != "" && m in byMac then Some(byMac[m]) else None
    }
  }

  function Lower(s: string): (r: string)
    ensures |r| == |s|
  {
    seq(|s|, i requires 0 <= i < |s| => if 'A' <= s[i] <= 'Z' then 'a' + (s[i] as int - 'A' as int) as char else s[i])
  }

  /** The bytes of all addresses that resolve to a device. */
  function ResolvedBytes(l: Lookup, ds: seq<Drained>, device: int): Bytes {
    if ds == [] then ZERO
    else
      var d, sofar := ds[|ds| - 1], ResolvedBytes(l, ds[..|ds| - 1], device);
      if l.DeviceOf(d.ip) == Some(device) then Add(sofar, d.bytes) else sofar
  }

  method UsageRecords(
    l: Lookup, ds: seq<Drained>, gateway: Bytes, gatewayBlocked: bool, box: Option<int>, today: int)
    returns (records: seq<Record>)
    ensures forall r <- records :: r.date == today
    ensures forall device ::
      RecordsFor(records, RowKey(device, today)) ==
      Add(ResolvedBytes(l, ds, device), if !gatewayBlocked && box == Some(device) then gateway else ZERO)
  {
    records := [];
    for i := 0 to |ds|
      invariant forall r <- records :: r.date == today
      invariant forall device :: RecordsFor(records, RowKey(device, today)) == ResolvedBytes(l, ds[..i], device)
    {
      assert ds[..i + 1][..i] == ds[..i];
      var d := ds[i];
      if d.bytes == ZERO {
        continue;
      }
      var mac := if d.ip in l.live then l.live[d.ip] else "";
      if mac == "" {
        mac := if d.ip in l.leased then l.leased[d.ip] else "";
      }
      if mac == "" || Lower(mac) !in l.byMac {
        continue;
      }
      var r := Record(l.byMac[Lower(mac)], today, d.bytes);
      RecordsSnoc(records, r, today);
      assert l.DeviceOf(d.ip) == Some(r.device);
      records := records + [r];
    }
    assert ds[..|ds|] == ds;
    if gateway != ZERO && !gatewayBlocked && box.Some? {
      var r := Record(box.value, today, gateway);
      RecordsSnoc(records, r, today);
      records := records + [r];
    }
  }

  lemma RecordsSnoc(rs: seq<Record>, r: Record, today: int)
    requires r.date == today
    ensures forall device ::
      RecordsFor(rs + [r], RowKey(device, today)) ==
      (var before := RecordsFor(rs, RowKey(device, today));
       if device == r.device then Add(before, r.bytes) else before)
  {
    assert (rs + [r])[..|rs|] == rs;
  }

  /** Draining one snapshot into the table. */
  method DrainTick(
    db: Database, l: Lookup, ds: seq<Drained>, gateway: Bytes, gatewayBlocked: bool, box: Option<int>, today: int)
    modifies db`usage
    ensures forall device ::
      RowOf(db.usage, RowKey(device, today)) ==
      Add(RowOf(old(db.usage), RowKey(device, today)),
          Add(ResolvedBytes(l, ds, device), if !gatewayBlocked && box == Some(device) then gateway else ZERO))
    ensures forall k: RowKey :: k.date != today ==> RowOf(db.usage, k) == RowOf(old(db.usage), k)
  {
    var records := UsageRecords(l, ds, gateway, gatewayBlocked, box, today);
    db.AddUsageBatch(records);
    forall k: RowKey
      ensures RowOf(db.usage, k) == Add(RowOf(old(db.usage), k), RecordsFor(records, k))
    {
      BatchAddsRecords(old(db.usage), records, k);
    }
    forall k: RowKey | k.date != today ensures RecordsFor(records, k) == ZERO {
      OtherDaysUntouched(records, today, k);
    }
  }

  lemma {:induction false} OtherDaysUntouched(rs: seq<Record>, today: int, k: RowKey)
    requires (forall r <- rs :: r.date == today) && k.date != today
    ensures RecordsFor(rs, k) == ZERO
  {
    if rs != [] {
      OtherDaysUntouched(rs[..|rs| - 1], today, k);
    }
  }
}
