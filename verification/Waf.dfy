/** The request-rate limits of the application firewall: fixed windows per
    address and path prefix. */
module Waf {
  import opened Options
  import opened SlidingWindow

  /** One entry of the limits table: at most `max` requests per `window` seconds. */
  datatype Limit = Limit(prefix: string, max: int, window: real)
  datatype Bucket = Bucket(count: int, start: real)

  predicate HasPrefix(path: string, prefix: string) {
    prefix <= path
  }

  /** The first prefix in table order; an empty one switches the limit off. */
  function LimitFor(limits: seq<Limit>, path: string): Option<Limit> {
    if limits == [] then None
    else if HasPrefix(path, limits[0].prefix) then
      if limits[0].prefix == "" then None else Some(limits[0])
    else LimitFor(limits[1..], path)
  }

  /** The bucket after one more request at `now`. */
  function Counted(b: Option<Bucket>, window: real, now: real): Bucket {
    match b
    case Some(Bucket(count, start)) =>
      if now - start > window then Bucket(1, now) else Bucket(count + 1, start)
    case None => Bucket(1, now)
  }

  class WafRateState {
    var hits: map<string, seq<real>>
    var buckets: map<(string, string), Bucket>

    constructor ()
      ensures hits == map[] && buckets == map[]
    {
      hits, buckets := map[], map[];
    }

    ghost function BucketOf(key: (string, string)): Option<Bucket>
      reads this
    {
      if key in buckets then Some(buckets[key]) else None
    }

    method RateLimited(ip: string, path: string, limits: seq<Limit>, now: real) returns (limited: bool)
      modifies this`buckets
      ensures match LimitFor(limits, path)
              case None => !limited && buckets == old(buckets)
              case Some(l) =>
                var b := Counted(old(BucketOf((ip, l.prefix))), l.window, now);
                limited == (b.count > l.max) && buckets == old(buckets)[(ip, l.prefix) := b]
    {
      var found: Option<Limit> := None;
      var i := 0;
      while i < |limits| && found == None
        invariant 0 <= i <= |limits|
        invariant found == None ==> LimitFor(limits, path) == LimitFor(limits[i..], path)
        invariant found.Some? ==>
          LimitFor(limits, path) == if found.value.prefix == "" then None else found
        decreases |limits| - i, found == None
      {
        if HasPrefix(path, limits[i].prefix) {
          found := Some(limits[i]);
        } else {
          i := i + 1;
        }
      }
      if found == None || found.value.prefix == "" {
        return false;
      }
      var l := found.value;
      var key := (ip, l.prefix);
      var count, start := 0, now;
      if key in buckets {
        count, start := buckets[key].count, buckets[key].start;
      }
      if now - start > l.window {
        count, start := 0, now;
      }
      count := count + 1;
      buckets := buckets[key := Bucket(count, start)];
      limited := count > l.max;
    }

    method RegisterBlock(ip: string, now: real)
      modifies this`hits
      ensures hits == old(hits)[ip := (if ip in old(hits) then old(hits)[ip] else []) + [now]]
    {
      var stamps := if ip in hits then hits[ip] else [];
      hits := hits[ip := stamps + [now]];
    }

    method BlocksInWindow(ip: string, window: real, now: real) returns (n: nat)
      modifies this`hits
      ensures var kept := Within(if ip in old(hits) then old(hits)[ip] else [], window, now);
              n == |kept| && hits == old(hits)[ip := kept]
    {
      var all := if ip in hits then hits[ip] else [];
      var stamps := [];
      for i := 0 to |all|
        invariant stamps == Within(all[..i], window, now)
        invariant hits == old(hits)
      {
        assert all[..i + 1][..i] == all[..i];
        if now - all[i] <= window {
          stamps := stamps + [all[i]];
        }
      }
      assert all[..|all|] == all;
      hits := hits[ip := stamps];
      n := |stamps|;
    }
  }

  // ---- Every run of requests to one bucket ------------------------------------------------

  function After(ts: seq<real>, window: real): Option<Bucket> {
    if ts == [] then None else Some(Counted(After(ts[..|ts| - 1], window), window, ts[|ts| - 1]))
  }

  /** The last request was let through. */
  predicate LastAdmitted(ts: seq<real>, max: int, window: real)
    requires ts != []
  {
    After(ts, window).value.count <= max
  }

  /** How many requests between `from` and `to` were let through. */
  function Admitted(ts: seq<real>, max: int, window: real, from: real, to: real): nat {
    if ts == [] then 0
    else
      var l := |ts| - 1;
      Admitted(ts[..l], max, window, from, to)
      + if LastAdmitted(ts, max, window) && from <= ts[l] <= to then 1 else 0
  }

  predicate Ordered(ts: seq<real>) {
    forall i, j :: 0 <= i < j < |ts| ==> ts[i] <= ts[j]
  }

  function AtMost(a: int, b: int): int { if a < b then a else b }

  /** What the current bucket says about the requests let through so far in
      [from, from + window]: while the bucket is at least as old as the interval it
      holds them all; when it began inside, one earlier bucket can have a share. */
  predicate Budget(b: Bucket, admitted: nat, max: nat, window: real, from: real) {
    && b.count >= 1
    && (b.start <= from ==> admitted <= AtMost(b.count, max))
    && (from < b.start <= from + window ==> admitted <= max + AtMost(b.count, max))
    && admitted <= 2 * max
  }

  lemma {:induction false} BudgetHolds(ts: seq<real>, max: nat, window: real, from: real)
    requires ts != [] && Ordered(ts) && window >= 0.0
    ensures Budget(After(ts, window).value, Admitted(ts, max, window, from, from + window), max, window, from)
    ensures var b := After(ts, window).value;
            b.start <= ts[|ts| - 1] <= b.start + window
    ensures ts[|ts| - 1] < from ==> Admitted(ts, max, window, from, from + window) == 0
  {
    var l := |ts| - 1;
    if l > 0 {
      assert ts[l - 1] <= ts[l];
      BudgetHolds(ts[..l], max, window, from);
    } else {
      assert ts[..l] == [];
    }
  }

  /** A fixed window of length w lets through at most twice its limit in any
      interval of length w, for each address and path prefix. */
  lemma TwiceTheLimit(ts: seq<real>, max: int, window: real, from: real)
    requires Ordered(ts) && window >= 0.0
    ensures Admitted(ts, max, window, from, from + window) <= if max < 0 then 0 else 2 * max
  {
    if max < 0 {
      NoneAdmitted(ts, max, window, from);
    } else if ts != [] {
      BudgetHolds(ts, max, window, from);
    }
  }

  /** One bucket lets through at most its limit. */
  lemma OneBucketKeepsTheLimit(ts: seq<real>, max: nat, window: real)
    requires ts != [] && Ordered(ts) && window >= 0.0
    ensures var start := After(ts, window).value.start;
            Admitted(ts, max, window, start, start + window) <= max
  {
    BudgetHolds(ts, max, window, After(ts, window).value.start);
  }

  lemma {:induction false} NoneAdmitted(ts: seq<real>, max: int, window: real, from: real)
    requires max < 0
    ensures Admitted(ts, max, window, from, from + window) == 0
    ensures ts != [] ==> After(ts, window).value.count >= 1
  {
    if ts != [] {
      NoneAdmitted(ts[..|ts| - 1], max, window, from);
      assert After(ts, window).value.count >= 1;
    }
  }

  // ---- Requests of many addresses to many paths ---------------------------------------------

  datatype Request = Request(ip: string, path: string, at: real)

  /** What rate_limited does to the buckets, over a sequence of requests. */
  function BucketsAfter(limits: seq<Limit>, rs: seq<Request>): map<(string, string), Bucket> {
    if rs == [] then map[]
    else
      var bs, r := BucketsAfter(limits, rs[..|rs| - 1]), rs[|rs| - 1];
      match LimitFor(limits, r.path)
      case None => bs
      case Some(l) =>
        var key := (r.ip, l.prefix);
        bs[key := Counted(if key in bs then Some(bs[key]) else None, l.window, r.at)]
  }

  /** The times of the requests of one address that a limit applies to. */
  function TimesOf(limits: seq<Limit>, rs: seq<Request>, ip: string, l: Limit): seq<real> {
    if rs == [] then []
    else
      var r := rs[|rs| - 1];
      TimesOf(limits, rs[..|rs| - 1], ip, l)
      + if r.ip == ip && LimitFor(limits, r.path) == Some(l) then [r.at] else []
  }

  /** The limits are a dictionary: one entry for each prefix. */
  predicate OnePerPrefix(limits: seq<Limit>) {
    forall a, b :: a in limits && b in limits && a.prefix == b.prefix ==> a == b
  }

  lemma {:induction false} LimitForIsListed(limits: seq<Limit>, path: string)
    ensures LimitFor(limits, path).Some? ==> LimitFor(limits, path).value in limits
  {
    if limits != [] {
      LimitForIsListed(limits[1..], path);
    }
  }

  /** Whatever else is requested in between, a bucket is what its own requests made
      of it, so the bounds above hold for each address and path prefix in any mix. */
  lemma {:induction false} BucketsAreIndependent(limits: seq<Limit>, rs: seq<Request>, ip: string, l: Limit)
    requires OnePerPrefix(limits) && l in limits
    ensures var bs := BucketsAfter(limits, rs);
            (if (ip, l.prefix) in bs then Some(bs[(ip, l.prefix)]) else None)
            == After(TimesOf(limits, rs, ip, l), l.window)
  {
    if rs != [] {
      var k := |rs| - 1;
      var earlier := TimesOf(limits, rs[..k], ip, l);
      BucketsAreIndependent(limits, rs[..k], ip, l);
      LimitForIsListed(limits, rs[k].path);
      if rs[k].ip == ip && LimitFor(limits, rs[k].path) == Some(l) {
        assert TimesOf(limits, rs, ip, l) == earlier + [rs[k].at];
        assert (earlier + [rs[k].at])[..|earlier|] == earlier;
      } else {
        assert TimesOf(limits, rs, ip, l) == earlier;
      }
    }
  }

  predicate InOrder(rs: seq<Request>) {
    forall i, j :: 0 <= i < j < |rs| ==> rs[i].at <= rs[j].at
  }

  lemma {:induction false} TimesAreOrdered(limits: seq<Limit>, rs: seq<Request>, ip: string, l: Limit)
    requires InOrder(rs)
    ensures Ordered(TimesOf(limits, rs, ip, l))
    ensures forall t <- TimesOf(limits, rs, ip, l) :: rs != [] && t <= rs[|rs| - 1].at
  {
    if rs != [] {
      var k := |rs| - 1;
      TimesAreOrdered(limits, rs[..k], ip, l);
      var earlier := TimesOf(limits, rs[..k], ip, l);
      forall t | t in earlier ensures t <= rs[k].at {
        assert t <= rs[..k][k - 1].at && rs[k - 1].at <= rs[k].at;
      }
      forall i | 0 <= i < |earlier| ensures earlier[i] <= rs[k].at {
        assert earlier[i] in earlier;
      }
    }
  }

  /** rate_limited's answer to the last request of a mix, from its bucket. */
  predicate LetThrough(limits: seq<Limit>, rs: seq<Request>, ip: string, l: Limit)
    requires rs != []
  {
    var r, bs := rs[|rs| - 1], BucketsAfter(limits, rs);
    && r.ip == ip && LimitFor(limits, r.path) == Some(l)
    && (ip, l.prefix) in bs && bs[(ip, l.prefix)].count <= l.max
  }

  /** How many requests of a mix one limit lets through for one address in a span. */
  function LetThroughCount(limits: seq<Limit>, rs: seq<Request>, ip: string, l: Limit, from: real, to: real): nat {
    if rs == [] then 0
    else
      var k := |rs| - 1;
      LetThroughCount(limits, rs[..k], ip, l, from, to)
      + if LetThrough(limits, rs, ip, l) && from <= rs[k].at <= to then 1 else 0
  }

  lemma {:induction false} CountsAgree(limits: seq<Limit>, rs: seq<Request>, ip: string, l: Limit, from: real, to: real)
    requires OnePerPrefix(limits) && l in limits
    ensures LetThroughCount(limits, rs, ip, l, from, to) ==
            Admitted(TimesOf(limits, rs, ip, l), l.max, l.window, from, to)
  {
    if rs != [] {
      var k := |rs| - 1;
      CountsAgree(limits, rs[..k], ip, l, from, to);
      BucketsAreIndependent(limits, rs, ip, l);
      var earlier := TimesOf(limits, rs[..k], ip, l);
      if rs[k].ip == ip && LimitFor(limits, rs[k].path) == Some(l) {
        assert TimesOf(limits, rs, ip, l) == earlier + [rs[k].at];
        assert (earlier + [rs[k].at])[..|earlier|] == earlier;
      } else {
        assert TimesOf(limits, rs, ip, l) == earlier;
      }
    }
  }

  /** In any mix of addresses and paths, in any span as long as the window, a limit
      lets through at most twice its maximum for each address. */
  lemma TwiceTheLimitInAnyMix(limits: seq<Limit>, rs: seq<Request>, ip: string, l: Limit, from: real)
    requires OnePerPrefix(limits) && l in limits && l.window >= 0.0 && InOrder(rs)
    ensures LetThroughCount(limits, rs, ip, l, from, from + l.window) <= if l.max < 0 then 0 else 2 * l.max
  {
    var ts := TimesOf(limits, rs, ip, l);
    CountsAgree(limits, rs, ip, l, from, from + l.window);
    TimesAreOrdered(limits, rs, ip, l);
    TwiceTheLimit(ts, l.max, l.window, from);
  }
}
