/** FlowSampler: per-window byte deltas from cumulative connection counters. */
module Flows {
  import opened Options

  datatype FlowKey = FlowKey(proto: int, client: string, sport: int, server: string, dport: int)
  datatype Bytes = Bytes(up: nat, down: nat)
  datatype Flow = Flow(key: FlowKey, counters: Bytes)

  function Add(a: Bytes, b: Bytes): Bytes { Bytes(a.up + b.up, a.down + b.down) }
  const ZERO: Bytes := Bytes(0, 0)

  /** Growth of one counter; a smaller value means that it started again. */
  function Growth(before: nat, now: nat): nat {
    if now >= before then now - before else now
  }

  /** What a flow moved since the previous sample. A flow that is new counts from
      zero, except in the very first sample, which is only a baseline. */
  function Delta(prev: map<FlowKey, Bytes>, first: bool, f: Flow): Bytes {
    if f.key in prev
    then Bytes(Growth(prev[f.key].up, f.counters.up), Growth(prev[f.key].down, f.counters.down))
    else if first then ZERO else f.counters
  }

  predicate Watched(clients: Option<set<string>>, f: Flow) {
    clients.Some? ==> f.key.client in clients.value
  }

  function Latest(prev: map<FlowKey, Bytes>, clients: Option<set<string>>, fs: seq<Flow>): map<FlowKey, Bytes> {
    if fs == [] then map[]
    else
      var m, f := Latest(prev, clients, fs[..|fs| - 1]), fs[|fs| - 1];
      if Watched(clients, f) then m[f.key := f.counters] else m
  }

  /** The bytes between a client and a server in the last window, by definition. */
  function Moved(
    prev: map<FlowKey, Bytes>, first: bool, clients: Option<set<string>>, remote: string -> bool,
    fs: seq<Flow>, client: string, server: string): Bytes
  {
    if fs == [] then ZERO
    else
      var f := fs[|fs| - 1];
      var sofar := Moved(prev, first, clients, remote, fs[..|fs| - 1], client, server);
      if Watched(clients, f) && remote(server) && f.key.client == client && f.key.server == server
      then Add(sofar, Delta(prev, first, f)) else sofar
  }

  class FlowSampler {
    const remote: string -> bool
    var prev: map<FlowKey, Bytes>
    var first: bool
    var latest: map<string, map<string, Bytes>>

    constructor (remote: string -> bool)
      ensures this.remote == remote && prev == map[] && first && latest == map[]
    {
      this.remote := remote;
      prev, first, latest := map[], true, map[];
    }

    /** A table entry, with nothing for a pair that is not listed. */
    static function Entry(table: map<string, map<string, Bytes>>, client: string, server: string): Bytes {
      if client in table && server in table[client] then table[client][server] else ZERO
    }

    /** setdefault twice, then add in place. */
    static function Credit(
      table: map<string, map<string, Bytes>>, c: string, s: string, d: Bytes, isRemote: bool)
      : map<string, map<string, Bytes>>
    {
      if (d.up != 0 || d.down != 0) && isRemote then
        var row := if c in table then table[c] else map[];
        var slot := if s in row then row[s] else ZERO;
        table[c := row[s := Add(slot, d)]]
      else table
    }

    static lemma CreditAdds(table: map<string, map<string, Bytes>>, c: string, s: string, d: Bytes, isRemote: bool)
      ensures forall c', s' ::
        Entry(Credit(table, c, s, d, isRemote), c', s') ==
        (if c' == c && s' == s && isRemote then Add(Entry(table, c', s'), d) else Entry(table, c', s'))
    {
    }

    method Sample(clients: Option<set<string>>, flows: seq<Flow>)
      modifies this
      ensures prev == Latest(old(prev), clients, flows) && !first
      ensures forall c, s ::
                Entry(latest, c, s) == Moved(old(prev), old(first), clients, remote, flows, c, s)
    {
      var newPrev: map<FlowKey, Bytes> := map[];
      var out: map<string, map<string, Bytes>> := map[];
      for i := 0 to |flows|
        invariant newPrev == Latest(prev, clients, flows[..i])
        invariant forall c, s :: Entry(out, c, s) == Moved(prev, first, clients, remote, flows[..i], c, s)
        invariant prev == old(prev) && first == old(first)
      {
        var f := flows[i];
        assert flows[..i + 1][..i] == flows[..i];
        if Watched(clients, f) {
          newPrev := newPrev[f.key := f.counters];
          ghost var out0 := out;
          out := Credit(out, f.key.client, f.key.server, Delta(prev, first, f), remote(f.key.server));
          CreditAdds(out0, f.key.client, f.key.server, Delta(prev, first, f), remote(f.key.server));
        }
      }
      assert flows[..|flows|] == flows;
      prev, first, latest := newPrev, false, out;
    }
  }

  // ---- One flow over many samples -----------------------------------------------------------

  /** One call of sample: the clients of that moment and the connection table. */
  datatype Sampling = Sampling(clients: Option<set<string>>, flows: seq<Flow>)

  /** The sampler's memory after some samples. */
  function PrevAfter(samples: seq<Sampling>): map<FlowKey, Bytes> {
    if samples == [] then map[]
    else
      var last := samples[|samples| - 1];
      Latest(PrevAfter(samples[..|samples| - 1]), last.clients, last.flows)
  }

  predicate OnlyAt(fs: seq<Flow>, k: FlowKey, j: nat) {
    j < |fs| && fs[j].key == k && forall i :: 0 <= i < |fs| && fs[i].key == k ==> i == j
  }

  /** The flow is not in the table, or its client is not watched. */
  predicate Unseen(clients: Option<set<string>>, fs: seq<Flow>, k: FlowKey) {
    forall i :: 0 <= i < |fs| && fs[i].key == k ==> !Watched(clients, fs[i])
  }

  lemma {:induction false} LatestHolds(prev: map<FlowKey, Bytes>, clients: Option<set<string>>, fs: seq<Flow>, k: FlowKey)
    ensures (exists j: nat :: OnlyAt(fs, k, j)) ==>
              forall j: nat :: OnlyAt(fs, k, j) && Watched(clients, fs[j]) ==>
                k in Latest(prev, clients, fs) && Latest(prev, clients, fs)[k] == fs[j].counters
    ensures Unseen(clients, fs, k) <==> k !in Latest(prev, clients, fs)
  {
    if fs != [] {
      var l := |fs| - 1;
      LatestHolds(prev, clients, fs[..l], k);
      forall j: nat | OnlyAt(fs, k, j) && Watched(clients, fs[j])
        ensures k in Latest(prev, clients, fs) && Latest(prev, clients, fs)[k] == fs[j].counters
      {
        if j < l {
          assert OnlyAt(fs[..l], k, j);
        }
      }
    }
  }

  /** The counters of one flow in consecutive samples, from sample `start` on. */
  predicate Tracks(samples: seq<Sampling>, k: FlowKey, start: nat, at: seq<nat>) {
    && start + |at| <= |samples|
    && forall i :: 0 <= i < |at| ==>
         && OnlyAt(samples[start + i].flows, k, at[i])
         && Watched(samples[start + i].clients, samples[start + i].flows[at[i]])
  }

  /** The delta that sample number n adds for the flow at position j. */
  function WindowDelta(samples: seq<Sampling>, n: nat, j: nat): Bytes
    requires n < |samples| && j < |samples[n].flows|
  {
    Delta(PrevAfter(samples[..n]), n == 0, samples[n].flows[j])
  }

  function CountersAt(samples: seq<Sampling>, start: nat, at: seq<nat>, i: nat): Bytes
    requires i < |at| && start + i < |samples| && at[i] < |samples[start + i].flows|
  {
    samples[start + i].flows[at[i]].counters
  }

  /** The flow's counters, sample by sample, and the deltas reported for it. */
  function Series(samples: seq<Sampling>, k: FlowKey, start: nat, at: seq<nat>): seq<Bytes>
    requires Tracks(samples, k, start, at)
  {
    seq(|at|, i requires 0 <= i < |at| && OnlyAt(samples[start + i].flows, k, at[i]) => CountersAt(samples, start, at, i))
  }

  function Reported(samples: seq<Sampling>, k: FlowKey, start: nat, at: seq<nat>): seq<Bytes>
    requires Tracks(samples, k, start, at)
  {
    seq(|at|, i requires 0 <= i < |at| && OnlyAt(samples[start + i].flows, k, at[i]) =>
      WindowDelta(samples, start + i, at[i]))
  }

  function Total(bs: seq<Bytes>): Bytes {
    if bs == [] then ZERO else Add(Total(bs[..|bs| - 1]), bs[|bs| - 1])
  }

  /** The values that were thrown away when a counter started again. */
  function Lost(cs: seq<Bytes>): Bytes {
    if |cs| < 2 then ZERO
    else
      var was, now := cs[|cs| - 2], cs[|cs| - 1];
      Add(Lost(cs[..|cs| - 1]),
          Bytes(if now.up < was.up then was.up else 0, if now.down < was.down then was.down else 0))
  }

  predicate GrowsFrom(base: Bytes, cs: seq<Bytes>, ds: seq<Bytes>) {
    && |cs| == |ds| >= 1
    && Add(ds[0], base) == cs[0]
    && forall i :: 1 <= i < |cs| ==>
         ds[i] == Bytes(Growth(cs[i - 1].up, cs[i].up), Growth(cs[i - 1].down, cs[i].down))
  }

  lemma {:induction false} SumsTelescope(base: Bytes, cs: seq<Bytes>, ds: seq<Bytes>)
    requires GrowsFrom(base, cs, ds)
    ensures Add(Total(ds), base) == Add(cs[|cs| - 1], Lost(cs))
  {
    var l := |cs| - 1;
    if l == 0 {
      assert ds[..0] == [];
    } else {
      SumsTelescope(base, cs[..l], ds[..l]);
      GrowthAddsUp(cs[l - 1].up, cs[l].up);
      GrowthAddsUp(cs[l - 1].down, cs[l].down);
    }
  }

  predicate NeverDown(cs: seq<Bytes>) {
    forall i :: 1 <= i < |cs| ==> cs[i - 1].up <= cs[i].up && cs[i - 1].down <= cs[i].down
  }

  /** Counters that never go down lose nothing. */
  lemma {:induction false} NothingLost(cs: seq<Bytes>)
    requires NeverDown(cs)
    ensures Lost(cs) == ZERO
  {
    if |cs| >= 2 {
      NothingLost(cs[..|cs| - 1]);
    }
  }

  /** The deltas of a flow add up to its last counter less the baseline, plus
      whatever value each restart threw away. The baseline is the first counter
      when the flow was there in the very first sample, and zero for a flow that
      was not there, or not watched, in the sample before. */
  lemma DeltasTelescope(samples: seq<Sampling>, k: FlowKey, start: nat, at: seq<nat>)
    requires Tracks(samples, k, start, at) && at != []
    requires start > 0 ==> Unseen(samples[start - 1].clients, samples[start - 1].flows, k)
    ensures var cs := Series(samples, k, start, at);
            var base := if start == 0 then cs[0] else ZERO;
            Add(Total(Reported(samples, k, start, at)), base) == Add(cs[|cs| - 1], Lost(cs))
  {
    var cs, ds := Series(samples, k, start, at), Reported(samples, k, start, at);
    var base := if start == 0 then cs[0] else ZERO;
    FirstWindow(samples, k, start, at);
    forall i | 1 <= i < |at|
      ensures ds[i] == Bytes(Growth(cs[i - 1].up, cs[i].up), Growth(cs[i - 1].down, cs[i].down))
    {
      LaterWindow(samples, k, start, at, i);
    }
    SumsTelescope(base, cs, ds);
  }

  /** With counters that never go down, exactly the last one less the baseline. */
  lemma SteadyDeltasTelescope(samples: seq<Sampling>, k: FlowKey, start: nat, at: seq<nat>)
    requires Tracks(samples, k, start, at) && at != []
    requires start > 0 ==> Unseen(samples[start - 1].clients, samples[start - 1].flows, k)
    requires NeverDown(Series(samples, k, start, at))
    ensures var cs := Series(samples, k, start, at);
            var base := if start == 0 then cs[0] else ZERO;
            Add(Total(Reported(samples, k, start, at)), base) == cs[|cs| - 1]
  {
    DeltasTelescope(samples, k, start, at);
    NothingLost(Series(samples, k, start, at));
  }

  lemma FirstWindow(samples: seq<Sampling>, k: FlowKey, start: nat, at: seq<nat>)
    requires Tracks(samples, k, start, at) && at != []
    requires start > 0 ==> Unseen(samples[start - 1].clients, samples[start - 1].flows, k)
    ensures WindowDelta(samples, start, at[0]) ==
            if start == 0 then ZERO else CountersAt(samples, start, at, 0)
  {
    var before := samples[..start];
    assert OnlyAt(samples[start + 0].flows, k, at[0]);
    if start > 0 {
      assert before[|before| - 1] == samples[start - 1];
      LatestHolds(PrevAfter(before[..start - 1]), samples[start - 1].clients, samples[start - 1].flows, k);
    }
  }

  lemma GrowthAddsUp(was: nat, now: nat)
    ensures Growth(was, now) + was == now + if now < was then was else 0
  {
  }

  lemma LaterWindow(samples: seq<Sampling>, k: FlowKey, start: nat, at: seq<nat>, i: nat)
    requires Tracks(samples, k, start, at) && 1 <= i < |at|
    ensures var was, now := CountersAt(samples, start, at, i - 1), CountersAt(samples, start, at, i);
            WindowDelta(samples, start + i, at[i]) ==
            Bytes(Growth(was.up, now.up), Growth(was.down, now.down))
  {
    var before := samples[..start + i];
    var j := i - 1;
    assert before[|before| - 1] == samples[start + j];
    assert OnlyAt(samples[start + j].flows, k, at[j]) && Watched(samples[start + j].clients, samples[start + j].flows[at[j]]);
    assert OnlyAt(samples[start + i].flows, k, at[i]);
    LatestHolds(PrevAfter(before[..|before| - 1]), samples[start + j].clients, samples[start + j].flows, k);
  }
}
