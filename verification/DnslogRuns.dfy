/** Runs of the polling loop: what the tailer has read, given out and kept after any
    sequence of turns, over appends, rotations and truncations. */
module DnslogRuns {
  import opened Options
  import opened Lines
  import opened Dnslog

  /** One turn of the loop: the file when it was examined, and its text when it was
      read a moment later. */
  datatype Pass = Pass(st: Stat, text: string) {
    predicate Possible() { st.size <= |text| }
  }

  function Fresh(start: nat): Progress {
    Progress(start, [], [], [])
  }

  /** Where a run stands. The current stretch began in turn `base`, at offset `first`,
      when the lines `before` had been given out; `chunks` is what was read since, and
      `out` are all lines given out so far. */
  datatype Reading = Reading(
    inode: Option<nat>, base: nat, first: nat, before: seq<string>,
    chunks: seq<string>, offset: nat, now: Progress, out: seq<string>)

  const NOTHING_READ: Reading := Reading(None, 0, 0, [], [], 0, Progress(0, [], [], []), [])

  predicate Restarts(r: Reading, st: Stat) {
    r.inode == None || r.inode != Some(st.inode) || r.offset > st.size
  }

  function FromOf(resume: Option<Cursor>, r: Reading, st: Stat): nat {
    if r.inode == None then StartOf(resume, st) else if Restarts(r, st) then 0 else r.offset
  }

  /** The stretch in which turn number `turn` reads, before it reads. */
  function Stretch(resume: Option<Cursor>, r: Reading, st: Stat, turn: nat): Reading {
    var from := FromOf(resume, r, st);
    if Restarts(r, st) then Reading(Some(st.inode), turn, from, r.out, [], from, Fresh(from), r.out)
    else r
  }

  function Taken(r: Reading, chunk: string): Reading {
    r.(chunks := r.chunks + [chunk], offset := r.offset + |chunk|, now := Extended(r.now, chunk),
       out := r.out + NewLines(r.now, chunk))
  }

  function Turned(resume: Option<Cursor>, r: Reading, p: Pass, turn: nat): Reading {
    var s := Stretch(resume, r, p.st, turn);
    if s.offset < p.st.size then Taken(s, ReadFrom(p.text, s.offset)) else s
  }

  function ReadingAfter(resume: Option<Cursor>, passes: seq<Pass>): Reading {
    if passes == [] then NOTHING_READ
    else
      var l := |passes| - 1;
      Turned(resume, ReadingAfter(resume, passes[..l]), passes[l], l)
  }

  // ---- The loop --------------------------------------------------------------------------

  ghost predicate Mirrors<Event>(t: DnslogTailer<Event>, r: Reading)
    reads t
  {
    t.inode == r.inode && (t.inode.Some? ==> t.offset == r.offset && t.Now() == r.now)
  }

  /** What a run has made of a tailer that began it with these events offered and
      queued. */
  ghost predicate RunsTo<Event>(t: DnslogTailer<Event>, offered: seq<Event>, q: seq<Event>, r: Reading)
    reads t
  {
    && t.offered == offered + Parsed(t.parse, r.out)
    && t.q == q + Fitting(Parsed(t.parse, r.out), |q|)
  }

  method OneTurn<Event>(
    t: DnslogTailer<Event>, ghost r: Reading, p: Pass, ghost turn: nat, ghost offered: seq<Event>, ghost q: seq<Event>)
    requires t.Valid() && Mirrors(t, r) && RunsTo(t, offered, q, r)
    modifies t
    ensures t.Valid() && t.drained == old(t.drained)
    ensures Mirrors(t, Turned(t.resume, r, p, turn)) && RunsTo(t, offered, q, Turned(t.resume, r, p, turn))
  {
    ghost var s := Stretch(t.resume, r, p.st, turn);
    ghost var gained := if s.offset < p.st.size then NewLines(s.now, ReadFrom(p.text, s.offset)) else [];
    assert s.offset == t.Begin(p.st) && s.now == t.Kept(p.st) && s.out == r.out;
    assert Turned(t.resume, r, p, turn).out == r.out + gained;
    MoreOut(t.parse, offered, q, r.out, gained);
    t.ReadPass(p.st, p.text);
  }

  lemma MoreOut<Event>(
    parse: string -> Option<Event>, offered: seq<Event>, q: seq<Event>, out: seq<string>, gained: seq<string>)
    ensures var queued := q + Fitting(Parsed(parse, out), |q|);
            && offered + Parsed(parse, out) + Parsed(parse, gained) == offered + Parsed(parse, out + gained)
            && queued + Fitting(Parsed(parse, gained), |queued|) == q + Fitting(Parsed(parse, out + gained), |q|)
  {
    var a, b := Parsed(parse, out), Parsed(parse, gained);
    ParsedConcat(parse, out, gained);
    assert offered + a + b == offered + (a + b);
    FittingTwice(a, b, |q|);
    assert (q + Fitting(a, |q|)) + Fitting(b, |q| + |Fitting(a, |q|)|) == q + Fitting(a + b, |q|);
  }

  lemma NextReading(resume: Option<Cursor>, passes: seq<Pass>, i: nat)
    requires i < |passes|
    ensures ReadingAfter(resume, passes[..i + 1]) == Turned(resume, ReadingAfter(resume, passes[..i]), passes[i], i)
  {
    assert passes[..i + 1][..i] == passes[..i];
  }

  /** After any turns the tailer stands where the run does; it has offered exactly the
      events of the lines given out, and queued as many of them as fit. */
  method Loop<Event>(t: DnslogTailer<Event>, passes: seq<Pass>)
    requires t.Valid() && t.inode == None
    modifies t
    ensures t.Valid() && t.drained == old(t.drained)
    ensures Mirrors(t, ReadingAfter(t.resume, passes))
    ensures RunsTo(t, old(t.offered), old(t.q), ReadingAfter(t.resume, passes))
  {
    NothingGivenOut(t.parse, t.offered, t.q);
    for i := 0 to |passes|
      invariant t.Valid() && t.drained == old(t.drained)
      invariant Mirrors(t, ReadingAfter(t.resume, passes[..i]))
      invariant RunsTo(t, old(t.offered), old(t.q), ReadingAfter(t.resume, passes[..i]))
    {
      NextReading(t.resume, passes, i);
      OneTurn(t, ReadingAfter(t.resume, passes[..i]), passes[i], i, old(t.offered), old(t.q));
    }
    assert passes[..|passes|] == passes;
  }

  lemma NothingGivenOut<Event>(parse: string -> Option<Event>, offered: seq<Event>, q: seq<Event>)
    ensures offered + Parsed(parse, []) == offered && q + Fitting(Parsed(parse, []), |q|) == q
  {
  }

  lemma {:induction false} ParsedConcat<Event>(parse: string -> Option<Event>, a: seq<string>, b: seq<string>)
    ensures Parsed(parse, a + b) == Parsed(parse, a) + Parsed(parse, b)
  {
    if b == [] {
      assert a + b == a;
    } else {
      var l := |b| - 1;
      ParsedConcat(parse, a, b[..l]);
      assert (a + b)[..|a + b| - 1] == a + b[..l];
    }
  }

  lemma FittingTwice<Event>(a: seq<Event>, b: seq<Event>, queued: nat)
    ensures Fitting(a, queued) + Fitting(b, queued + |Fitting(a, queued)|) == Fitting(a + b, queued)
  {
  }

  // ---- What was read is one stretch of the file -------------------------------------------------

  /** What can happen to the log between two turns: it was appended to, replaced, or
      cut shorter than it was. */
  predicate Linked(a: Pass, b: Pass) {
    b.st.inode != a.st.inode || b.st.size < a.st.size || a.text <= b.text
  }

  predicate AllLinked(passes: seq<Pass>) {
    && (forall i :: 0 <= i < |passes| ==> passes[i].Possible())
    && (forall i :: 1 <= i < |passes| ==> Linked(passes[i - 1], passes[i]))
  }

  /** The chunks since the last restart are the file from `first` to the cursor. */
  predicate IsStretch(r: Reading, p: Pass) {
    && r.inode == Some(p.st.inode)
    && p.st.size <= r.offset <= |p.text| && r.first <= r.offset
    && Joined(r.chunks) == p.text[r.first..r.offset]
  }

  /** The stretch is read chunk by chunk, and while it fits the limit every line of it
      is given out. */
  predicate IsRead(r: Reading) {
    && r.now == AfterPasses(Fresh(r.first), r.chunks)
    && (Fits(Fresh(r.first), r.chunks) ==> r.out == r.before + r.now.lines)
  }

  lemma TakenIsRead(r: Reading, chunk: string)
    requires IsRead(r)
    ensures IsRead(Taken(r, chunk))
  {
    var r' := Taken(r, chunk);
    assert r'.chunks[..|r.chunks|] == r.chunks;
    if Fits(Fresh(r'.first), r'.chunks) {
      assert r.before + r.now.lines + NewLines(r.now, chunk) == r.before + (r.now.lines + NewLines(r.now, chunk));
    }
  }

  lemma FreshIsRead(inode: Option<nat>, base: nat, first: nat, out: seq<string>)
    ensures IsRead(Reading(inode, base, first, out, [], first, Fresh(first), out))
  {
    assert out + [] == out;
  }

  lemma {:induction false} EveryRunIsRead(resume: Option<Cursor>, passes: seq<Pass>)
    ensures IsRead(ReadingAfter(resume, passes))
  {
    if passes == [] {
      FreshIsRead(None, 0, 0, []);
    } else {
      var l := |passes| - 1;
      var r, p := ReadingAfter(resume, passes[..l]), passes[l];
      EveryRunIsRead(resume, passes[..l]);
      var s := Stretch(resume, r, p.st, l);
      if Restarts(r, p.st) {
        FreshIsRead(s.inode, s.base, s.first, s.out);
      }
      TakenIsRead(s, ReadFrom(p.text, s.offset));
    }
  }

  lemma TakenIsStretch(s: Reading, p: Pass)
    requires p.Possible() && s.inode == Some(p.st.inode) && s.first <= s.offset < p.st.size
    requires Joined(s.chunks) == p.text[s.first..s.offset]
    ensures IsStretch(Taken(s, ReadFrom(p.text, s.offset)), p)
  {
    var chunk := ReadFrom(p.text, s.offset);
    assert (s.chunks + [chunk])[..|s.chunks|] == s.chunks;
    assert p.text[s.first..s.offset] + p.text[s.offset..] == p.text[s.first..|p.text|];
  }

  lemma FirstTurnIsStretch(resume: Option<Cursor>, r: Reading, p: Pass, turn: nat)
    requires p.Possible() && Restarts(r, p.st)
    ensures IsStretch(Turned(resume, r, p, turn), p)
  {
    var s := Stretch(resume, r, p.st, turn);
    assert Joined(s.chunks) == p.text[s.first..s.offset];
    if s.offset < p.st.size {
      TakenIsStretch(s, p);
    }
  }

  lemma LaterTurnIsStretch(resume: Option<Cursor>, r: Reading, prev: Pass, p: Pass, turn: nat)
    requires p.Possible() && !Restarts(r, p.st) && IsStretch(r, prev) && Linked(prev, p)
    ensures IsStretch(Turned(resume, r, p, turn), p)
  {
    assert prev.text == p.text[..|prev.text|];
    assert Joined(r.chunks) == p.text[r.first..r.offset];
    if r.offset < p.st.size {
      TakenIsStretch(r, p);
    }
  }

  lemma {:induction false} EveryRunIsStretch(resume: Option<Cursor>, passes: seq<Pass>)
    requires passes != [] && AllLinked(passes)
    ensures IsStretch(ReadingAfter(resume, passes), passes[|passes| - 1])
  {
    var l := |passes| - 1;
    var r, p := ReadingAfter(resume, passes[..l]), passes[l];
    NextReading(resume, passes, l);
    assert passes[..l + 1] == passes;
    if Restarts(r, p.st) {
      FirstTurnIsStretch(resume, r, p, l);
    } else {
      EveryRunIsStretch(resume, passes[..l]);
      assert passes[..l][l - 1] == passes[l - 1] && Linked(passes[l - 1], p);
      LaterTurnIsStretch(resume, r, passes[l - 1], p, l);
    }
  }

  // ---- The one-shot split -----------------------------------------------------------------------

  /** Where the current stretch began: at the resume cursor in the first turn, and at 0
      after every rotation and every detected truncation. */
  lemma {:induction false} StretchesBegin(resume: Option<Cursor>, passes: seq<Pass>)
    requires passes != []
    ensures Begun(resume, passes, ReadingAfter(resume, passes))
  {
    var l := |passes| - 1;
    var earlier := passes[..l];
    NextReading(resume, passes, l);
    assert passes[..l + 1] == passes;
    if l > 0 {
      StretchesBegin(resume, earlier);
      assert earlier[..ReadingAfter(resume, earlier).base] == passes[..ReadingAfter(resume, earlier).base];
    }
    TurnBegins(resume, ReadingAfter(resume, earlier), passes[l], l);
    HasInode(resume, earlier);
  }

  predicate Begun(resume: Option<Cursor>, passes: seq<Pass>, r: Reading)
    requires passes != []
  {
    && r.base < |passes|
    && r.first == (if r.base == 0 then StartOf(resume, passes[0].st) else 0)
    && r.before == ReadingAfter(resume, passes[..r.base]).out
  }

  lemma TurnBegins(resume: Option<Cursor>, r: Reading, p: Pass, turn: nat)
    ensures var r' := Turned(resume, r, p, turn);
            if Restarts(r, p.st) then r'.base == turn && r'.first == FromOf(resume, r, p.st) && r'.before == r.out
            else r'.base == r.base && r'.first == r.first && r'.before == r.before
  {
  }

  lemma HasInode(resume: Option<Cursor>, passes: seq<Pass>)
    ensures ReadingAfter(resume, passes).inode == None <==> passes == []
  {
    if passes != [] {
      NextReading(resume, passes, |passes| - 1);
      assert passes[..|passes|] == passes;
    }
  }

  /** After any run over appends, rotations and detected truncations: as long as the
      current stretch fits the limit, the lines given out since it began and the
      pending line are the one-shot newline split of the NUL-stripped file between its
      start and the cursor, each line once and in order. */
  lemma RunIsOneSplit(resume: Option<Cursor>, passes: seq<Pass>)
    requires passes != [] && AllLinked(passes)
    requires Fits(Fresh(ReadingAfter(resume, passes).first), ReadingAfter(resume, passes).chunks)
    ensures var r := ReadingAfter(resume, passes);
            var text := passes[|passes| - 1].text;
            && passes[|passes| - 1].st.size <= r.offset <= |text| && r.first <= r.offset
            && r.out == r.before + Complete(StripNul(text[r.first..r.offset]))
            && r.now.partial == Pending(StripNul(text[r.first..r.offset]))
  {
    var r := ReadingAfter(resume, passes);
    EveryRunIsRead(resume, passes);
    EveryRunIsStretch(resume, passes);
    AnyCutIsOneSplit(r.first, r.chunks);
    var whole := StripNul(Joined(r.chunks));
    SnocInjective(r.now.lines, r.now.partial, Complete(whole), Pending(whole));
  }

  /** The file only grows, and every turn sees at least what the turn before read. */
  predicate AppendOnly(passes: seq<Pass>) {
    && (forall i :: 0 <= i < |passes| ==> passes[i].Possible())
    && forall i :: 1 <= i < |passes| ==>
         passes[i].st.inode == passes[i - 1].st.inode
         && |passes[i - 1].text| <= passes[i].st.size && passes[i - 1].text <= passes[i].text
  }

  lemma {:induction false} AppendsNeverRestart(resume: Option<Cursor>, passes: seq<Pass>)
    requires passes != [] && AppendOnly(passes)
    ensures AllLinked(passes) && ReadingAfter(resume, passes).base == 0 && ReadingAfter(resume, passes).before == []
  {
    var l := |passes| - 1;
    if l > 0 {
      AppendsNeverRestart(resume, passes[..l]);
      EveryRunIsStretch(resume, passes[..l]);
      assert passes[..l][l - 1] == passes[l - 1];
    }
  }

  /** On a log that only grows, from any resume cursor: everything ever given out is
      the one-shot split of the file from where the tailer started. */
  lemma AppendOnlyRunIsOneSplit(resume: Option<Cursor>, passes: seq<Pass>)
    requires passes != [] && AppendOnly(passes)
    requires Fits(Fresh(StartOf(resume, passes[0].st)), ReadingAfter(resume, passes).chunks)
    ensures var r := ReadingAfter(resume, passes);
            var start := StartOf(resume, passes[0].st);
            var text := passes[|passes| - 1].text;
            && start <= r.offset && passes[|passes| - 1].st.size <= r.offset <= |text|
            && r.out == Complete(StripNul(text[start..r.offset]))
            && r.now.partial == Pending(StripNul(text[start..r.offset]))
  {
    AppendsNeverRestart(resume, passes);
    StretchesBegin(resume, passes);
    RunIsOneSplit(resume, passes);
  }
}
