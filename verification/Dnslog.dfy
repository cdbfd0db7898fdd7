/** DnslogTailer: reading a growing, rotating log in passes. The log is ASCII, so
    a byte is a character. */
module Dnslog {
  import opened Lines
  import opened Options

  const MAX_PARTIAL_LINE: nat := 1024 * 1024
  const QUEUE_SIZE: nat := 2000

  /** A persisted cursor; a missing inode is read back as 0, which no file has. */
  datatype Cursor = Cursor(inode: nat, offset: nat)
  datatype Stat = Stat(inode: nat, size: nat)

  /** Where a tailer without a cursor of its own begins to read. */
  function StartOf(resume: Option<Cursor>, st: Stat): nat {
    if resume == None then st.size
    else
      var at := if resume.value.inode == st.inode then resume.value.offset else 0;
      if at < st.size then at else st.size
  }

  function Parsed<Event>(parse: string -> Option<Event>, lines: seq<string>): seq<Event> {
    if lines == [] then []
    else
      Parsed(parse, lines[..|lines| - 1])
      + match parse(lines[|lines| - 1]) { case Some(e) => [e] case None => [] }
  }

  function Room(queued: nat): nat { if queued < QUEUE_SIZE then QUEUE_SIZE - queued else 0 }

  /** The first events, as many as still fit. */
  function Fitting<Event>(events: seq<Event>, queued: nat): seq<Event> {
    if |events| <= Room(queued) then events else events[..Room(queued)]
  }

  // fh.seek(offset); fh.read()
  function ReadFrom(text: string, offset: nat): string {
    if offset <= |text| then text[offset..] else []
  }

  /** A stretch of reading: where it began, what was read, the complete lines so
      far and the unfinished one. */
  datatype Progress = Progress(start: nat, history: string, lines: seq<string>, partial: string) {
    ghost predicate IsSplit() {
      Split(StripNul(history)) == lines + [partial]
    }
  }

  function Whole(p: Progress, chunk: string): string {
    p.partial + StripNul(chunk)
  }

  function NewLines(p: Progress, chunk: string): seq<string> {
    if |Whole(p, chunk)| > MAX_PARTIAL_LINE then [] else Complete(Whole(p, chunk))
  }

  /** After one more chunk; a buffer over the limit is thrown away. */
  function Extended(p: Progress, chunk: string): Progress {
    if |Whole(p, chunk)| > MAX_PARTIAL_LINE
    then Progress(p.start + |p.history| + |chunk|, [], [], [])
    else Progress(p.start, p.history + chunk, p.lines + Complete(Whole(p, chunk)), Pending(Whole(p, chunk)))
  }

  lemma ExtendedIsSplit(p: Progress, chunk: string)
    requires p.IsSplit()
    ensures Extended(p, chunk).IsSplit()
  {
    if |Whole(p, chunk)| <= MAX_PARTIAL_LINE {
      StripConcat(p.history, chunk);
      SplitConcat(StripNul(p.history), StripNul(chunk));
      assert Complete(StripNul(p.history)) == p.lines;
      assert Pending(StripNul(p.history)) == p.partial;
      var s := Split(Whole(p, chunk));
      assert s == s[..|s| - 1] + [s[|s| - 1]];
    }
  }

  class DnslogTailer<Event(==)> {
    const parse: string -> Option<Event>
    const resume: Option<Cursor>
    var inode: Option<nat>
    var offset: nat
    var partial: string
    var q: seq<Event>

    // Since the last restart: where reading began, what was read, the lines it gave.
    ghost var start: nat
    ghost var history: string
    ghost var lines: seq<string>
    // Since the tailer was made: events parsed, events handed out, and whether
    // the full queue ever cost an event.
    ghost var offered: seq<Event>
    ghost var drained: seq<Event>
    ghost var lossless: bool

    ghost predicate Valid()
      reads this
    {
      && Progress(start, history, lines, partial).IsSplit()
      && offset == start + |history|
      && |q| <= QUEUE_SIZE
      && Subsequence(drained + q, offered)
      && (lossless ==> drained + q == offered)
      && (inode == None ==> offset == 0)
    }

    constructor (parse: string -> Option<Event>, resume: Option<Cursor>)
      ensures Valid() && inode == None && q == [] && drained == [] && offered == [] && lossless
      ensures this.parse == parse && this.resume == resume && offset == 0 && history == []
    {
      this.parse, this.resume := parse, resume;
      inode, offset, partial, q := None, 0, [], [];
      start, history, lines := 0, [], [];
      offered, drained, lossless := [], [], true;
    }

    ghost function Now(): Progress
      reads this
    {
      Progress(start, history, lines, partial)
    }

    /** A new history starts when there is no cursor yet, the inode is another
        one, or the file is shorter than the cursor. */
    ghost predicate Restarts(st: Stat)
      reads this
    {
      inode == None || inode != Some(st.inode) || offset > st.size
    }

    ghost function Begin(st: Stat): nat
      reads this
    {
      if inode == None then StartOf(resume, st)
      else if Restarts(st) then 0
      else offset
    }

    ghost function Kept(st: Stat): Progress
      reads this
    {
      if Restarts(st) then Progress(Begin(st), [], [], []) else Now()
    }

    /** The cursor of a pass, before it reads. */
    method Reposition(st: Stat)
      requires Valid()
      modifies this`inode, this`offset, this`partial, this`start, this`history, this`lines
      ensures Valid() && inode == Some(st.inode)
      ensures offset == old(Begin(st)) && Now() == old(Kept(st))
    {
      if inode == None {
        inode := Some(st.inode);
        if resume == None {
          offset := st.size;
        } else {
          offset := if resume.value.inode == st.inode then resume.value.offset else 0;
          if offset > st.size {
            offset := st.size;
          }
        }
        partial := [];
        start, history, lines := offset, [], [];
      } else if inode != Some(st.inode) || offset > st.size {
        inode, offset, partial := Some(st.inode), 0, [];
        start, history, lines := 0, [], [];
      }
    }

    /** One read pass: `st` is the file when it was examined and `text` its
        contents when it was read. */
    method ReadPass(st: Stat, text: string)
      requires Valid()
      modifies this
      ensures Valid() && inode == Some(st.inode) && drained == old(drained)
      ensures var from, kept := old(Begin(st)), old(Kept(st));
              var chunk := ReadFrom(text, from);
              var gained := if from < st.size then NewLines(kept, chunk) else [];
              && offset == (if from < st.size then from + |chunk| else from)
              && Now() == (if from < st.size then Extended(kept, chunk) else kept)
              && offered == old(offered) + Parsed(parse, gained)
              && q == old(q) + Fitting(Parsed(parse, gained), |old(q)|)
              && lossless == (old(lossless) && |old(q)| + |Parsed(parse, gained)| <= QUEUE_SIZE)
    {
      Reposition(st);
      if offset < st.size {
        Consume(ReadFrom(text, offset));
      }
    }

    /** What was read goes behind the unfinished line, and complete lines come out. */
    method Consume(raw: string)
      requires Valid() && inode.Some?
      modifies this`offset, this`partial, this`q, this`start, this`history, this`lines, this`offered, this`lossless
      ensures Valid() && offset == old(offset) + |raw| && Now() == Extended(old(Now()), raw)
      ensures offered == old(offered) + Parsed(parse, NewLines(old(Now()), raw))
      ensures q == old(q) + Fitting(Parsed(parse, NewLines(old(Now()), raw)), |old(q)|)
      ensures lossless == (old(lossless) && |old(q)| + |Parsed(parse, NewLines(old(Now()), raw))| <= QUEUE_SIZE)
    {
      var whole := partial + StripNul(raw);
      ExtendedIsSplit(Now(), raw);
      offset := offset + |raw|;
      if |whole| > MAX_PARTIAL_LINE {
        partial := [];
        start, history, lines := offset, [], [];
      } else {
        TakeIn(whole, raw);
      }
    }

    /** Splitting what fits: the complete lines go to the queue. */
    method TakeIn(whole: string, ghost raw: string)
      requires whole == Whole(Now(), raw) && |whole| <= MAX_PARTIAL_LINE
      requires inode.Some? && offset == start + |history| + |raw| && Extended(Now(), raw).IsSplit()
      requires |q| <= QUEUE_SIZE && Subsequence(drained + q, offered) && (lossless ==> drained + q == offered)
      modifies this`partial, this`q, this`history, this`lines, this`offered, this`lossless
      ensures Valid() && Now() == Extended(old(Now()), raw)
      ensures offered == old(offered) + Parsed(parse, NewLines(old(Now()), raw))
      ensures q == old(q) + Fitting(Parsed(parse, NewLines(old(Now()), raw)), |old(q)|)
      ensures lossless == (old(lossless) && |old(q)| + |Parsed(parse, NewLines(old(Now()), raw))| <= QUEUE_SIZE)
    {
      ghost var e := Extended(Now(), raw);
      var pieces := Split(whole);
      var complete := pieces[..|pieces| - 1];
      assert complete == Complete(whole) && pieces[|pieces| - 1] == Pending(whole);
      partial := pieces[|pieces| - 1];
      history, lines := history + raw, lines + complete;
      assert Now() == e;
      Offer(complete);
    }

    /** The events of complete lines, offered to the queue. */
    method Offer(pieces: seq<string>)
      requires Valid()
      modifies this`q, this`offered, this`lossless
      ensures Valid() && offered == old(offered) + Parsed(parse, pieces)
      ensures q == old(q) + Fitting(Parsed(parse, pieces), |old(q)|)
      ensures lossless == (old(lossless) && |old(q)| + |Parsed(parse, pieces)| <= QUEUE_SIZE)
    {
      Push(pieces);
      FittingIsSubsequence(old(drained), old(q), old(offered), Parsed(parse, pieces));
      offered := offered + Parsed(parse, pieces);
      lossless := lossless && |old(q)| + |Parsed(parse, pieces)| <= QUEUE_SIZE;
    }

    /** The loop over the complete lines; a full queue ends it. */
    method Push(pieces: seq<string>)
      requires |q| <= QUEUE_SIZE
      modifies this`q
      ensures q == old(q) + Fitting(Parsed(parse, pieces), |old(q)|)
    {
      ghost var all := Parsed(parse, pieces);
      var i := 0;
      while i < |pieces|
        invariant 0 <= i <= |pieces|
        invariant q == old(q) + Parsed(parse, pieces[..i])
        invariant |q| <= QUEUE_SIZE
      {
        ParsedPrefix(parse, pieces, i);
        ParsedPrefix(parse, pieces, i + 1);
        assert pieces[..i + 1][..i] == pieces[..i];
        var ev := parse(pieces[i]);
        if ev.Some? {
          if |q| >= QUEUE_SIZE {
            ghost var sofar := Parsed(parse, pieces[..i]);
            assert |all| > |sofar| == Room(|old(q)|) && all[..|sofar|] == sofar;
            return;
          }
          q := q + [ev.value];
        }
        i := i + 1;
      }
      assert pieces[..|pieces|] == pieces;
    }

    method DrainEvents() returns (out: seq<Event>)
      requires Valid()
      modifies this`q, this`drained
      ensures Valid() && out == old(q) && q == [] && drained == old(drained) + out
    {
      out := [];
      while q != []
        invariant out + q == old(q) && drained == old(drained)
        decreases |q|
      {
        out := out + [q[0]];
        q := q[1..];
      }
      assert out + [] == out;
      drained := drained + out;
      assert drained + q == old(drained + q);
    }

    /** A tailer that resumes from the snapshot goes on where this one stopped, or at
        the end of a shorter file, or at 0 in another file. One that had no cursor
        makes it begin at 0. */
    method StateSnapshot() returns (c: Cursor)
      requires Valid()
      ensures forall st: Stat :: st.inode > 0 ==>
                StartOf(Some(c), st) ==
                if inode != Some(st.inode) then 0 else if offset < st.size then offset else st.size
    {
      c := Cursor(if inode.Some? then inode.value else 0, offset);
    }
  }

  /** A first start leaves alone what was logged before. A snapshot that was taken
      before there was a file undoes that: the next start reads everything, so the two
      agree only on an empty log. */
  lemma EmptySnapshotRereads(st: Stat)
    requires st.inode > 0
    ensures StartOf(Some(Cursor(0, 0)), st) == 0
    ensures StartOf(Some(Cursor(0, 0)), st) == StartOf(None, st) <==> st.size == 0
  {
  }

  lemma {:induction false} ParsedPrefix<Event>(parse: string -> Option<Event>, lines: seq<string>, k: nat)
    requires k <= |lines|
    ensures Parsed(parse, lines[..k]) <= Parsed(parse, lines)
    decreases |lines|
  {
    if k == |lines| {
      assert lines[..k] == lines;
    } else {
      assert lines[..|lines| - 1][..k] == lines[..k];
      ParsedPrefix(parse, lines[..|lines| - 1], k);
    }
  }

  /** What the queue takes in keeps the hand-out an ordered part of what was
      parsed, and all of it while nothing had to be dropped. */
  lemma FittingIsSubsequence<Event>(drained: seq<Event>, q: seq<Event>, offered: seq<Event>, events: seq<Event>)
    requires Subsequence(drained + q, offered)
    ensures Subsequence(drained + (q + Fitting(events, |q|)), offered + events)
    ensures |q| <= QUEUE_SIZE ==> |q + Fitting(events, |q|)| <= QUEUE_SIZE
    ensures drained + q == offered && |q| + |events| <= QUEUE_SIZE ==>
            drained + (q + Fitting(events, |q|)) == offered + events
  {
    var added := Fitting(events, |q|);
    PrefixIsSubsequence(events, |added|);
    assert events[..|added|] == added;
    SubsequenceConcat(drained + q, offered, added, events);
    assert drained + q + added == drained + (q + added);
  }

  /** While the file only grows, the history is a stretch of the file, and each
      pass brings it up to the end. */
  lemma GrowingFileKeepsHistory(p: Progress, text: string)
    requires p.start + |p.history| <= |text| && p.history == text[p.start..p.start + |p.history|]
    ensures var e := Extended(p, ReadFrom(text, p.start + |p.history|));
            e.start + |e.history| == |text| && e.history == text[e.start..|text|]
  {
    var at := p.start + |p.history|;
    assert text[p.start..at] + text[at..] == text[p.start..|text|];
  }

  // ---- Any cut of one text ----------------------------------------------------------------

  function Joined(chunks: seq<string>): string {
    if chunks == [] then [] else Joined(chunks[..|chunks| - 1]) + chunks[|chunks| - 1]
  }

  function AfterPasses(p: Progress, chunks: seq<string>): Progress {
    if chunks == [] then p else Extended(AfterPasses(p, chunks[..|chunks| - 1]), chunks[|chunks| - 1])
  }

  /** No pass ever holds more than the limit, the pending line included. */
  predicate Fits(p: Progress, chunks: seq<string>) {
    chunks != [] ==>
      var l := |chunks| - 1;
      Fits(p, chunks[..l]) && |Whole(AfterPasses(p, chunks[..l]), chunks[l])| <= MAX_PARTIAL_LINE
  }

  /** However a text is cut into passes, the lines given out and the pending line
      are its one-shot split, each line once and in order. */
  lemma {:induction false} AnyCutIsOneSplit(start: nat, chunks: seq<string>)
    requires Fits(Progress(start, [], [], []), chunks)
    ensures var e := AfterPasses(Progress(start, [], [], []), chunks);
            && e.start == start && e.history == Joined(chunks)
            && e.lines + [e.partial] == Split(StripNul(Joined(chunks)))
  {
    if chunks != [] {
      var l := |chunks| - 1;
      AnyCutIsOneSplit(start, chunks[..l]);
      ExtendedIsSplit(AfterPasses(Progress(start, [], [], []), chunks[..l]), chunks[l]);
    }
  }

  /** So two ways of cutting one text give the same lines. */
  lemma CutsAgree(start: nat, a: seq<string>, b: seq<string>)
    requires Joined(a) == Joined(b)
    requires Fits(Progress(start, [], [], []), a) && Fits(Progress(start, [], [], []), b)
    ensures AfterPasses(Progress(start, [], [], []), a) == AfterPasses(Progress(start, [], [], []), b)
  {
    AnyCutIsOneSplit(start, a);
    AnyCutIsOneSplit(start, b);
    var x, y := AfterPasses(Progress(start, [], [], []), a), AfterPasses(Progress(start, [], [], []), b);
    SnocInjective(x.lines, x.partial, y.lines, y.partial);
  }

  lemma SnocInjective(a: seq<string>, x: string, b: seq<string>, y: string)
    requires a + [x] == b + [y]
    ensures a == b && x == y
  {
    assert (a + [x])[..|a|] == a && (b + [y])[..|b|] == b;
    assert (a + [x])[|a|] == x && (b + [y])[|b|] == y;
  }
}
