/** One live transfer received by HTTP: the sender's socket loop, the download
    generator, the bounded queue between them and the hub's lock, interleaved at
    their await points. */
module LiveStream {

  const QUEUE_LIMIT: nat := 32

  type Payload = seq<int>
  datatype Item = Data(payload: Payload) | End

  /** Idle between messages; Putting while a chunk waits for room; TimedOut while
      unregistering after a put that took too long; Finishing while the
      end-of-file marker waits for room; Finished afterwards. */
  datatype Sender = Idle | Putting(payload: Payload) | TimedOut | Finishing | Finished

  datatype Reader = NotConnected | Reading | Leaving | Closing | Closed

  datatype State = State(
    sender: Sender,
    reader: Reader,
    queue: seq<Item>,
    registered: bool,          // the hub still maps the transfer to this queue
    delayedCleanup: bool,      // the cleanup that follows transfer-done is scheduled
    routed: seq<Payload>,      // payloads handed to this queue's put, in order
    dropped: seq<Payload>,     // the payload of a put that timed out
    yielded: seq<Payload>,     // what the HTTP response has carried
    clean: bool)               // no timeout, nobody cancelled or left early
  {
    /** finish_stream_queue holds the hub's lock while it waits for room. */
    predicate Locked() { sender == Finishing || reader == Closing }
    predicate HasRoom() { |queue| < QUEUE_LIMIT }
  }

  const START: State := State(Idle, NotConnected, [], true, false, [], [], [], true)

  datatype Event =
    | Chunk(payload: Payload)   // a binary message of the sender reaches the queue
    | PutDone
    | PutTimeout
    | UnregisterTimedOut
    | TransferDone              // the sender's transfer-done message
    | EndPut
    | DelayedCleanup
    | CancelOrLeave             // transfer-cancel, or one of the peers disconnects
    | Connect                   // the download request gets the queue, under the lock
    | Get                       // the generator takes one item
    | Abort                     // the download connection is closed early
    | CloseEnter                // the generator's finally clause takes the lock
    | ClosePut

  predicate Enabled(s: State, e: Event) {
    match e
    case Chunk(_) => s.sender == Idle && s.registered
    case PutDone => s.sender.Putting? && s.HasRoom()
    case PutTimeout => s.sender.Putting?
    case UnregisterTimedOut => s.sender == TimedOut && !s.Locked()
    case TransferDone => s.sender == Idle && !s.Locked()
    case EndPut => s.sender == Finishing && s.HasRoom()
    case DelayedCleanup => s.delayedCleanup && !s.Locked()
    case CancelOrLeave => !s.Locked()
    case Connect => s.reader == NotConnected && s.registered && !s.Locked()
    case Get => s.reader == Reading && s.queue != []
    case Abort => s.reader == Reading
    case CloseEnter => s.reader == Leaving && !s.Locked()
    case ClosePut => s.reader == Closing && s.HasRoom()
  }

  /** unregister_transfer: forget the queue and mark its end if there is room. */
  function Unregistered(s: State): State {
    if s.registered
    then s.(registered := false, queue := if s.HasRoom() then s.queue + [End] else s.queue)
    else s
  }

  function Next(s: State, e: Event): State
    requires Enabled(s, e)
  {
    match e
    case Chunk(p) => s.(sender := Putting(p), routed := s.routed + [p])
    case PutDone => s.(sender := Idle, queue := s.queue + [Data(s.sender.payload)])
    case PutTimeout => s.(sender := TimedOut, dropped := s.dropped + [s.sender.payload], clean := false)
    case UnregisterTimedOut => Unregistered(s).(sender := Idle)
    case TransferDone =>
      if s.registered then s.(sender := Finishing) else s.(sender := Finished, delayedCleanup := true)
    case EndPut => s.(sender := Finished, delayedCleanup := true, queue := s.queue + [End])
    case DelayedCleanup => Unregistered(s).(delayedCleanup := false)
    case CancelOrLeave => Unregistered(s).(clean := false)
    case Connect => s.(reader := Reading)
    case Get =>
      if s.queue[0].Data? then s.(yielded := s.yielded + [s.queue[0].payload], queue := s.queue[1..])
      else s.(reader := Leaving, queue := s.queue[1..])
    case Abort => s.(reader := Leaving, clean := false)
    case CloseEnter => s.(reader := if s.registered then Closing else Closed)
    case ClosePut => s.(reader := Closed, queue := s.queue + [End])
  }

  /** A run: every event is enabled when it happens. */
  predicate IsRun(es: seq<Event>)
    decreases |es|, 0
  {
    es != [] ==> IsRun(es[..|es| - 1]) && Enabled(After(es[..|es| - 1]), es[|es| - 1])
  }

  function After(es: seq<Event>): State
    requires IsRun(es)
    decreases |es|, 1
  {
    if es == [] then START else Next(After(es[..|es| - 1]), es[|es| - 1])
  }

  // ---- Nothing is lost, repeated or reordered ------------------------------------------

  function DataIn(q: seq<Item>): seq<Payload> {
    if q == [] then [] else (if q[0].Data? then [q[0].payload] else []) + DataIn(q[1..])
  }

  lemma GetTakesFirst(q: seq<Item>)
    requires q != []
    ensures DataIn(q) == (if q[0].Data? then [q[0].payload] else []) + DataIn(q[1..])
  {
  }

  lemma {:induction false} DataAppend(q: seq<Item>, x: Item)
    ensures DataIn(q + [x]) == DataIn(q) + if x.Data? then [x.payload] else []
  {
    GetTakesFirst(q + [x]);
    if q == [] {
      assert (q + [x])[1..] == [];
    } else {
      assert (q + [x])[1..] == q[1..] + [x];
      DataAppend(q[1..], x);
    }
  }

  function InHand(s: State): seq<Payload> {
    if s.sender.Putting? then [s.sender.payload] else []
  }

  /** Every payload handed to the queue is in exactly one place, and they are in
      the order in which they were routed. */
  predicate Balanced(s: State) {
    s.routed == s.yielded + (DataIn(s.queue) + (InHand(s) + s.dropped))
  }

  predicate Shape(s: State) {
    && |s.queue| <= QUEUE_LIMIT
    && (s.dropped != [] ==> !s.clean && (s.sender == TimedOut || (!s.registered && !s.sender.Putting?)))
    && (s.sender == Finishing ==> s.dropped == [] || !s.registered)
    && (s.sender == TimedOut ==> s.dropped != [])
    && (s.delayedCleanup ==> s.sender == Finished)
  }

  predicate Accounted(s: State) {
    Balanced(s) && Shape(s)
  }

  lemma UnregisterKeepsData(s: State)
    requires |s.queue| <= QUEUE_LIMIT
    ensures DataIn(Unregistered(s).queue) == DataIn(s.queue) && |Unregistered(s).queue| <= QUEUE_LIMIT
  {
    DataAppend(s.queue, End);
  }

  lemma StepKeepsShape(s: State, e: Event)
    requires Shape(s) && Enabled(s, e)
    ensures Shape(Next(s, e))
  {
    UnregisterKeepsData(s);
  }

  lemma SenderKeepsBalance(s: State, e: Event)
    requires Accounted(s) && Enabled(s, e) && (e.Chunk? || e.PutDone? || e.PutTimeout?)
    ensures Balanced(Next(s, e))
  {
    var d := DataIn(s.queue);
    if e.Chunk? {
      assert s.dropped == [] && InHand(s) == [];
      assert (s.yielded + (d + ([] + []))) + [e.payload] == s.yielded + (d + ([e.payload] + []));
    } else {
      var p := s.sender.payload;
      DataAppend(s.queue, Data(p));
      assert d + ([p] + s.dropped) == (d + [p]) + ([] + s.dropped);
      assert s.dropped == [] && [p] + [] == [] + ([] + [p]);
    }
  }

  lemma GetKeepsBalance(s: State)
    requires Accounted(s) && Enabled(s, Get)
    ensures Balanced(Next(s, Get))
  {
    GetTakesFirst(s.queue);
    var rest, d := InHand(s) + s.dropped, DataIn(s.queue[1..]);
    if s.queue[0].Data? {
      var p := s.queue[0].payload;
      assert s.yielded + (([p] + d) + rest) == (s.yielded + [p]) + (d + rest);
    } else {
      assert [] + d == d;
    }
  }

  lemma StepKeepsBalance(s: State, e: Event)
    requires Accounted(s) && Enabled(s, e)
    ensures Balanced(Next(s, e))
  {
    if e.Chunk? || e.PutDone? || e.PutTimeout? {
      SenderKeepsBalance(s, e);
    } else if e.Get? {
      GetKeepsBalance(s);
    } else {
      UnregisterKeepsData(s);
      DataAppend(s.queue, End);
    }
  }

  lemma StepKeepsAccount(s: State, e: Event)
    requires Accounted(s) && Enabled(s, e)
    ensures Accounted(Next(s, e))
  {
    StepKeepsBalance(s, e);
    StepKeepsShape(s, e);
  }

  // ---- A clean run delivers everything ---------------------------------------------------

  predicate NoEnd(q: seq<Item>) {
    forall i :: 0 <= i < |q| ==> q[i].Data?
  }

  /** All the data stands before the first end marker. */
  predicate DataFirst(q: seq<Item>) {
    forall i, j :: 0 <= i < j < |q| && q[i] == End ==> q[j] == End
  }

  predicate Orderly(s: State) {
    s.clean ==>
      && s.dropped == [] && s.sender != TimedOut
      && (s.sender != Finished ==> s.registered && NoEnd(s.queue) && s.reader in {NotConnected, Reading})
      && (s.sender == Finished ==> DataFirst(s.queue))
      && (s.reader in {Leaving, Closing, Closed} ==> DataIn(s.queue) == [])
  }

  lemma {:induction false} OnlyEndsHoldNoData(q: seq<Item>)
    requires forall i :: 0 <= i < |q| ==> q[i] == End
    ensures DataIn(q) == []
  {
    if q != [] {
      OnlyEndsHoldNoData(q[1..]);
    }
  }

  lemma GetKeepsOrder(s: State)
    requires s.clean && Orderly(s) && Enabled(s, Get)
    ensures Orderly(Next(s, Get))
  {
    GetTakesFirst(s.queue);
    if s.queue[0] == End {
      assert forall j :: 0 < j < |s.queue| ==> s.queue[j] == End;
      OnlyEndsHoldNoData(s.queue[1..]);
    }
  }

  lemma UnregisterKeepsOrder(s: State, e: Event)
    requires Accounted(s) && s.clean && Orderly(s) && Enabled(s, e)
    requires e.UnregisterTimedOut? || e.DelayedCleanup? || e.CancelOrLeave?
    ensures Orderly(Next(s, e))
  {
    UnregisterKeepsData(s);
  }

  lemma MarkerKeepsOrder(q: seq<Item>)
    ensures DataFirst(q) ==> DataFirst(q + [End])
    ensures NoEnd(q) ==> DataFirst(q + [End])
    ensures DataIn(q + [End]) == DataIn(q)
  {
    DataAppend(q, End);
  }

  lemma PutDoneKeepsOrder(s: State)
    requires s.clean && Orderly(s) && Enabled(s, PutDone)
    ensures Orderly(Next(s, PutDone))
  {
    assert NoEnd(s.queue) && NoEnd(s.queue + [Data(s.sender.payload)]);
  }

  lemma MarkerPutKeepsOrder(s: State, e: Event)
    requires s.clean && Orderly(s) && Enabled(s, e) && (e.EndPut? || e.ClosePut?)
    ensures Orderly(Next(s, e))
  {
    MarkerKeepsOrder(s.queue);
  }

  lemma StepKeepsOrder(s: State, e: Event)
    requires Accounted(s) && Orderly(s) && Enabled(s, e)
    ensures Orderly(Next(s, e))
  {
    if s.clean {
      match e
      case Get => GetKeepsOrder(s);
      case UnregisterTimedOut => UnregisterKeepsOrder(s, e);
      case DelayedCleanup => UnregisterKeepsOrder(s, e);
      case CancelOrLeave => UnregisterKeepsOrder(s, e);
      case PutDone => PutDoneKeepsOrder(s);
      case EndPut => MarkerPutKeepsOrder(s, e);
      case ClosePut => MarkerPutKeepsOrder(s, e);
      case _ =>
    }
  }

  lemma {:induction false} RunKeeps(es: seq<Event>)
    requires IsRun(es)
    ensures Accounted(After(es)) && Orderly(After(es))
  {
    if es != [] {
      var l := |es| - 1;
      RunKeeps(es[..l]);
      StepKeepsAccount(After(es[..l]), es[l]);
      StepKeepsOrder(After(es[..l]), es[l]);
    }
  }

  function Flatten(ps: seq<Payload>): seq<int> {
    if ps == [] then [] else Flatten(ps[..|ps| - 1]) + ps[|ps| - 1]
  }

  lemma {:induction false} FlattenPrefix(a: seq<Payload>, b: seq<Payload>)
    ensures Flatten(a) <= Flatten(a + b)
  {
    if b == [] {
      assert a + b == a;
    } else {
      FlattenPrefix(a, b[..|b| - 1]);
      assert (a + b)[..|a + b| - 1] == a + b[..|b| - 1];
    }
  }

  /** At every moment of every run the response body is a prefix of the bytes that
      were routed to the queue, in order. When the download ends in a run without a
      timeout, cancellation or early departure, it is all of them, and the sender
      had said that it was done. */
  lemma DownloadIsPrefix(es: seq<Event>)
    requires IsRun(es)
    ensures var s := After(es);
            && s.yielded <= s.routed
            && Flatten(s.yielded) <= Flatten(s.routed)
            && |s.queue| <= QUEUE_LIMIT
            && (s.clean && s.reader in {Leaving, Closing, Closed} ==>
                  s.yielded == s.routed && s.sender == Finished)
  {
    RunKeeps(es);
    var s := After(es);
    var rest := DataIn(s.queue) + InHand(s) + s.dropped;
    assert DataIn(s.queue) + (InHand(s) + s.dropped) == rest;
    assert s.routed == s.yielded + rest;
    FlattenPrefix(s.yielded, rest);
  }

  // ---- The lock can be held for good ------------------------------------------------------

  /** Somebody waits for room in the full queue with the hub's lock in hand, and the
      reader that could make room is gone, is the one who waits, or has not come yet
      and needs the lock to get the queue. */
  predicate Stuck(s: State) {
    && !s.HasRoom()
    && (s.reader == Closing || (s.sender == Finishing && s.reader in {NotConnected, Leaving, Closed}))
  }

  /** One task holds the lock at a time, and while the sender holds it nobody can
      take the queue off the hub. */
  predicate Exclusive(s: State) {
    s.sender == Finishing ==> s.reader != Closing && s.registered
  }

  lemma {:induction false} RunKeepsExclusive(es: seq<Event>)
    requires IsRun(es)
    ensures Exclusive(After(es))
  {
    if es != [] {
      var l := |es| - 1;
      RunKeepsExclusive(es[..l]);
      StepKeepsExclusive(After(es[..l]), es[l]);
    }
  }

  lemma StepKeepsExclusive(s: State, e: Event)
    requires Exclusive(s) && Enabled(s, e)
    ensures Exclusive(Next(s, e))
  {
  }

  lemma StuckStays(s: State, e: Event)
    requires Stuck(s) && Exclusive(s) && Enabled(s, e)
    ensures Stuck(Next(s, e))
  {
  }

  lemma {:induction false} StuckForever(es: seq<Event>, more: seq<Event>)
    requires IsRun(es + more) && IsRun(es) && Stuck(After(es))
    ensures Stuck(After(es + more)) && After(es + more).Locked()
  {
    if more == [] {
      assert es + more == es;
    } else {
      var l := |more| - 1;
      assert (es + more)[..|es + more| - 1] == es + more[..l];
      StuckForever(es, more[..l]);
      RunKeepsExclusive(es + more[..l]);
      StuckStays(After(es + more[..l]), more[l]);
    }
  }

  /** `more` continues a run to a state in which the lock is free. */
  predicate Releases(es: seq<Event>, more: seq<Event>) {
    IsRun(es + more) && !After(es + more).Locked()
  }

  /** In every run, a lock that is held can still be released if and only if its
      holder is not stuck. */
  lemma LockIsReleasedUnlessStuck(es: seq<Event>)
    requires IsRun(es) && After(es).Locked()
    ensures (exists more :: Releases(es, more)) <==> !Stuck(After(es))
  {
    RunKeepsExclusive(es);
    RunKeeps(es);
    if !Stuck(After(es)) {
      var more := WayOut(es);
      assert Releases(es, more);
    } else {
      forall more | Releases(es, more) ensures false {
        StuckForever(es, more);
      }
    }
  }

  lemma OneStepReleases(es: seq<Event>, e: Event)
    requires IsRun(es) && Enabled(After(es), e) && !Next(After(es), e).Locked()
    ensures Releases(es, [e])
  {
    Extend(es, e);
  }

  lemma StepThenRelease(es: seq<Event>, e: Event, more: seq<Event>)
    requires IsRun(es) && Enabled(After(es), e) && Releases(es + [e], more)
    ensures Releases(es, [e] + more)
  {
    assert es + ([e] + more) == es + [e] + more;
  }

  /** With room in the queue the waiting put goes through. */
  lemma RoomReleases(es: seq<Event>) returns (more: seq<Event>)
    requires IsRun(es) && After(es).Locked() && After(es).HasRoom() && Exclusive(After(es))
    ensures Releases(es, more)
  {
    var e := if After(es).reader == Closing then ClosePut else EndPut;
    OneStepReleases(es, e);
    more := [e];
  }

  /** A reader that is there makes room. */
  lemma ReadingReleases(es: seq<Event>) returns (more: seq<Event>)
    requires IsRun(es) && After(es).sender == Finishing && After(es).reader == Reading
    requires Exclusive(After(es)) && Shape(After(es)) && !After(es).HasRoom()
    ensures Releases(es, more)
  {
    Extend(es, Get);
    StepKeepsExclusive(After(es), Get);
    more := RoomReleases(es + [Get]);
    StepThenRelease(es, Get, more);
    more := [Get] + more;
  }

  /** Take one item if the queue is full, and let the waiting put go through. */
  lemma WayOut(es: seq<Event>) returns (more: seq<Event>)
    requires IsRun(es) && After(es).Locked() && !Stuck(After(es))
    requires Exclusive(After(es)) && Shape(After(es))
    ensures Releases(es, more)
  {
    if After(es).HasRoom() {
      more := RoomReleases(es);
    } else {
      more := ReadingReleases(es);
    }
  }

  /** 32 chunks and an aborted download are enough to get there. */
  function FillQueue(n: nat): seq<Event> {
    if n == 0 then [Connect] else FillQueue(n - 1) + [Chunk([n])] + [PutDone]
  }

  predicate Filled(s: State, n: nat) {
    s.sender == Idle && s.reader == Reading && s.registered && |s.queue| == n
  }

  lemma {:induction false} FillQueueRuns(n: nat)
    requires n <= QUEUE_LIMIT
    ensures IsRun(FillQueue(n)) && Filled(After(FillQueue(n)), n)
  {
    if n == 0 {
      assert [Connect][..0] == [];
    } else {
      FillQueueRuns(n - 1);
      FillOne(FillQueue(n - 1), n);
    }
  }

  lemma FillOne(es: seq<Event>, n: nat)
    requires 0 < n <= QUEUE_LIMIT && IsRun(es) && Filled(After(es), n - 1)
    ensures IsRun(es + [Chunk([n])] + [PutDone])
    ensures Filled(After(es + [Chunk([n])] + [PutDone]), n)
  {
    Extend(es, Chunk([n]));
    Extend(es + [Chunk([n])], PutDone);
  }

  lemma Extend(es: seq<Event>, e: Event)
    requires IsRun(es) && Enabled(After(es), e)
    ensures IsRun(es + [e]) && After(es + [e]) == Next(After(es), e)
  {
    assert (es + [e])[..|es|] == es;
  }

  lemma AbortWithFullQueueIsStuck()
    ensures var es := FillQueue(QUEUE_LIMIT) + [Abort] + [CloseEnter];
            IsRun(es) && Stuck(After(es)) && After(es).Locked()
  {
    FillQueueRuns(QUEUE_LIMIT);
    var es := FillQueue(QUEUE_LIMIT);
    Extend(es, Abort);
    Extend(es + [Abort], CloseEnter);
  }

  /** The other way in: the sender says that it is done while the queue is full, and
      then the receiver leaves. After that nothing at all can happen. */
  lemma DoneWithFullQueueDeadlocks()
    ensures var es := FillQueue(QUEUE_LIMIT) + [TransferDone] + [Abort];
            && IsRun(es) && Stuck(After(es)) && After(es).Locked()
            && forall e :: !Enabled(After(es), e)
  {
    FillQueueRuns(QUEUE_LIMIT);
    var es := FillQueue(QUEUE_LIMIT);
    Extend(es, TransferDone);
    Extend(es + [TransferDone], Abort);
    NothingEnabled(After(es + [TransferDone] + [Abort]));
  }

  lemma NothingEnabled(s: State)
    requires s.sender == Finishing && s.reader in {NotConnected, Leaving} && !s.HasRoom()
    ensures Stuck(s) && s.Locked() && forall e :: !Enabled(s, e)
  {
  }

  // ---- A clean run can end there too ---------------------------------------------------------

  function FillUnread(n: nat): seq<Event> {
    if n == 0 then [] else FillUnread(n - 1) + [Chunk([n])] + [PutDone]
  }

  predicate FilledUnread(s: State, n: nat) {
    s.sender == Idle && s.reader == NotConnected && s.registered && s.clean && s.yielded == [] && |s.queue| == n
  }

  lemma {:induction false} FillUnreadRuns(n: nat)
    requires n <= QUEUE_LIMIT
    ensures IsRun(FillUnread(n)) && FilledUnread(After(FillUnread(n)), n)
  {
    if n > 0 {
      FillUnreadRuns(n - 1);
      FillOneUnread(FillUnread(n - 1), n);
    }
  }

  lemma FillOneUnread(es: seq<Event>, n: nat)
    requires 0 < n <= QUEUE_LIMIT && IsRun(es) && FilledUnread(After(es), n - 1)
    ensures IsRun(es + [Chunk([n])] + [PutDone])
    ensures FilledUnread(After(es + [Chunk([n])] + [PutDone]), n)
  {
    Extend(es, Chunk([n]));
    Extend(es + [Chunk([n])], PutDone);
  }

  /** A file of exactly 32 chunks that is sent before the download request arrives:
      the end marker finds no room, and the request waits for the lock that the
      sender holds. Nobody has left, nothing has timed out, and the download stays
      empty for good. */
  lemma UnreadFullQueueDeadlocks()
    ensures var es := FillUnread(QUEUE_LIMIT) + [TransferDone];
            && IsRun(es) && Stuck(After(es)) && After(es).Locked()
            && After(es).clean && After(es).yielded == []
            && forall e :: !Enabled(After(es), e)
  {
    FillUnreadRuns(QUEUE_LIMIT);
    Extend(FillUnread(QUEUE_LIMIT), TransferDone);
    NothingEnabled(After(FillUnread(QUEUE_LIMIT) + [TransferDone]));
  }
}
