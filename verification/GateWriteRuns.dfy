/** The chain of writes in the runs of the step-up gate: every run of the gate is a run of the chain, one call
  at a time and in turn, so what is proved of the chain is proved of the record. */
module GateWriteRuns {
  import opened Outcomes
  import opened StepUpWorker
  import opened StepUpGate
  import opened StepUpLedgers
  import Chained = GateWriteChain

  type Call = Chained.Call

  /** The calls before `done` have settled; the rest are the changes that wait, and the first of them holds
      what the worker holds. */
  predicate Follows(c: Chained.Chain, done: nat, w: Worker) {
    && done <= |c.calls| && |c.calls| - done == |w.writes|
    && (forall i :: 0 <= i < done ==> c.calls[i].progress.Settled?)
    && (forall i :: done <= i < |c.calls| ==>
          c.calls[i] == Chained.Call(w.writes[i - done], if i == done then Reached(w) else Chained.Queued))
    && (w.held.Some? ==> w.writes != [])
    && c.stored == Stored(w.storage)
  }

  function Reached(w: Worker): Chained.Progress {
    if w.held.Some? then Chained.Holding(w.held.value) else Chained.Queued
  }

  // ---- Step for step ----

  lemma RecordFollows(c: Chained.Chain, done: nat, w: Worker, change: Change)
    requires Follows(c, done, w)
    ensures Follows(Chained.Step(c, Chained.Calls(change), true), done, Record(w, change))
  {
  }

  /** A read is due exactly for the first call that waits, when the worker holds nothing; and it is the
      worker's read. */
  lemma ReadFollows(c: Chained.Chain, done: nat, w: Worker, i: nat, readable: bool)
    requires Follows(c, done, w)
    ensures Chained.MayRead(c.calls, i, true) <==> i == done && w.writes != [] && w.held.None?
    ensures Chained.MayRead(c.calls, i, true) ==>
              Follows(Chained.Step(c, Chained.Reads(i, readable), true), done, ReadForWrite(w, readable).0)
  {
  }

  /** A write is due exactly for the call that holds the gate; and it is the worker's. */
  lemma WriteFollows(c: Chained.Chain, done: nat, w: Worker, i: nat, succeeds: bool)
    requires Follows(c, done, w)
    ensures Chained.MayWrite(c.calls, i) <==> i == done && w.held.Some?
    ensures Chained.MayWrite(c.calls, i) ==>
              Follows(Chained.Step(c, Chained.Writes(i, succeeds), true), done + 1, SettleWrite(w, succeeds).0)
  {
    if Chained.MayWrite(c.calls, i) {
      WrittenFollows(c, done, w, succeeds);
    }
  }

  lemma WrittenFollows(c: Chained.Chain, done: nat, w: Worker, succeeds: bool)
    requires Follows(c, done, w) && w.held.Some?
    ensures Follows(Chained.Step(c, Chained.Writes(done, succeeds), true), done + 1, SettleWrite(w, succeeds).0)
  {
  }

  lemma RemovalFollows(c: Chained.Chain, done: nat, w: Worker, w': Worker)
    requires Follows(c, done, w) && w'.writes == w.writes && w'.held == w.held && Stored(w'.storage) == EMPTY_GATE
    ensures Follows(Chained.Step(c, Chained.Removes, true), done, w')
  {
  }

  lemma StopFollows(c: Chained.Chain, done: nat, w: Worker)
    requires Follows(c, done, w)
    ensures Follows(Chained.Step(c, Chained.Stops, true), |c.calls|, Evict(w))
  {
  }

  // ---- Run for run ----

  /** What a reply of the gate says of the chain; `done` calls have settled before it. */
  function EventOf(r: Reply, done: nat): Option<Chained.Event> {
    match r
    case Recorded(c) => Some(Chained.Calls(c))
    case CopyTaken(readable) => Some(Chained.Reads(done, readable))
    case Answered(_, written) => Some(Chained.Writes(done, written))
    case Evicted => Some(Chained.Stops)
    case _ => if Removes(r) then Some(Chained.Removes) else None
  }

  function DoneAfter(r: Reply, done: nat, calls: nat): nat {
    match r
    case Answered(_, _) => done + 1
    case Evicted => calls
    case _ => done
  }

  const START := Chained.Chain([], EMPTY_GATE)

  /** The run of the chain in a run of the gate, and how many of its calls have settled. */
  function ChainOf(replies: seq<Reply>): (seq<Chained.Event>, nat) {
    if replies == [] then ([], 0)
    else
      var r := replies[|replies| - 1];
      var (before, done) := ChainOf(replies[..|replies| - 1]);
      var e := EventOf(r, done);
      (if e.Some? then before + [e.value] else before,
       DoneAfter(r, done, |Chained.Run(START, before, true).calls|))
  }

  function ChainAfter(events: seq<Event>): Chained.Chain {
    Chained.Run(START, ChainOf(Replies(events)).0, true)
  }

  function Turned(c: Chained.Chain, r: Reply, done: nat): Chained.Chain {
    var e := EventOf(r, done);
    if e.Some? then Chained.Step(c, e.value, true) else c
  }

  lemma ChainExtends(events: seq<Event>, e: Event)
    ensures var done := ChainOf(Replies(events)).1;
            var r := Step(After(events), e).1;
            && ChainAfter(events + [e]) == Turned(ChainAfter(events), r, done)
            && ChainOf(Replies(events + [e])).1 == DoneAfter(r, done, |ChainAfter(events).calls|)
  {
    Extend(events, e);
    var all, before := Replies(events + [e]), ChainOf(Replies(events)).0;
    var r := Step(After(events), e).1;
    assert all[..|all| - 1] == Replies(events);
    var turn := EventOf(r, ChainOf(Replies(events)).1);
    if turn.Some? {
      assert (before + [turn.value])[..|before|] == before;
    }
  }

  lemma SameLineFollows(c: Chained.Chain, done: nat, w: Worker, w': Worker)
    requires Follows(c, done, w) && SameLine(w, w')
    ensures Follows(c, done, w')
  {
  }

  lemma TurnFollows(c: Chained.Chain, done: nat, w: Worker, r: Reply, w': Worker)
    requires Follows(c, done, w) && Moves(w, r, w')
    ensures Follows(Turned(c, r, done), DoneAfter(r, done, |c.calls|), w')
  {
    match r
    case Recorded(change) =>
      RecordFollows(c, done, w, change);
      SameLineFollows(Turned(c, r, done), done, Record(w, change), w');
    case CopyTaken(readable) =>
      ReadFollows(c, done, w, done, readable);
      SameLineFollows(Turned(c, r, done), done, ReadForWrite(w, readable).0, w');
    case Answered(_, written) =>
      WriteFollows(c, done, w, done, written);
      SameLineFollows(Turned(c, r, done), done + 1, SettleWrite(w, written).0, w');
    case Evicted =>
      StopFollows(c, done, w);
      SameLineFollows(Turned(c, r, done), |c.calls|, Evict(w), w');
    case _ =>
      if Removes(r) {
        RemovalFollows(c, done, w, w');
      } else {
        SameLineFollows(c, done, w, w');
      }
  }

  /** Every run of the gate is a run of the chain: its calls are the changes recorded, the unsettled ones wait
      in the worker's line in that order, and what is stored is the record. */
  lemma {:induction false} GateRunsTheChain(events: seq<Event>)
    ensures Follows(ChainAfter(events), ChainOf(Replies(events)).1, After(events).worker)
  {
    if events != [] {
      var n := |events| - 1;
      var before, e := events[..n], events[n];
      assert events == before + [e];
      GateRunsTheChain(before);
      Extend(before, e);
      ChainExtends(before, e);
      StepMoves(After(before), e);
      var (s', r) := Step(After(before), e);
      TurnFollows(ChainAfter(before), ChainOf(Replies(before)).1, After(before).worker, r, s'.worker);
    }
  }

  predicate Undisturbed(r: Reply) {
    r != CopyTaken(false) && !Removes(r)
  }

  lemma {:induction false} ChainIsUndisturbed(replies: seq<Reply>)
    requires forall r :: r in replies ==> Undisturbed(r)
    ensures forall e :: e in ChainOf(replies).0 ==> Chained.Undisturbed(e)
  {
    if replies != [] {
      var n := |replies| - 1;
      assert replies[n] in replies && forall r :: r in replies[..n] ==> r in replies;
      ChainIsUndisturbed(replies[..n]);
    }
  }

  /** So in every run of the gate, with any interleaving, failing writes and evictions: while no read for a
      write fails and nothing is removed, the record is all the changes that were written, entry by entry, in
      the order they were recorded. */
  lemma RecordIsWhatWasWritten(events: seq<Event>)
    requires forall r :: r in Replies(events) ==> Undisturbed(r)
    ensures Stored(After(events).worker.storage) == Chained.Fold(EMPTY_GATE, ChainAfter(events).calls)
  {
    GateRunsTheChain(events);
    ChainIsUndisturbed(Replies(events));
    Chained.NoUpdateIsLost(START, 0, ChainOf(Replies(events)).0);
    assert ChainAfter(events).calls[0..] == ChainAfter(events).calls;
  }
}
