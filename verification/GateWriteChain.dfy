/** The chain of read-modify-writes behind persistGateChange, src/background/auditor.ts. Each call
  waits for the call before it to settle, reads the stored gate, changes the copy it holds, and
  writes it back; between any two of these steps anything else may happen. */
module GateWriteChain {
  import opened BindingKey
  import opened StepUpWorker

  /** Where a call is. A failed write settles it too: the error is swallowed; and so does the end of its
      worker. */
  datatype Progress = Queued | Holding(gate: Gate) | Settled(written: bool)

  datatype Call = Call(change: Change, progress: Progress)

  /** The calls in the order they were made. */
  datatype Chain = Chain(calls: seq<Call>, stored: Gate)

  /** An unreadable area reads as an empty gate. `Removes` is a lock or a lapse, which does not queue; `Stops`
      is an eviction of the worker. */
  datatype Event =
    | Calls(change: Change)
    | Reads(index: nat, readable: bool)
    | Writes(index: nat, succeeds: bool)
    | Removes
    | Stops

  /** What has not settled never will. */
  function Abandoned(calls: seq<Call>): (r: seq<Call>)
    ensures |r| == |calls|
  {
    seq(|calls|, i requires 0 <= i < |calls| =>
      if calls[i].progress.Settled? then calls[i] else calls[i].(progress := Settled(false)))
  }

  predicate MayRead(calls: seq<Call>, i: nat, chained: bool) {
    i < |calls| && calls[i].progress == Queued && (chained && i > 0 ==> calls[i - 1].progress.Settled?)
  }

  predicate MayWrite(calls: seq<Call>, i: nat) {
    i < |calls| && calls[i].progress.Holding?
  }

  /** Events that are not due do nothing. `chained` is false for the program without the chain. */
  function Step(c: Chain, e: Event, chained: bool): Chain {
    match e
    case Calls(change) => c.(calls := c.calls + [Call(change, Queued)])
    case Reads(i, readable) =>
      if MayRead(c.calls, i, chained)
      then c.(calls := c.calls[i := c.calls[i].(progress := Holding(if readable then c.stored else EMPTY_GATE))])
      else c
    case Writes(i, succeeds) =>
      if MayWrite(c.calls, i)
      then Chain(c.calls[i := c.calls[i].(progress := Settled(succeeds))],
                 if succeeds then Apply(c.calls[i].change, c.calls[i].progress.gate) else c.stored)
      else c
    case Removes => c.(stored := EMPTY_GATE)
    case Stops => c.(calls := Abandoned(c.calls))
  }

  function Run(c: Chain, events: seq<Event>, chained: bool): Chain {
    if events == [] then c
    else Step(Run(c, events[..|events| - 1], chained), events[|events| - 1], chained)
  }

  // ---- One call at a time, in call order ----

  predicate InTurn(calls: seq<Call>) {
    forall i :: 0 < i < |calls| && calls[i].progress != Queued ==> calls[i - 1].progress.Settled?
  }

  lemma {:induction false} SettledBefore(calls: seq<Call>, i: nat, j: nat)
    requires InTurn(calls) && i < j < |calls| && calls[j].progress != Queued
    ensures calls[i].progress.Settled?
    decreases j - i
  {
    assert calls[j - 1].progress.Settled?;
    if i < j - 1 {
      SettledBefore(calls, i, j - 1);
    }
  }

  /** Two calls never hold the gate together, and calls after the one that holds it have not begun. */
  lemma OneHolds(calls: seq<Call>, i: nat, j: nat)
    requires InTurn(calls) && i < j < |calls| && !calls[i].progress.Settled?
    ensures calls[j].progress == Queued
  {
    if calls[j].progress != Queued {
      SettledBefore(calls, i, j);
    }
  }

  lemma StepKeepsTurn(c: Chain, e: Event)
    requires InTurn(c.calls)
    ensures InTurn(Step(c, e, true).calls)
  {
    if e.Writes? && MayWrite(c.calls, e.index) && e.index + 1 < |c.calls| {
      OneHolds(c.calls, e.index, e.index + 1);
    }
  }

  // ---- No update is lost ----

  function Written(g: Gate, c: Call): Gate {
    if c.progress == Settled(true) then Apply(c.change, g) else g
  }

  /** What the written changes come to, in call order. */
  function Fold(g: Gate, calls: seq<Call>): Gate {
    if calls == [] then g else Written(Fold(g, calls[..|calls| - 1]), calls[|calls| - 1])
  }

  /** Progress that writes nothing leaves the fold alone. */
  lemma {:induction false} FoldIgnores(g: Gate, calls: seq<Call>, calls': seq<Call>)
    requires |calls'| == |calls|
    requires forall i :: 0 <= i < |calls| ==>
               calls'[i] == calls[i] || (calls'[i].progress != Settled(true) && calls[i].progress != Settled(true))
    ensures Fold(g, calls') == Fold(g, calls)
  {
    if calls != [] {
      var n := |calls| - 1;
      FoldIgnores(g, calls[..n], calls'[..n]);
    }
  }

  /** The first unsettled call to be written is the last the fold has to apply. */
  lemma {:induction false} FoldWrites(g: Gate, calls: seq<Call>, i: nat)
    requires i < |calls| && calls[i].progress != Settled(true)
    requires forall j :: i < j < |calls| ==> calls[j].progress != Settled(true)
    ensures Fold(g, calls[i := calls[i].(progress := Settled(true))]) == Apply(calls[i].change, Fold(g, calls))
  {
    var n := |calls| - 1;
    var calls' := calls[i := calls[i].(progress := Settled(true))];
    if i < n {
      FoldWrites(g, calls[..n], i);
      assert calls'[..n] == calls[..n][i := calls[i].(progress := Settled(true))];
    } else {
      assert calls'[..n] == calls[..n];
    }
  }

  /** The stored gate is the fold of what was written since `from`, and what a call holds is what is
      stored. */
  predicate UpToDate(c: Chain, g: Gate, from: nat) {
    && from <= |c.calls|
    && c.stored == Fold(g, c.calls[from..])
    && (forall i :: 0 <= i < |c.calls| && c.calls[i].progress.Holding? ==>
          from <= i && c.calls[i].progress.gate == c.stored)
  }

  /** No unreadable read, no removal. */
  predicate Undisturbed(e: Event) {
    !e.Removes? && (e.Reads? ==> e.readable)
  }

  lemma CallsStaysUpToDate(c: Chain, e: Event, g: Gate, from: nat)
    requires UpToDate(c, g, from) && e.Calls?
    ensures UpToDate(Step(c, e, true), g, from)
  {
    var calls := Step(c, e, true).calls[from..];
    assert calls[..|calls| - 1] == c.calls[from..];
  }

  lemma ReadsStaysUpToDate(c: Chain, e: Event, g: Gate, from: nat)
    requires UpToDate(c, g, from) && e.Reads? && e.readable
    requires forall j :: 0 <= j < from ==> c.calls[j].progress.Settled?
    ensures UpToDate(Step(c, e, true), g, from)
  {
    if MayRead(c.calls, e.index, true) {
      FoldIgnores(g, c.calls[from..], Step(c, e, true).calls[from..]);
    }
  }

  lemma WritesStaysUpToDate(c: Chain, e: Event, g: Gate, from: nat)
    requires UpToDate(c, g, from) && e.Writes? && InTurn(c.calls)
    ensures UpToDate(Step(c, e, true), g, from)
  {
    if MayWrite(c.calls, e.index) {
      var i := e.index - from;
      var calls := c.calls[from..];
      forall j | 0 <= j < |c.calls| && j != e.index
        ensures !c.calls[j].progress.Holding? && (e.index < j ==> c.calls[j].progress == Queued)
      {
        if e.index < j {
          OneHolds(c.calls, e.index, j);
        } else {
          SettledBefore(c.calls, j, e.index);
        }
      }
      assert Step(c, e, true).calls[from..] == calls[i := calls[i].(progress := Settled(e.succeeds))];
      if e.succeeds {
        FoldWrites(g, calls, i);
      } else {
        FoldIgnores(g, calls, calls[i := calls[i].(progress := Settled(false))]);
      }
    }
  }

  lemma StopsStaysUpToDate(c: Chain, g: Gate, from: nat)
    requires UpToDate(c, g, from)
    ensures UpToDate(Step(c, Stops, true), g, from)
  {
    FoldIgnores(g, c.calls[from..], Step(c, Stops, true).calls[from..]);
  }

  lemma StepKeepsSettled(c: Chain, e: Event, from: nat)
    requires from <= |c.calls| && forall j :: 0 <= j < from ==> c.calls[j].progress.Settled?
    ensures var calls := Step(c, e, true).calls;
            from <= |calls| && forall j :: 0 <= j < from ==> calls[j].progress.Settled?
  {
  }

  /** No call is between its read and its write: the first `from` have settled, the rest queue. */
  predicate Between(calls: seq<Call>, from: nat) {
    && from <= |calls|
    && (forall j :: 0 <= j < from ==> calls[j].progress.Settled?)
    && (forall j :: from <= j < |calls| ==> calls[j].progress == Queued)
  }

  lemma {:induction false} FoldOfQueued(g: Gate, calls: seq<Call>)
    requires forall c :: c in calls ==> c.progress == Queued
    ensures Fold(g, calls) == g
  {
    if calls != [] {
      FoldOfQueued(g, calls[..|calls| - 1]);
    }
  }

  /** For every interleaving, any calls, failing writes and evictions, from a moment when no call is under
      way: nothing written is lost, and the stored gate is the successful changes in call order. */
  lemma {:induction false} NoUpdateIsLost(c: Chain, from: nat, events: seq<Event>)
    requires Between(c.calls, from) && forall e :: e in events ==> Undisturbed(e)
    ensures var c' := Run(c, events, true);
            && from <= |c'.calls| && (forall j :: 0 <= j < from ==> c'.calls[j].progress.Settled?)
            && InTurn(c'.calls) && UpToDate(c', c.stored, from)
    decreases |events|
  {
    if events == [] {
      FoldOfQueued(c.stored, c.calls[from..]);
    } else {
      var n := |events| - 1;
      var e := events[n];
      assert e in events && Undisturbed(e);
      NoUpdateIsLost(c, from, events[..n]);
      var c' := Run(c, events[..n], true);
      StepKeepsTurn(c', e);
      StepKeepsSettled(c', e, from);
      match e {
        case Calls(_) => CallsStaysUpToDate(c', e, c.stored, from);
        case Reads(_, _) => ReadsStaysUpToDate(c', e, c.stored, from);
        case Writes(_, _) => WritesStaysUpToDate(c', e, c.stored, from);
        case Stops => StopsStaysUpToDate(c', c.stored, from);
      }
    }
  }

  /** So a lock between two calls keeps what it promises: what is stored afterwards comes from later
      changes alone. */
  lemma RemovalBetweenCallsHolds(c: Chain, from: nat, events: seq<Event>)
    requires Between(c.calls, from) && forall e :: e in events ==> Undisturbed(e)
    ensures var c' := Run(Step(c, Removes, true), events, true);
            from <= |c'.calls| && c'.stored == Fold(EMPTY_GATE, c'.calls[from..])
  {
    NoUpdateIsLost(Step(c, Removes, true), from, events);
  }

  // ---- A failed write blocks nothing ----

  /** Whatever happened before, the first unsettled call can go on. */
  lemma NeverStuck(calls: seq<Call>) returns (i: nat)
    requires InTurn(calls) && exists j :: 0 <= j < |calls| && !calls[j].progress.Settled?
    ensures MayRead(calls, i, true) || MayWrite(calls, i)
  {
    i := 0;
    while calls[i].progress.Settled?
      invariant i < |calls| && forall j :: 0 <= j < i ==> calls[j].progress.Settled?
      decreases |calls| - i
    {
      i := i + 1;
    }
  }

  /** Read and write the calls from `i` on, each write faring as `fates` says. */
  function Draining(i: nat, fates: seq<bool>): seq<Event> {
    if fates == [] then []
    else
      var n := |fates| - 1;
      Draining(i, fates[..n]) + [Reads(i + n, true)] + [Writes(i + n, fates[n])]
  }

  lemma RunTwo(c: Chain, events: seq<Event>, d: Event, e: Event)
    ensures Run(c, events + [d] + [e], true) == Step(Step(Run(c, events, true), d, true), e, true)
  {
    var one, two := events + [d], events + [d] + [e];
    assert two[..|two| - 1] == one && one[..|one| - 1] == events;
  }

  /** The calls, those from `from` on settled as `fates` says. */
  function Settling(calls: seq<Call>, from: nat, fates: seq<bool>): (r: seq<Call>)
    ensures |r| == |calls|
  {
    seq(|calls|, i requires 0 <= i < |calls| =>
      if from <= i < from + |fates| then calls[i].(progress := Settled(fates[i - from])) else calls[i])
  }

  lemma TurnSettles(c: Chain, i: nat, fate: bool)
    requires MayRead(c.calls, i, true)
    ensures Step(Step(c, Reads(i, true), true), Writes(i, fate), true).calls
         == c.calls[i := c.calls[i].(progress := Settled(fate))]
  {
  }

  lemma SettlingStep(calls: seq<Call>, from: nat, fates: seq<bool>)
    requires Between(calls, from) && fates != [] && from + |fates| <= |calls|
    ensures var n := |fates| - 1;
            var before := Settling(calls, from, fates[..n]);
            && MayRead(before, from + n, true)
            && before[from + n := before[from + n].(progress := Settled(fates[n]))] == Settling(calls, from, fates)
  {
    var n := |fates| - 1;
    var before := Settling(calls, from, fates[..n]);
    assert before[from + n] == calls[from + n];
    assert n > 0 ==> before[from + (n - 1)].progress == Settled(fates[n - 1]);
    assert n == 0 && from > 0 ==> before[from - 1] == calls[from - 1];
  }

  /** However the earlier writes fared, every queued call gets its turn and settles as its own did. */
  lemma {:induction false} EveryCallSettles(c: Chain, from: nat, fates: seq<bool>)
    requires Between(c.calls, from) && from + |fates| <= |c.calls|
    ensures Run(c, Draining(from, fates), true).calls == Settling(c.calls, from, fates)
    decreases |fates|
  {
    if fates == [] {
      assert Settling(c.calls, from, fates) == c.calls;
    } else {
      var n := |fates| - 1;
      EveryCallSettles(c, from, fates[..n]);
      RunTwo(c, Draining(from, fates[..n]), Reads(from + n, true), Writes(from + n, fates[n]));
      SettlingStep(c.calls, from, fates);
      TurnSettles(Run(c, Draining(from, fates[..n]), true), from + n, fates[n]);
    }
  }

  // ---- What the chain does not cover ----

  /** Without the chain, two calls that both read before either writes: the first change is gone. */
  lemma UnchainedLosesUpdate(g: Gate, b: Binding, c: Binding)
    requires b != c && Key(b) !in g.challenged
    ensures var overlapping := [Calls(Challenging(b)), Calls(Challenging(c)), Reads(0, true), Reads(1, true),
                                Writes(0, true), Writes(1, true)];
            && Run(Chain([], g), overlapping, false).stored == Challenge(g, c)
            && Key(b) !in Run(Chain([], g), overlapping, false).stored.challenged
            && Key(b) in Run(Chain([], g), overlapping, true).stored.challenged
  {
    KeyDiffers(b, c);
    SixSteps(Chain([], g), Challenging(b), Challenging(c), false);
    SixSteps(Chain([], g), Challenging(b), Challenging(c), true);
  }

  lemma KeyDiffers(b: Binding, c: Binding)
    requires b != c
    ensures Key(b) != Key(c)
  {
    if Key(b) == Key(c) {
      KeyIsInjective(b, c);
    }
  }

  lemma SixSteps(c: Chain, x: Change, y: Change, chained: bool)
    requires c.calls == []
    ensures var es := [Calls(x), Calls(y), Reads(0, true), Reads(1, true), Writes(0, true), Writes(1, true)];
            Run(c, es, chained).stored == if chained then Apply(x, c.stored) else Apply(y, c.stored)
  {
    var es := [Calls(x), Calls(y), Reads(0, true), Reads(1, true), Writes(0, true), Writes(1, true)];
    assert es[..5][..4] == es[..4] && es[..4][..3] == es[..3] && es[..3][..2] == es[..2] && es[..2][..1] == es[..1];
    assert es[..1][..0] == [];
    assert Run(c, es[..1], chained) == Step(c, es[0], chained);
    assert Run(c, es[..2], chained).calls == [Call(x, Queued), Call(y, Queued)];
    assert Run(c, es[..3], chained).calls == [Call(x, Holding(c.stored)), Call(y, Queued)];
    var q := if chained then Queued else Holding(c.stored);
    assert Run(c, es[..4], chained) == Chain([Call(x, Holding(c.stored)), Call(y, q)], c.stored);
    assert Run(c, es[..5], chained) == Chain([Call(x, Settled(true)), Call(y, q)], Apply(x, c.stored));
  }

  /** The gate holds no entry but those the change sets or drops. */
  predicate HoldsNothingElse(g: Gate, c: Change) {
    match c
    case Challenging(b) => g.challenged.Keys <= {Key(b)} && g.completed == map[]
    case Completing(s) => g.completed.Keys <= {Key(s.binding)} && g.challenged == map[]
    case Spending(b) => g.challenged.Keys <= {Key(b)} && g.completed.Keys <= {Key(b)}
  }

  lemma AppliesAsToNothing(g: Gate, c: Change)
    ensures Apply(c, g) == Apply(c, EMPTY_GATE) <==> HoldsNothingElse(g, c)
  {
    var x, y := Apply(c, g), Apply(c, EMPTY_GATE);
    if x == y {
      assert x.challenged.Keys == y.challenged.Keys && x.completed.Keys == y.completed.Keys;
      assert g.challenged.Keys <= x.challenged.Keys + (if c.Spending? then {Key(c.binding)} else {});
      assert g.completed.Keys <= x.completed.Keys + (if c.Spending? then {Key(c.binding)} else {});
    }
    if HoldsNothingElse(g, c) {
      assert x.challenged == y.challenged && x.completed == y.completed;
    }
  }

  /** A removal does not queue: one that comes between the read and the write of a call is undone by
      that write, unless the call holds nothing else. */
  lemma RemovalHoldsIff(c: Chain, i: nat)
    requires MayWrite(c.calls, i)
    ensures var change := c.calls[i].change;
            var stored := Step(Step(c, Removes, true), Writes(i, true), true).stored;
            stored == Apply(change, EMPTY_GATE) <==> HoldsNothingElse(c.calls[i].progress.gate, change)
  {
    AppliesAsToNothing(c.calls[i].progress.gate, c.calls[i].change);
  }

  /** An unreadable area costs everything stored but the one change, if the write then succeeds. */
  lemma UnreadableReadIsHarmlessIff(c: Chain, i: nat)
    requires MayRead(c.calls, i, true)
    ensures var change := c.calls[i].change;
            var stored := Step(Step(c, Reads(i, false), true), Writes(i, true), true).stored;
            stored == Apply(change, c.stored) <==> HoldsNothingElse(c.stored, change)
  {
    AppliesAsToNothing(c.stored, c.calls[i].change);
  }
}
