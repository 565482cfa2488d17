/** What stands in the worker's memory and in the persisted record, read off the replies of a run: which
  refusals and approvals each still holds, and exactly what makes one leave or come back. */
module StepUpLedgers {
  import opened Outcomes
  import opened BindingKey
  import opened StepUpWorker
  import opened StepUpGate

  /** The two kinds of entry: a refusal makes a debt, an approval a payment. */
  datatype Entry = Debt | Payment

  predicate Makes(c: Change, b: Binding, what: Entry) {
    match what
    case Debt => c == Challenging(b)
    case Payment => c.Completing? && c.session.binding == b
  }

  function Side(l: Ledger, what: Entry): set<Binding> {
    match what
    case Debt => l.owed
    case Payment => l.paid
  }

  lemma SideOfPost(l: Ledger, c: Change, b: Binding, what: Entry)
    ensures b in Side(Post(l, c), what) <==> Makes(c, b, what) || (c != Spending(b) && b in Side(l, what))
  {
  }

  function At(events: seq<Event>, n: nat): Books
    requires n <= |events|
  {
    BooksOf(Replies(events)[..n])
  }

  lemma AtPrefix(events: seq<Event>, n: nat)
    requires n <= |events|
    ensures At(events, n) == Account(events[..n])
  {
    PrefixRuns(events, n);
  }

  lemma AtNext(events: seq<Event>, n: nat)
    requires n < |events|
    ensures At(events, n + 1) == Enter(At(events, n), Replies(events)[n])
  {
    assert Replies(events)[..n + 1][..n] == Replies(events)[..n];
  }

  // ---- Memory ----

  predicate ForgottenBy(r: Reply, b: Binding) {
    r.Lapsing? || r.Locked? || r.Evicted? || r == Recorded(Spending(b))
  }

  /** The entry recorded at `i` is in memory just before event `n`: it has not been spent, and neither the
      worker nor the session has ended. */
  predicate InMemory(replies: seq<Reply>, i: nat, n: nat, b: Binding, what: Entry) {
    && i < n <= |replies| && replies[i].Recorded? && Makes(replies[i].change, b, what)
    && forall m :: i < m < n ==> !ForgottenBy(replies[m], b)
  }

  lemma InMemoryNext(replies: seq<Reply>, i: nat, n: nat, b: Binding, what: Entry)
    requires i < n < |replies|
    ensures InMemory(replies, i, n + 1, b, what) <==> InMemory(replies, i, n, b, what) && !ForgottenBy(replies[n], b)
  {
  }

  lemma MemoryStep(k: Books, r: Reply, b: Binding, what: Entry)
    ensures b in Side(Enter(k, r).memory, what)
            <==> (r.Recorded? && Makes(r.change, b, what)) || (!ForgottenBy(r, b) && b in Side(k.memory, what))
  {
    if r.Recorded? {
      SideOfPost(k.memory, r.change, b, what);
    }
  }

  lemma {:induction false} MemoryIff(events: seq<Event>, n: nat, b: Binding, what: Entry)
    requires n <= |events|
    ensures b in Side(At(events, n).memory, what) <==> exists i :: InMemory(Replies(events), i, n, b, what)
  {
    if n > 0 {
      var m, replies := n - 1, Replies(events);
      MemoryIff(events, m, b, what);
      AtNext(events, m);
      forall i: nat | i < m
        ensures InMemory(replies, i, n, b, what) <==> InMemory(replies, i, m, b, what) && !ForgottenBy(replies[m], b)
      {
        InMemoryNext(replies, i, m, b, what);
      }
      assert InMemory(replies, m, n, b, what) <==> replies[m].Recorded? && Makes(replies[m].change, b, what);
      MemoryStep(At(events, m), replies[m], b, what);
    }
  }

  // ---- A write and the read before it ----

  /** The last read for a write before event `n`, if there is one. */
  function ReadOf(replies: seq<Reply>, n: nat): (r: nat)
    requires n <= |replies|
    ensures r <= n
    ensures forall m :: r < m < n ==> !replies[m].CopyTaken?
    ensures n == 0 || r < n
    ensures r < n && !replies[r].CopyTaken? ==> forall m :: 0 <= m < n ==> !replies[m].CopyTaken?
  {
    if n == 0 then 0
    else if replies[n - 1].CopyTaken? then n - 1
    else if n == 1 then 0
    else ReadOf(replies, n - 1)
  }

  lemma {:induction false} ReadOfPrefix(replies: seq<Reply>, n: nat, k: nat)
    requires n <= k <= |replies|
    ensures ReadOf(replies[..k], n) == ReadOf(replies, n)
  {
    if n > 1 {
      ReadOfPrefix(replies, n - 1, k);
    }
  }

  /** Between a read at `r` and event `n` no write has settled and the worker has gone on. */
  predicate Underway(replies: seq<Reply>, r: nat, n: nat) {
    && r < n <= |replies| && replies[r].CopyTaken?
    && forall m :: r < m < n ==> !replies[m].Answered? && !replies[m].CopyTaken? && !replies[m].Evicted?
  }

  function Copied(replies: seq<Reply>, r: nat): Ledger
    requires r < |replies|
  {
    if replies[r].CopyTaken? && replies[r].readable then BooksOf(replies[..r]).record else NOTHING
  }

  predicate HoldsCopy(replies: seq<Reply>, n: nat) {
    && n <= |replies| && Underway(replies, ReadOf(replies, n), n)
    && BooksOf(replies[..n]).held == Copied(replies, ReadOf(replies, n))
  }

  lemma HoldsOn(replies: seq<Reply>, r: Reply)
    requires HoldsCopy(replies, |replies|) && !r.Answered? && !r.Evicted? && !r.CopyTaken?
    ensures HoldsCopy(replies + [r], |replies| + 1)
  {
    var all, n := replies + [r], |replies|;
    assert all[..n] == replies && replies[..n] == replies && all[..n + 1] == all;
    ReadOfPrefix(all, n, n);
    var read := ReadOf(replies, n);
    assert all[..read] == replies[..read];
    assert ReadOf(all, n + 1) == read;
  }

  lemma HoldsNow(replies: seq<Reply>, readable: bool)
    ensures HoldsCopy(replies + [CopyTaken(readable)], |replies| + 1)
  {
    var all, n := replies + [CopyTaken(readable)], |replies|;
    assert all[..n] == replies && all[..n + 1] == all;
  }

  /** In every run the copy that is held is of the record as it was at the last read for a write. */
  lemma {:induction false} HeldCopyTells(events: seq<Event>)
    requires After(events).worker.held.Some?
    ensures HoldsCopy(Replies(events), |events|)
  {
    if events != [] {
      var n := |events| - 1;
      var before := events[..n];
      var r := Step(After(before), events[n]).1;
      LastStep(events);
      StepMoves(After(before), events[n]);
      if r.CopyTaken? {
        HoldsNow(Replies(before), r.readable);
      } else {
        HeldCopyTells(before);
        HoldsOn(Replies(before), r);
      }
    }
  }

  /** A write puts back the record as it was read, with its change: whatever has become of the record between
      that read and the write, nothing else has written to it. */
  lemma WriteRestores(events: seq<Event>, n: nat)
    requires n < |events| && Replies(events)[n].Answered?
    ensures var replies := Replies(events);
            var r := ReadOf(replies, n);
            && Underway(replies, r, n)
            && (replies[n].written ==> At(events, n + 1).record == Post(Copied(replies, r), replies[n].change))
  {
    var replies, before := Replies(events), events[..n];
    PrefixRuns(events, n);
    StepAt(events, n);
    StepMoves(After(before), events[n]);
    HeldCopyTells(before);
    ReadOfPrefix(replies, n, n);
    var r := ReadOf(replies, n);
    assert replies[..n][..r] == replies[..r] && replies[..n][..n] == replies[..n];
    forall m | r < m < n
      ensures !replies[m].Answered? && !replies[m].CopyTaken? && !replies[m].Evicted?
    {
      assert replies[m] == replies[..n][m];
    }
    assert replies[r] == replies[..n][r];
    AtNext(events, n);
  }

  // ---- The record ----

  predicate Writes(r: Reply) {
    r.Answered? && r.written
  }

  /** The write at `w` drops what is on record for `b`: it is the spending of `b`, or its read had failed. */
  predicate WriteDrops(replies: seq<Reply>, w: nat, b: Binding)
    requires w < |replies|
  {
    && Writes(replies[w])
    && (replies[w].change == Spending(b) || replies[ReadOf(replies, w)] != CopyTaken(true))
  }

  /** The removal at `m` is undone by the write at `w`, which had read the record before it. */
  predicate Undoes(replies: seq<Reply>, w: nat, m: nat)
    requires w < |replies|
  {
    m < w && Writes(replies[w]) && ReadOf(replies, w) < m
  }

  /** The entry persisted at `i` is on record just before event `n`: no write since has dropped it, and every
      removal since fell between the read and the write of a change, and so was undone. */
  predicate InRecord(replies: seq<Reply>, i: nat, n: nat, b: Binding, what: Entry) {
    && i < n <= |replies| && Writes(replies[i]) && Makes(replies[i].change, b, what)
    && (forall w :: i < w < n ==> !WriteDrops(replies, w, b))
    && (forall m :: i < m < n && Removes(replies[m]) ==> exists w :: m < w < n && Undoes(replies, w, m))
  }

  /** Neither a write nor a removal. */
  lemma InRecordQuiet(replies: seq<Reply>, i: nat, n: nat, b: Binding, what: Entry)
    requires i < n < |replies| && !Writes(replies[n]) && !Removes(replies[n])
    ensures InRecord(replies, i, n + 1, b, what) <==> InRecord(replies, i, n, b, what)
  {
    if InRecord(replies, i, n, b, what) {
      forall m | i < m < n + 1 && Removes(replies[m])
        ensures exists w :: m < w < n + 1 && Undoes(replies, w, m)
      {
        var w :| m < w < n && Undoes(replies, w, m);
      }
    }
    if InRecord(replies, i, n + 1, b, what) {
      forall m | i < m < n && Removes(replies[m])
        ensures exists w :: m < w < n && Undoes(replies, w, m)
      {
        var w :| m < w < n + 1 && Undoes(replies, w, m);
      }
    }
  }

  lemma InRecordRemoved(replies: seq<Reply>, i: nat, n: nat, b: Binding, what: Entry)
    requires i < n < |replies| && Removes(replies[n])
    ensures !InRecord(replies, i, n + 1, b, what)
  {
  }

  /** Through a write: what was on record at its read. */
  lemma InRecordWritten(replies: seq<Reply>, i: nat, r: nat, n: nat, b: Binding, what: Entry)
    requires i < n < |replies| && Writes(replies[n]) && r == ReadOf(replies, n) && Underway(replies, r, n)
    ensures InRecord(replies, i, n + 1, b, what) <==> !WriteDrops(replies, n, b) && InRecord(replies, i, r, b, what)
  {
    if InRecord(replies, i, n + 1, b, what) {
      InRecordBack(replies, i, r, n, b, what);
    }
    if !WriteDrops(replies, n, b) && InRecord(replies, i, r, b, what) {
      InRecordOn(replies, i, r, n, b, what);
    }
  }

  lemma InRecordBack(replies: seq<Reply>, i: nat, r: nat, n: nat, b: Binding, what: Entry)
    requires i < n < |replies| && Writes(replies[n]) && r == ReadOf(replies, n) && Underway(replies, r, n)
    requires InRecord(replies, i, n + 1, b, what)
    ensures !WriteDrops(replies, n, b) && InRecord(replies, i, r, b, what)
  {
    assert i < r;
    forall m | i < m < r && Removes(replies[m])
      ensures exists w :: m < w < r && Undoes(replies, w, m)
    {
      var w :| m < w < n + 1 && Undoes(replies, w, m);
      assert w < r;
    }
  }

  lemma InRecordOn(replies: seq<Reply>, i: nat, r: nat, n: nat, b: Binding, what: Entry)
    requires i < n < |replies| && Writes(replies[n]) && r == ReadOf(replies, n) && Underway(replies, r, n)
    requires !WriteDrops(replies, n, b) && InRecord(replies, i, r, b, what)
    ensures InRecord(replies, i, n + 1, b, what)
  {
    forall m | i < m < n + 1 && Removes(replies[m])
      ensures exists w :: m < w < n + 1 && Undoes(replies, w, m)
    {
      if m < r {
        var w :| m < w < r && Undoes(replies, w, m);
      } else {
        assert Undoes(replies, n, m);
      }
    }
    forall w | i < w < n + 1
      ensures !WriteDrops(replies, w, b)
    {
    }
  }

  /** In every run a binding is owed, or paid, on record exactly when a refusal, or an approval, of it is. */
  lemma {:induction false} RecordIff(events: seq<Event>, n: nat, b: Binding, what: Entry)
    requires n <= |events|
    ensures b in Side(At(events, n).record, what) <==> exists i :: InRecord(Replies(events), i, n, b, what)
    decreases n, 0
  {
    if n > 0 {
      var m := n - 1;
      var reply := Replies(events)[m];
      if Writes(reply) {
        RecordIffWritten(events, m, n, b, what);
      } else if Removes(reply) {
        RecordIffRemoved(events, m, n, b, what);
      } else {
        RecordIff(events, m, b, what);
        RecordIffQuiet(events, m, n, b, what);
      }
    }
  }

  lemma RecordIffRemoved(events: seq<Event>, n: nat, next: nat, b: Binding, what: Entry)
    requires n < |events| && next == n + 1 && Removes(Replies(events)[n])
    ensures b !in Side(At(events, next).record, what) && forall i: nat :: !InRecord(Replies(events), i, next, b, what)
  {
    var replies := Replies(events);
    AtNext(events, n);
    RecordWithoutWrite(At(events, n), replies[n]);
    forall i: nat
      ensures !InRecord(replies, i, next, b, what)
    {
      if i < n {
        InRecordRemoved(replies, i, n, b, what);
      }
    }
  }

  lemma RecordIffQuiet(events: seq<Event>, n: nat, next: nat, b: Binding, what: Entry)
    requires n < |events| && next == n + 1 && !Writes(Replies(events)[n]) && !Removes(Replies(events)[n])
    requires b in Side(At(events, n).record, what) <==> exists i :: InRecord(Replies(events), i, n, b, what)
    ensures b in Side(At(events, next).record, what) <==> exists i :: InRecord(Replies(events), i, next, b, what)
  {
    var replies := Replies(events);
    AtNext(events, n);
    forall i: nat | i < n
      ensures InRecord(replies, i, next, b, what) <==> InRecord(replies, i, n, b, what)
    {
      InRecordQuiet(replies, i, n, b, what);
    }
  }

  lemma {:induction false} RecordIffWritten(events: seq<Event>, n: nat, next: nat, b: Binding, what: Entry)
    requires n < |events| && next == n + 1 && Writes(Replies(events)[n])
    ensures b in Side(At(events, next).record, what) <==> exists i :: InRecord(Replies(events), i, next, b, what)
    decreases n, 1
  {
    var replies := Replies(events);
    var r := ReadOf(replies, n);
    WriteRestores(events, n);
    SideOfPost(Copied(replies, r), replies[n].change, b, what);
    RecordIff(events, r, b, what);
    forall i: nat | i < n
      ensures InRecord(replies, i, next, b, what) <==> !WriteDrops(replies, n, b) && InRecord(replies, i, r, b, what)
    {
      InRecordWritten(replies, i, r, n, b, what);
    }
    assert InRecord(replies, n, next, b, what) <==> Makes(replies[n].change, b, what);
  }

  /** Exactly when an entry leaves the record: a write drops it, or the record is removed. */
  lemma LeavesRecordIff(events: seq<Event>, n: nat, b: Binding, what: Entry)
    requires n < |events| && b in Side(At(events, n).record, what)
    ensures var replies := Replies(events);
            b !in Side(At(events, n + 1).record, what)
            <==> Removes(replies[n]) || (WriteDrops(replies, n, b) && !Makes(replies[n].change, b, what))
  {
    var replies := Replies(events);
    AtNext(events, n);
    if Writes(replies[n]) {
      var r := ReadOf(replies, n);
      WriteRestores(events, n);
      SideOfPost(Copied(replies, r), replies[n].change, b, what);
      RecordIsQuiet(events, r, n, b, what);
    }
  }

  lemma RecordWithoutWrite(k: Books, r: Reply)
    requires !r.Answered?
    ensures Enter(k, r).record == if Removes(r) then NOTHING else k.record
  {
  }

  /** Between a read and the next write the record can only be removed. */
  lemma {:induction false} RecordIsQuiet(events: seq<Event>, r: nat, n: nat, b: Binding, what: Entry)
    requires n <= |events| && Underway(Replies(events), r, n)
    ensures b in Side(At(events, n).record, what)
            <==> b in Side(At(events, r).record, what) && forall m :: r < m < n ==> !Removes(Replies(events)[m])
    decreases n
  {
    var reply := Replies(events)[n - 1];
    AtNext(events, n - 1);
    RecordWithoutWrite(At(events, n - 1), reply);
    if n - 1 > r {
      RecordIsQuiet(events, r, n - 1, b, what);
    }
  }

  /** Exactly when an entry comes back to the record, or comes to it: its own change is written, or another
      that had read it before a removal. */
  lemma ReturnsToRecordIff(events: seq<Event>, n: nat, b: Binding, what: Entry)
    requires n < |events| && b !in Side(At(events, n).record, what)
    ensures var replies := Replies(events);
            b in Side(At(events, n + 1).record, what)
            <==> Writes(replies[n])
                 && (Makes(replies[n].change, b, what)
                     || (!WriteDrops(replies, n, b) && b in Side(At(events, ReadOf(replies, n)).record, what)
                         && exists m :: ReadOf(replies, n) < m < n && Removes(replies[m])))
  {
    var replies := Replies(events);
    AtNext(events, n);
    if Writes(replies[n]) {
      var r := ReadOf(replies, n);
      WriteRestores(events, n);
      SideOfPost(Copied(replies, r), replies[n].change, b, what);
      RecordIsQuiet(events, r, n, b, what);
    }
  }

  // ---- Which answer is to which recording ----

  /** What the running worker has recorded, and what has been answered of it, in order. */
  function Recordings(replies: seq<Reply>): seq<Change> {
    if replies == [] then []
    else
      var n := |replies| - 1;
      if replies[n].Evicted? then []
      else Recordings(replies[..n]) + if replies[n].Recorded? then [replies[n].change] else []
  }

  function Answers(replies: seq<Reply>): seq<Change> {
    if replies == [] then []
    else
      var n := |replies| - 1;
      if replies[n].Evicted? then []
      else Answers(replies[..n]) + if replies[n].Answered? then [replies[n].change] else []
  }

  /** Changes are answered in the order in which they were recorded. */
  lemma {:induction false} AnsweredInOrder(events: seq<Event>)
    ensures Recordings(Replies(events)) == Answers(Replies(events)) + After(events).worker.writes
  {
    if events != [] {
      var n := |events| - 1;
      var before := events[..n];
      AnsweredInOrder(before);
      LastStep(events);
      StepMoves(After(before), events[n]);
      assert Replies(events)[..n] == Replies(before);
    }
  }

  predicate SameLife(replies: seq<Reply>, from: nat, end: nat)
    requires end <= |replies|
  {
    forall m :: from <= m < end ==> !replies[m].Evicted?
  }

  /** Reply `k` answers what reply `m` recorded. */
  predicate AnswerOf(replies: seq<Reply>, m: nat, k: nat) {
    && m < k < |replies| && replies[m].Recorded? && replies[k].Answered? && SameLife(replies, m, k)
    && |Recordings(replies[..m])| == |Answers(replies[..k])|
  }

  lemma {:induction false} RecordingsGrow(replies: seq<Reply>, m: nat, n: nat)
    requires m <= n <= |replies| && SameLife(replies, m, n)
    ensures Recordings(replies[..m]) <= Recordings(replies[..n]) && Answers(replies[..m]) <= Answers(replies[..n])
    decreases n
  {
    if m < n {
      RecordingsGrow(replies, m, n - 1);
      assert replies[..n][..n - 1] == replies[..n - 1];
    }
  }

  lemma RecordingsAt(replies: seq<Reply>, m: nat)
    requires m < |replies| && replies[m].Recorded?
    ensures Recordings(replies[..m + 1]) == Recordings(replies[..m]) + [replies[m].change]
  {
    assert replies[..m + 1][..m] == replies[..m];
  }

  lemma AnswersAt(replies: seq<Reply>, k: nat)
    requires k < |replies| && replies[k].Answered?
    ensures Answers(replies[..k + 1]) == Answers(replies[..k]) + [replies[k].change]
  {
    assert replies[..k + 1][..k] == replies[..k];
  }

  /** A recording and its answer are of the same change. */
  lemma AnswersItsOwn(events: seq<Event>, m: nat, k: nat)
    requires k < |events| && AnswerOf(Replies(events), m, k)
    ensures Replies(events)[k].change == Replies(events)[m].change
  {
    var replies := Replies(events);
    PrefixRuns(events, k);
    StepAt(events, k);
    AnsweredInOrder(events[..k]);
    StepMoves(After(events[..k]), events[k]);
    RecordingsAt(replies, m);
    RecordingsGrow(replies, m + 1, k);
    var i := |Answers(replies[..k])|;
    assert Recordings(replies[..k])[i] == replies[k].change;
    assert Recordings(replies[..m + 1])[i] == replies[m].change;
  }

  lemma {:induction false} RecordingOfIndex(replies: seq<Reply>, n: nat, i: nat) returns (m: nat)
    requires n <= |replies| && i < |Recordings(replies[..n])|
    ensures m < n && replies[m].Recorded? && SameLife(replies, m, n) && |Recordings(replies[..m])| == i
    decreases n
  {
    assert replies[..n][..n - 1] == replies[..n - 1];
    if i < |Recordings(replies[..n - 1])| {
      m := RecordingOfIndex(replies, n - 1, i);
    } else {
      m := n - 1;
    }
  }

  /** Every answer is to a recording. */
  lemma AnswerHasRecording(events: seq<Event>, k: nat) returns (m: nat)
    requires k < |events| && Replies(events)[k].Answered?
    ensures AnswerOf(Replies(events), m, k)
  {
    PrefixRuns(events, k);
    StepAt(events, k);
    AnsweredInOrder(events[..k]);
    StepMoves(After(events[..k]), events[k]);
    m := RecordingOfIndex(Replies(events), k, |Answers(Replies(events)[..k])|);
  }

  /** What was recorded earlier is answered earlier. */
  lemma EarlierIsAnsweredEarlier(replies: seq<Reply>, m: nat, k: nat, first: nat, w: nat)
    requires m < first && AnswerOf(replies, m, k) && AnswerOf(replies, first, w)
    ensures k < w
  {
    if w <= k {
      RecordingsAt(replies, m);
      RecordingsGrow(replies, m + 1, first);
      RecordingsGrow(replies, w, k);
    }
  }
}
