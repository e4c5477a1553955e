/** The work-dispatch protocol of brot/mandelbrot_dyn.c: one master hands out columns to slaves, one at a time.

  Messages between two processes keep their order; sending never blocks.  All interleavings of single steps are
  considered. */
module Dispatching {
  import opened Sorting

  // Tags TAG_ASSIGN and TAG_WORK_DONE.
  datatype Msg = Assign(column: nat) | WorkDone

  // Where the master stands: the two loops of the initial dispatch, MPI_Recv, the answer to a slave, drawing.
  datatype MasterPc = Init(i: nat) | NoWork(i: nat) | Waiting | Replying(slave: nat, column: nat) | Drawing(column: nat)
      | Finished

  datatype SlavePc = Listening | Computing(column: nat) | Exited

  // sent[s] is all the master ever sent to slave s, of which s has taken taken[s]; results[s] is what s sent back, of
  // which the master has received received[s].  owner records which slave each column went to.
  datatype State = State(
    pc: MasterPc, next: nat, outstanding: int,
    sent: seq<seq<Msg>>, taken: seq<nat>, slaves: seq<SlavePc>,
    results: seq<seq<nat>>, received: seq<nat>,
    drawn: seq<nat>, owner: seq<nat>)

  // columns is X_RESN, n the number of slaves.
  ghost predicate Start(st: State, columns: nat, n: nat) {
    && st.pc == Init(0) && st.next == 0 && st.outstanding == 0 && st.drawn == [] && st.owner == []
    && |st.sent| == |st.taken| == |st.slaves| == |st.results| == |st.received| == n
    && forall s | 0 <= s < n :: st.sent[s] == [] && st.taken[s] == 0 && st.slaves[s] == Listening && st.results[s] == []
        && st.received[s] == 0
  }

  ghost predicate Sized(st: State, n: nat) {
    |st.sent| == |st.taken| == |st.slaves| == |st.results| == |st.received| == n
  }

  // MPI_Send of the next column, and the counters after it.
  function Hand(st: State, s: nat, pc: MasterPc): State
    requires s < |st.sent|
  {
    st.(sent := st.sent[s := st.sent[s] + [Assign(st.next)]], owner := st.owner + [s],
        next := st.next + 1, outstanding := st.outstanding + 1, pc := pc)
  }

  function Dismiss(st: State, s: nat, pc: MasterPc): State
    requires s < |st.sent|
  {
    st.(sent := st.sent[s := st.sent[s] + [WorkDone]], pc := pc)
  }

  ghost predicate MasterStep(columns: nat, n: nat, st: State, st': State)
    requires Sized(st, n)
  {
    match st.pc
    case Init(i) => st' == if i < n && i < columns then Hand(st, i, Init(i + 1)) else st.(pc := NoWork(i))
    case NoWork(i) => st' == if i < n then Dismiss(st, i, NoWork(i + 1)) else st.(pc := Waiting)
    case Waiting =>
      if st.outstanding > 0 then exists s: nat :: s < n && ReceiveFrom(st, s, st')
      else st' == st.(pc := Finished)
    case Replying(s, c) => s < n && st' == if st.next < columns then Hand(st, s, Drawing(c))
        else Dismiss(st, s, Drawing(c))
    case Drawing(c) => st' == st.(drawn := st.drawn + [c], pc := Waiting)
    case Finished => false
  }

  // MPI_Recv from MPI_ANY_SOURCE turns out to be from s.
  ghost predicate ReceiveFrom(st: State, s: nat, st': State) {
    && s < |st.results| == |st.received| && st.received[s] < |st.results[s]|
    && st' == st.(received := st.received[s := st.received[s] + 1], outstanding := st.outstanding - 1,
                  pc := Replying(s, st.results[s][st.received[s]]))
  }

  ghost predicate SlaveStep(n: nat, s: nat, st: State, st': State)
    requires Sized(st, n) && s < n
  {
    match st.slaves[s]
    case Listening => st.taken[s] < |st.sent[s]| &&
      st' == st.(taken := st.taken[s := st.taken[s] + 1],
                 slaves := st.slaves[s :=
                     match st.sent[s][st.taken[s]] case Assign(c) => Computing(c) case WorkDone => Exited])
    case Computing(c) => st' == st.(results := st.results[s := st.results[s] + [c]],
        slaves := st.slaves[s := Listening])
    case Exited => false
  }

  ghost predicate Step(columns: nat, n: nat, st: State, st': State) {
    Sized(st, n) && (MasterStep(columns, n, st, st') || exists s: nat :: s < n && SlaveStep(n, s, st, st'))
  }

  ghost predicate CanStep(columns: nat, n: nat, st: State) {
    exists st' :: Step(columns, n, st, st')
  }

  // ---- one slave ----

  // What has been sent is a number of assignments, then perhaps the dismissal.
  predicate Dismissed(sent: seq<Msg>) {
    sent != [] && sent[|sent| - 1] == WorkDone
  }

  ghost predicate Orders(sent: seq<Msg>) {
    && (forall i | 0 <= i < |sent| - 1 :: sent[i].Assign?)
    && (forall i, j | 0 <= i < j < |sent| && sent[j].Assign? :: sent[i].column < sent[j].column)
  }

  // The number of columns given to a slave.
  function Given(sent: seq<Msg>): nat {
    if Dismissed(sent) then |sent| - 1 else |sent|
  }

  // How far slave s has got.  Nothing, a column in one of three places, a dismissal under way, or gone.
  ghost predicate SlaveOK(st: State, n: nat, s: nat)
    requires Sized(st, n) && s < n
  {
    var sent, got, pc, res, rec := st.sent[s], st.taken[s], st.slaves[s], st.results[s], st.received[s];
    && Orders(sent)
    && (forall i | 0 <= i < |res| && i < Given(sent) :: sent[i] == Assign(res[i]))
    && (if Dismissed(sent) then |res| == rec == Given(sent)
        && ((got == Given(sent) && pc == Listening) || (got == |sent| && pc == Exited))
        else Free(st, n, s) || Ordered(st, n, s) || Working(st, n, s) || Answered(st, n, s))
  }

  ghost predicate Free(st: State, n: nat, s: nat)
    requires Sized(st, n) && s < n
  {
    st.taken[s] == |st.results[s]| == st.received[s] == |st.sent[s]| && st.slaves[s] == Listening
  }

  // an assignment is on its way
  ghost predicate Ordered(st: State, n: nat, s: nat)
    requires Sized(st, n) && s < n
  {
    st.taken[s] == |st.results[s]| == st.received[s] == |st.sent[s]| - 1 && st.slaves[s] == Listening
  }

  ghost predicate Working(st: State, n: nat, s: nat)
    requires Sized(st, n) && s < n
  {
    && st.taken[s] == |st.sent[s]| && |st.results[s]| == st.received[s] == |st.sent[s]| - 1
    && st.slaves[s].Computing? && st.sent[s][|st.sent[s]| - 1] == Assign(st.slaves[s].column)
  }

  // a result is on its way back
  ghost predicate Answered(st: State, n: nat, s: nat)
    requires Sized(st, n) && s < n
  {
    && st.taken[s] == |st.results[s]| == |st.sent[s]| && st.received[s] == |st.sent[s]| - 1
    && st.slaves[s] == Listening
  }

  // The column slave s is busy with.
  ghost predicate BusyWith(st: State, n: nat, s: nat, c: nat)
    requires Sized(st, n) && s < n
  {
    && !Dismissed(st.sent[s]) && !Free(st, n, s) && |st.sent[s]| > 0
    && st.sent[s][|st.sent[s]| - 1] == Assign(c)
  }

  // ---- all columns ----

  // The column received but not drawn yet.
  function InHand(pc: MasterPc): set<nat> {
    match pc
    case Replying(_, c) => {c}
    case Drawing(c) => {c}
    case _ => {}
  }

  // Column c is with the slave it was given to, or in the master's hands, or drawn, and in one of these places only.
  ghost predicate Placed(st: State, n: nat, c: nat)
    requires Sized(st, n)
  {
    && c < |st.owner| && st.owner[c] < n && Assign(c) in st.sent[st.owner[c]]
    && (if c in st.drawn then c !in InHand(st.pc) && !BusyWith(st, n, st.owner[c], c)
        else if c in InHand(st.pc) then !BusyWith(st, n, st.owner[c], c)
        else BusyWith(st, n, st.owner[c], c))
  }

  // Columns with a slave are the slave's.
  ghost predicate Owned(st: State, n: nat, s: nat, i: nat)
    requires Sized(st, n) && s < n && i < |st.sent[s]|
  {
    st.sent[s][i].Assign? ==> st.sent[s][i].column < st.next == |st.owner| && st.owner[st.sent[s][i].column] == s
  }

  ghost predicate PcOK(st: State, columns: nat, n: nat)
    requires Sized(st, n)
  {
    match st.pc
    case Init(i) => i == st.next <= n && i <= columns && st.drawn == []
        && (forall s: nat | i <= s < n :: st.sent[s] == [])
                    && (forall s: nat | s < n :: !Dismissed(st.sent[s])) && (forall s: nat | s < i :: st.sent[s] != [])
    case NoWork(i) => i <= n && st.next <= i && (i > st.next ==> st.next == columns)
        && (st.next == columns || st.next == n) && st.drawn == []
                      && (forall s: nat | s < i :: st.sent[s] != []) && (forall s: nat | i <= s < n :: st.sent[s] == [])
                      && (forall s: nat | s < n && Dismissed(st.sent[s]) :: st.next == columns)
    case Waiting => Settled(st, columns, n)
    case Replying(s, c) => s < n && Free(st, n, s) && !Dismissed(st.sent[s]) && SettledBut(st, columns, n, s)
    case Drawing(_) => Settled(st, columns, n)
    case Finished => st.outstanding == 0 && Settled(st, columns, n)
  }

  // Every slave has been told something it has not answered, or has been dismissed; dismissals come when all columns
  // are out.
  ghost predicate Settled(st: State, columns: nat, n: nat)
    requires Sized(st, n)
  {
    && (forall s: nat | s < n :: Dismissed(st.sent[s]) || !Free(st, n, s))
    && (forall s: nat | s < n && Dismissed(st.sent[s]) :: st.next == columns)
  }

  ghost predicate SettledBut(st: State, columns: nat, n: nat, s0: nat)
    requires Sized(st, n)
  {
    && (forall s: nat | s < n && s != s0 :: Dismissed(st.sent[s]) || !Free(st, n, s))
    && (forall s: nat | s < n && Dismissed(st.sent[s]) :: st.next == columns)
  }

  ghost predicate Inv(st: State, columns: nat, n: nat) {
    && Sized(st, n)
    && st.next == |st.owner| <= columns
    && (forall s: nat | s < n :: SlaveOK(st, n, s))
    && (forall c: nat | c < st.next :: Placed(st, n, c))
    && (forall s: nat, i: nat | s < n && i < |st.sent[s]| :: Owned(st, n, s, i))
    && AllDifferent(st.drawn) && (forall c <- st.drawn :: c < st.next) && (forall c <- InHand(st.pc) :: c < st.next)
    && st.outstanding == st.next - |st.drawn| - |InHand(st.pc)|
    && PcOK(st, columns, n)
  }

  lemma StartInv(st: State, columns: nat, n: nat)
    requires Start(st, columns, n)
    ensures Inv(st, columns, n)
  {
  }

  // ---- every step keeps the invariant ----

  // A message to s0, who is free and not dismissed.
  lemma HandInv(st: State, columns: nat, n: nat, s0: nat, pc: MasterPc)
    requires Inv(st, columns, n) && s0 < n && Free(st, n, s0) && !Dismissed(st.sent[s0]) && st.next < columns
    requires InHand(pc) == InHand(st.pc) && PcOK(Hand(st, s0, pc), columns, n)
    ensures Inv(Hand(st, s0, pc), columns, n)
  {
    hide PcOK;
    var st' := Hand(st, s0, pc);
    forall s: nat | s < n ensures SlaveOK(st', n, s) {
      assert SlaveOK(st, n, s);
      if s == s0 {
        forall i: nat | i < |st.sent[s]|
          ensures st.sent[s][i].Assign? && st.sent[s][i].column < st.next
        {
          assert Owned(st, n, s, i);
        }
        assert Ordered(st', n, s);
      }
    }
    forall c: nat | c < st'.next ensures Placed(st', n, c) {
      if c < st.next {
        assert Placed(st, n, c);
      } else {
        assert BusyWith(st', n, s0, c);
      }
    }
    forall s: nat, i: nat | s < n && i < |st'.sent[s]| ensures Owned(st', n, s, i) {
      if i < |st.sent[s]| { assert Owned(st, n, s, i); }
    }
  }

  lemma DismissInv(st: State, columns: nat, n: nat, s0: nat, pc: MasterPc)
    requires Inv(st, columns, n) && s0 < n && Free(st, n, s0) && !Dismissed(st.sent[s0])
    requires InHand(pc) == InHand(st.pc) && PcOK(Dismiss(st, s0, pc), columns, n)
    ensures Inv(Dismiss(st, s0, pc), columns, n)
  {
    hide PcOK;
    var st' := Dismiss(st, s0, pc);
    forall s: nat | s < n ensures SlaveOK(st', n, s) { assert SlaveOK(st, n, s); }
    forall c: nat | c < st'.next ensures Placed(st', n, c) { assert Placed(st, n, c); }
    forall s: nat, i: nat | s < n && i < |st'.sent[s]| ensures Owned(st', n, s, i) {
      if i < |st.sent[s]| { assert Owned(st, n, s, i); }
    }
  }

  // What a slave with a result under way is busy with.
  lemma ResultIsBusy(st: State, columns: nat, n: nat, s: nat)
    requires Inv(st, columns, n) && s < n && st.received[s] < |st.results[s]|
    ensures Answered(st, n, s) && BusyWith(st, n, s, st.results[s][st.received[s]])
    ensures var c := st.results[s][st.received[s]];
      c < st.next && st.owner[c] == s && c !in st.drawn
      && c !in InHand(st.pc)
  {
    assert SlaveOK(st, n, s);
    var i := |st.sent[s]| - 1;
    assert Owned(st, n, s, i);
    assert Placed(st, n, st.results[s][st.received[s]]);
  }

  lemma ReceiveInv(st: State, columns: nat, n: nat, s0: nat, st': State)
    requires Inv(st, columns, n) && st.pc == Waiting && s0 < n && ReceiveFrom(st, s0, st')
    ensures Inv(st', columns, n)
  {
    ResultIsBusy(st, columns, n, s0);
    assert SlaveOK(st, n, s0);
    forall s: nat | s < n ensures SlaveOK(st', n, s) {
      assert SlaveOK(st, n, s);
      if s == s0 { assert Free(st', n, s); }
    }
    forall c: nat | c < st'.next ensures Placed(st', n, c) {
      assert Placed(st, n, c);
      if st.owner[c] == s0 && BusyWith(st, n, s0, c) { assert c == st.results[s0][st.received[s0]]; }
    }
    forall s: nat, i: nat | s < n && i < |st'.sent[s]| ensures Owned(st', n, s, i) { assert Owned(st, n, s, i); }
  }

  lemma DrawInv(st: State, columns: nat, n: nat)
    requires Inv(st, columns, n) && st.pc.Drawing?
    ensures Inv(st.(drawn := st.drawn + [st.pc.column], pc := Waiting), columns, n)
  {
    var c0 := st.pc.column;
    var st' := st.(drawn := st.drawn + [c0], pc := Waiting);
    assert c0 in InHand(st.pc);
    assert Placed(st, n, c0);
    forall s: nat | s < n ensures SlaveOK(st', n, s) { assert SlaveOK(st, n, s); }
    forall c: nat | c < st'.next ensures Placed(st', n, c) { assert Placed(st, n, c); }
    forall s: nat, i: nat | s < n && i < |st'.sent[s]| ensures Owned(st', n, s, i) { assert Owned(st, n, s, i); }
  }

  // Only the master's place changes.
  lemma PcInv(st: State, columns: nat, n: nat, pc: MasterPc)
    requires Inv(st, columns, n) && InHand(pc) == InHand(st.pc) && PcOK(st.(pc := pc), columns, n)
    ensures Inv(st.(pc := pc), columns, n)
  {
    hide PcOK;
    var st' := st.(pc := pc);
    forall s: nat | s < n ensures SlaveOK(st', n, s) { assert SlaveOK(st, n, s); }
    forall c: nat | c < st'.next ensures Placed(st', n, c) { assert Placed(st, n, c); }
    forall s: nat, i: nat | s < n && i < |st'.sent[s]| ensures Owned(st', n, s, i) { assert Owned(st, n, s, i); }
  }

  lemma SlaveInv(st: State, columns: nat, n: nat, s0: nat, st': State)
    requires Inv(st, columns, n) && s0 < n && SlaveStep(n, s0, st, st')
    ensures Inv(st', columns, n)
  {
    SlaveMoves(st, columns, n, s0, st');
    PcUnmoved(st, columns, n, s0, st');
    hide PcOK, SlaveOK, Orders, SlaveStep;
    forall c: nat | c < st'.next ensures Placed(st', n, c) { assert Placed(st, n, c); }
    forall s: nat, i: nat | s < n && i < |st'.sent[s]| ensures Owned(st', n, s, i) { assert Owned(st, n, s, i); }
  }

  // Where the slave is changes; what it is busy with does not.
  lemma SlaveMoves(st: State, columns: nat, n: nat, s0: nat, st': State)
    requires Inv(st, columns, n) && s0 < n && SlaveStep(n, s0, st, st')
    ensures Sized(st', n) && (forall s: nat | s < n :: SlaveOK(st', n, s))
    ensures st'.sent == st.sent && st'.owner == st.owner && st'.next == st.next && st'.drawn == st.drawn
      && st'.pc == st.pc
    ensures st'.outstanding == st.outstanding && forall s: nat | s < n && !Dismissed(st.sent[s]) ::
      Free(st', n, s) == Free(st, n, s)
  {
    assert SlaveOK(st, n, s0);
    hide Orders, PcOK, Placed, Owned;
    forall s: nat | s < n ensures SlaveOK(st', n, s) {
      assert SlaveOK(st, n, s);
      if s == s0 && !Dismissed(st.sent[s]) { assert Working(st', n, s) || Answered(st', n, s); }
    }
  }

  lemma PcUnmoved(st: State, columns: nat, n: nat, s0: nat, st': State)
    requires Inv(st, columns, n) && s0 < n && Sized(st', n)
    requires st'.sent == st.sent && st'.next == st.next && st'.drawn == st.drawn && st'.pc == st.pc
      && st'.outstanding == st.outstanding
    requires forall s: nat | s < n && !Dismissed(st.sent[s]) :: Free(st', n, s) == Free(st, n, s)
    ensures PcOK(st', columns, n)
  {
    hide SlaveOK, Placed, Owned, Free;
  }

  // ---- whole runs ----

  lemma MasterInv(st: State, columns: nat, n: nat, st': State)
    requires Inv(st, columns, n) && MasterStep(columns, n, st, st')
    ensures Inv(st', columns, n)
  {
    hide Inv, PcOK, Hand, Dismiss;
    match st.pc
    case Init(i) => InitInv(st, columns, n);
    case NoWork(i) => NoWorkInv(st, columns, n);
    case Waiting =>
      if st.outstanding > 0 {
        var s: nat :| s < n && ReceiveFrom(st, s, st');
        ReceiveInv(st, columns, n, s, st');
      } else {
        FinishInv(st, columns, n);
      }
    case Replying(s, c) => ReplyInv(st, columns, n);
    case Drawing(c) => DrawInv(st, columns, n);
    case Finished =>
  }

  lemma InitInv(st: State, columns: nat, n: nat)
    requires Inv(st, columns, n) && st.pc.Init?
    ensures var i := st.pc.i;
      Inv(if i < n && i < columns then Hand(st, i, Init(i + 1)) else st.(pc := NoWork(i)), columns, n)
  {
    var i := st.pc.i;
    if i < n && i < columns {
      assert SlaveOK(st, n, i);
      HandInv(st, columns, n, i, Init(i + 1));
    } else {
      PcInv(st, columns, n, NoWork(i));
    }
  }

  lemma NoWorkInv(st: State, columns: nat, n: nat)
    requires Inv(st, columns, n) && st.pc.NoWork?
    ensures var i := st.pc.i;
      Inv(if i < n then Dismiss(st, i, NoWork(i + 1)) else st.(pc := Waiting), columns, n)
  {
    var i := st.pc.i;
    if i < n {
      assert SlaveOK(st, n, i);
      DismissInv(st, columns, n, i, NoWork(i + 1));
    } else {
      AllSettled(st, columns, n);
      PcInv(st, columns, n, Waiting);
    }
  }

  lemma ReplyInv(st: State, columns: nat, n: nat)
    requires Inv(st, columns, n) && st.pc.Replying?
    ensures var (s, c) := (st.pc.slave, st.pc.column);
      s < n && Inv(if st.next < columns then Hand(st, s, Drawing(c)) else Dismiss(st, s, Drawing(c)), columns, n)
  {
    if st.next < columns {
      HandInv(st, columns, n, st.pc.slave, Drawing(st.pc.column));
    } else {
      DismissInv(st, columns, n, st.pc.slave, Drawing(st.pc.column));
    }
  }

  lemma FinishInv(st: State, columns: nat, n: nat)
    requires Inv(st, columns, n) && st.pc == Waiting && st.outstanding <= 0
    ensures Inv(st.(pc := Finished), columns, n)
  {
    NothingOut(st, columns, n);
    PcInv(st, columns, n, Finished);
  }

  lemma AllSettled(st: State, columns: nat, n: nat)
    requires Inv(st, columns, n) && st.pc.NoWork? && st.pc.i >= n
    ensures Settled(st, columns, n)
  {
    forall s: nat | s < n ensures Dismissed(st.sent[s]) || !Free(st, n, s) {
      assert SlaveOK(st, n, s);
      if !Dismissed(st.sent[s]) {
        var i := |st.sent[s]| - 1;
        assert Owned(st, n, s, i);
        assert Placed(st, n, st.sent[s][i].column);
      }
    }
  }

  // ---- counting ----

  lemma NoneMissing(d: seq<nat>, m: nat)
    requires AllDifferent(d) && forall c: nat | c < m :: c in d
    ensures |d| >= m
  {
    DistinctCount(d);
    Inside(Below(m), Members(d));
  }

  lemma NothingOut(st: State, columns: nat, n: nat)
    requires Inv(st, columns, n)
    ensures st.outstanding >= 0 || InHand(st.pc) != {}
    ensures st.outstanding == 0 && InHand(st.pc) == {} ==> forall c: nat | c < st.next :: c in st.drawn
  {
    Pigeonhole(st.drawn, st.next);
  }

  // ---- main results ----

  lemma StepInv(st: State, columns: nat, n: nat, st': State)
    requires Inv(st, columns, n) && Step(columns, n, st, st')
    ensures Inv(st', columns, n)
  {
    hide Inv, MasterStep, SlaveStep;
    if MasterStep(columns, n, st, st') {
      MasterInv(st, columns, n, st');
    } else {
      var s: nat :| s < n && SlaveStep(n, s, st, st');
      SlaveInv(st, columns, n, s, st');
    }
  }

  // Each column is assigned once: to one slave, in one message.
  lemma AssignedOnce(st: State, columns: nat, n: nat)
    requires Inv(st, columns, n)
    ensures forall c: nat | c < st.next :: st.owner[c] < n && Assign(c) in st.sent[st.owner[c]]
    ensures forall s: nat, i: nat, s': nat, i': nat | s < n && s' < n && i < |st.sent[s]| && i' < |st.sent[s']|
      && st.sent[s][i].Assign? && st.sent[s][i] == st.sent[s'][i'] :: s == s' && i == i'
  {
    forall c: nat | c < st.next
      ensures st.owner[c] < n && Assign(c) in st.sent[st.owner[c]]
    {
      assert Placed(st, n, c);
    }
    forall s: nat, i: nat, s': nat, i': nat | s < n && s' < n && i < |st.sent[s]| && i' < |st.sent[s']|
      && st.sent[s][i].Assign? && st.sent[s][i] == st.sent[s'][i'] ensures s == s' && i == i'
    {
      assert Owned(st, n, s, i) && Owned(st, n, s', i');
      assert SlaveOK(st, n, s);
    }
  }

  // outstanding_ct is the number of columns assigned but not yet received; each of them is with a slave.
  lemma OutstandingMeans(st: State, columns: nat, n: nat)
    requires Inv(st, columns, n)
    ensures st.outstanding == st.next - |st.drawn| - |InHand(st.pc)|
    ensures forall c: nat | c < st.next && c !in st.drawn && c !in InHand(st.pc) ::
      exists s: nat :: s < n && BusyWith(st, n, s, c)
  {
    forall c: nat | c < st.next && c !in st.drawn && c !in InHand(st.pc)
      ensures exists s: nat :: s < n && BusyWith(st, n, s, c)
    {
      assert Placed(st, n, c);
    }
  }

  ghost predicate Over(st: State, n: nat) {
    Sized(st, n) && st.pc == Finished && forall s: nat | s < n :: st.slaves[s] == Exited
  }

  // No deadlock: until the master has finished and all slaves have exited, some process can go on.
  lemma NoDeadlock(st: State, columns: nat, n: nat)
    requires Inv(st, columns, n) && !Over(st, n)
    ensures CanStep(columns, n, st)
  {
    if st.pc == Finished {
      NothingOut(st, columns, n);
      var s: nat :| s < n && st.slaves[s] != Exited;
      FinishedDismissed(st, columns, n, s);
      assert SlaveOK(st, n, s);
      SlaveCanGo(st, columns, n, s);
    } else if st.pc == Waiting && st.outstanding > 0 {
      SomeoneBusy(st, columns, n);
      var s: nat, c: nat :| s < n && BusyWith(st, n, s, c);
      assert SlaveOK(st, n, s);
      if Answered(st, n, s) {
        var st' := st.(received := st.received[s := st.received[s] + 1], outstanding := st.outstanding - 1,
                       pc := Replying(s, st.results[s][st.received[s]]));
        assert ReceiveFrom(st, s, st');
        assert Step(columns, n, st, st');
      } else {
        SlaveCanGo(st, columns, n, s);
      }
    } else {
      MasterCanGo(st, columns, n);
    }
  }

  lemma SomeoneBusy(st: State, columns: nat, n: nat)
    requires Inv(st, columns, n) && st.pc == Waiting && st.outstanding > 0
    ensures exists s: nat, c: nat :: s < n && BusyWith(st, n, s, c)
  {
    if forall c: nat | c < st.next :: c in st.drawn { NoneMissing(st.drawn, st.next); }
    var c: nat :| c < st.next && c !in st.drawn;
    assert Placed(st, n, c);
  }

  lemma SlaveCanGo(st: State, columns: nat, n: nat, s: nat)
    requires Sized(st, n) && s < n && (st.slaves[s].Computing?
      || (st.slaves[s] == Listening && st.taken[s] < |st.sent[s]|))
    ensures CanStep(columns, n, st)
  {
    var st' := if st.slaves[s].Computing?
      then st.(results := st.results[s := st.results[s] + [st.slaves[s].column]], slaves := st.slaves[s := Listening])
      else st.(taken := st.taken[s := st.taken[s] + 1],
               slaves := st.slaves[s :=
                   match st.sent[s][st.taken[s]] case Assign(c) => Computing(c) case WorkDone => Exited]);
    assert SlaveStep(n, s, st, st');
    assert Step(columns, n, st, st');
  }

  lemma MasterCanGo(st: State, columns: nat, n: nat)
    requires Inv(st, columns, n) && st.pc != Finished && (st.pc == Waiting ==> st.outstanding <= 0)
    ensures CanStep(columns, n, st)
  {
    var st' := match st.pc
      case Init(i) => if i < n && i < columns then Hand(st, i, Init(i + 1)) else st.(pc := NoWork(i))
      case NoWork(i) => if i < n then Dismiss(st, i, NoWork(i + 1)) else st.(pc := Waiting)
      case Waiting => st.(pc := Finished)
      case Replying(s, c) => if st.next < columns then Hand(st, s, Drawing(c)) else Dismiss(st, s, Drawing(c))
      case Drawing(c) => st.(drawn := st.drawn + [c], pc := Waiting)
      case Finished => st;
    assert MasterStep(columns, n, st, st');
    assert Step(columns, n, st, st');
  }

  lemma FinishedDismissed(st: State, columns: nat, n: nat, s: nat)
    requires Inv(st, columns, n) && st.pc == Finished && s < n
    ensures Dismissed(st.sent[s])
  {
    NothingOut(st, columns, n);
    if !Dismissed(st.sent[s]) { BusyColumn(st, columns, n, s); }
  }

  // A slave with something to do has a column that is neither drawn nor in the master's hands.
  lemma BusyColumn(st: State, columns: nat, n: nat, s: nat)
    requires Inv(st, columns, n) && s < n && !Dismissed(st.sent[s]) && !Free(st, n, s)
    ensures exists c: nat :: c < st.next && c !in st.drawn && c !in InHand(st.pc)
  {
    assert SlaveOK(st, n, s);
    var i := |st.sent[s]| - 1;
    assert Owned(st, n, s, i);
    var c := st.sent[s][i].column;
    assert Placed(st, n, c);
    assert BusyWith(st, n, s, c);
  }

  // When the master has finished, every slave has been sent WORK_DONE exactly once, after all its columns, and has
  // answered these; and every column has been drawn exactly once, provided there is a slave at all.
  lemma FinishedMeans(st: State, columns: nat, n: nat)
    requires Inv(st, columns, n) && st.pc == Finished
    ensures forall s: nat | s < n :: ServedAndDismissed(st, n, s)
    ensures AllDifferent(st.drawn) && forall c <- st.drawn :: c < columns
    ensures (forall c: nat | c < columns :: c in st.drawn) <==> n > 0 || columns == 0
  {
    forall s: nat | s < n ensures ServedAndDismissed(st, n, s) {
      FinishedDismissed(st, columns, n, s);
      assert SlaveOK(st, n, s);
    }
    NothingOut(st, columns, n);
    if n == 0 {
      NobodyNothing(st, columns);
      assert columns > 0 ==> 0 !in st.drawn;
    } else {
      FinishedDismissed(st, columns, n, 0);
    }
  }

  ghost predicate ServedAndDismissed(st: State, n: nat, s: nat)
    requires Sized(st, n) && s < n
  {
    && Dismissed(st.sent[s]) && (forall i | 0 <= i < |st.sent[s]| - 1 :: st.sent[s][i].Assign?)
    && |st.results[s]| == st.received[s] == |st.sent[s]| - 1
  }

  lemma NobodyNothing(st: State, columns: nat)
    requires Inv(st, columns, 0)
    ensures st.next == 0 && st.drawn == []
  {
    if st.next > 0 { OwnerInRange(st, columns, 0, 0); }
    if |st.drawn| > 0 { DrawnBelow(st, columns, 0, 0); }
  }

  lemma OwnerInRange(st: State, columns: nat, n: nat, c: nat)
    requires Inv(st, columns, n) && c < st.next
    ensures st.owner[c] < n
  {
    assert Placed(st, n, c);
  }

  lemma DrawnBelow(st: State, columns: nat, n: nat, i: nat)
    requires Inv(st, columns, n) && i < |st.drawn|
    ensures st.drawn[i] < st.next
  {
    assert st.drawn[i] in st.drawn;
  }

  // ---- termination ----

  function Weight(pc: MasterPc): nat {
    match pc
    case Init(_) => 5
    case NoWork(_) => 4
    case Waiting => 3
    case Replying(_, _) => 5
    case Drawing(_) => 4
    case Finished => 0
  }

  // What slave s can still do, with a dismissal in the end.
  function SlaveWeight(st: State, n: nat, s: nat): nat
    requires |st.sent| == |st.taken| == |st.slaves| == |st.results| == |st.received| == n && s < n
  {
    if Dismissed(st.sent[s]) then (if st.slaves[s] == Exited then 0 else 1)
    else if st.slaves[s].Computing? then 7
    else if st.taken[s] < |st.sent[s]| then 8
    else if st.received[s] < |st.results[s]| then 6
    else 3
  }

  function Total(st: State, n: nat, k: nat): nat
    requires |st.sent| == |st.taken| == |st.slaves| == |st.results| == |st.received| == n && k <= n
  {
    if k == 0 then 0 else Total(st, n, k - 1) + SlaveWeight(st, n, k - 1)
  }

  function Measure(st: State, columns: nat, n: nat): int
    requires |st.sent| == |st.taken| == |st.slaves| == |st.results| == |st.received| == n
  {
    10 * (columns - st.next) + Total(st, n, n) + Weight(st.pc)
  }

  lemma {:induction false} TotalChange(st: State, st': State, n: nat, k: nat, s0: nat)
    requires Sized(st, n) && Sized(st', n) && s0 < n && k <= n
    requires forall s: nat | s < n && s != s0 :: SlaveWeight(st', n, s) == SlaveWeight(st, n, s)
    ensures Total(st', n, k) == Total(st, n, k) + if s0 < k then SlaveWeight(st', n, s0) - SlaveWeight(st, n, s0) else 0
  {
    if k > 0 { TotalChange(st, st', n, k - 1, s0); }
  }

  lemma {:induction false} TotalSame(st: State, st': State, n: nat, k: nat)
    requires Sized(st, n) && Sized(st', n) && k <= n
    requires forall s: nat | s < n :: SlaveWeight(st', n, s) == SlaveWeight(st, n, s)
    ensures Total(st', n, k) == Total(st, n, k)
  {
    if k > 0 { TotalSame(st, st', n, k - 1); }
  }

  lemma {:induction false} TotalBound(st: State, n: nat, k: nat)
    requires Sized(st, n) && k <= n
    ensures Total(st, n, k) <= 8 * k
  {
    if k > 0 { TotalBound(st, n, k - 1); }
  }

  lemma SlaveShrinks(st: State, columns: nat, n: nat, s0: nat, st': State)
    requires Inv(st, columns, n) && s0 < n && SlaveStep(n, s0, st, st')
    ensures Sized(st', n) && Measure(st', columns, n) < Measure(st, columns, n)
  {
    assert SlaveOK(st, n, s0);
    TotalChange(st, st', n, n, s0);
  }

  lemma HandShrinks(st: State, columns: nat, n: nat, s0: nat, pc: MasterPc)
    requires Sized(st, n) && s0 < n && Weight(pc) <= Weight(st.pc) && SlaveWeight(st, n, s0) == 3
    ensures Sized(Hand(st, s0, pc), n) && Measure(Hand(st, s0, pc), columns, n) < Measure(st, columns, n)
    ensures !Dismissed(st.sent[s0]) && Sized(Dismiss(st, s0, pc), n)
      && Measure(Dismiss(st, s0, pc), columns, n) < Measure(st, columns, n)
  {
    TotalChange(st, Hand(st, s0, pc), n, n, s0);
    TotalChange(st, Dismiss(st, s0, pc), n, n, s0);
  }

  lemma UntouchedFree(st: State, columns: nat, n: nat, s: nat)
    requires Inv(st, columns, n) && s < n && st.sent[s] == []
    ensures Free(st, n, s) && !Dismissed(st.sent[s])
  {
    assert SlaveOK(st, n, s);
  }

  lemma FreeWeight(st: State, columns: nat, n: nat, s: nat)
    requires Inv(st, columns, n) && s < n && Free(st, n, s) && !Dismissed(st.sent[s])
    ensures SlaveWeight(st, n, s) == 3
  {
  }

  lemma MasterShrinks(st: State, columns: nat, n: nat, st': State)
    requires Inv(st, columns, n) && MasterStep(columns, n, st, st')
    ensures Sized(st', n) && Measure(st', columns, n) < Measure(st, columns, n)
  {
    hide SlaveOK, Placed, Owned, Measure, Hand, Dismiss, AllDifferent;
    match st.pc
    case Init(i) =>
      if i < n && i < columns {
        UntouchedFree(st, columns, n, i);
        FreeWeight(st, columns, n, i);
        HandShrinks(st, columns, n, i, Init(i + 1));
      } else {
        QuietShrinks(st, columns, n, st');
      }
    case NoWork(i) =>
      if i < n {
        UntouchedFree(st, columns, n, i);
        FreeWeight(st, columns, n, i);
        HandShrinks(st, columns, n, i, NoWork(i + 1));
      } else {
        QuietShrinks(st, columns, n, st');
      }
    case Waiting =>
      if st.outstanding > 0 {
        var s: nat :| s < n && ReceiveFrom(st, s, st');
        ReceiveShrinks(st, columns, n, s, st');
      } else {
        QuietShrinks(st, columns, n, st');
      }
    case Replying(s, c) =>
      FreeWeight(st, columns, n, s);
      HandShrinks(st, columns, n, s, Drawing(c));
    case Drawing(c) => QuietShrinks(st, columns, n, st');
    case Finished =>
  }

  lemma QuietShrinks(st: State, columns: nat, n: nat, st': State)
    requires Sized(st, n) && st'.sent == st.sent && st'.taken == st.taken && st'.slaves == st.slaves
    requires st'.results == st.results && st'.received == st.received && st'.next == st.next
      && Weight(st'.pc) < Weight(st.pc)
    ensures Sized(st', n) && Measure(st', columns, n) < Measure(st, columns, n)
  {
    TotalSame(st, st', n, n);
  }

  lemma ReceiveShrinks(st: State, columns: nat, n: nat, s: nat, st': State)
    requires Inv(st, columns, n) && st.pc == Waiting && s < n && ReceiveFrom(st, s, st')
    ensures Sized(st', n) && Measure(st', columns, n) < Measure(st, columns, n)
  {
    ResultIsBusy(st, columns, n, s);
    TotalChange(st, st', n, n, s);
  }

  // A run: a sequence of states, each a step from the one before.
  ghost predicate Run(run: seq<State>, columns: nat, n: nat) {
    && run != [] && Start(run[0], columns, n)
    && forall i: nat | i + 1 < |run| :: StepAt(run, i, columns, n)
  }

  ghost predicate StepAt(run: seq<State>, i: nat, columns: nat, n: nat)
    requires i + 1 < |run|
  {
    Step(columns, n, run[i], run[i + 1])
  }

  // Every run keeps the invariant in all its states, and no run has more than 10 * columns + 8 * n + 6 states.
  lemma {:induction false} Runs(run: seq<State>, columns: nat, n: nat)
    requires Run(run, columns, n)
    ensures forall st <- run :: Inv(st, columns, n)
    ensures Sized(run[|run| - 1], n) && |run| + Measure(run[|run| - 1], columns, n) <= 10 * columns + 8 * n + 6
    decreases |run|
  {
    hide Inv, Step, Measure, SlaveOK, Placed, Owned, PcOK;
    var k := |run| - 1;
    if k == 0 {
      StartInv(run[0], columns, n);
      StartMeasure(run[0], columns, n);
    } else {
      forall i: nat | i + 1 < |run[..k]| ensures StepAt(run[..k], i, columns, n) { assert StepAt(run, i, columns, n); }
      Runs(run[..k], columns, n);
      var st, st' := run[k - 1], run[k];
      assert st in run[..k] && run == run[..k] + [st'];
      assert StepAt(run, k - 1, columns, n);
      StepInv(st, columns, n, st');
      StepShrinks(st, columns, n, st');
    }
  }

  // So no run goes on for ever.
  lemma RunsAreShort(run: seq<State>, columns: nat, n: nat)
    requires Run(run, columns, n)
    ensures |run| <= 10 * columns + 8 * n + 6
  {
    Runs(run, columns, n);
    assert run[|run| - 1] in run;
    MeasurePositive(run[|run| - 1], columns, n);
  }

  lemma StartMeasure(st: State, columns: nat, n: nat)
    requires Start(st, columns, n)
    ensures Sized(st, n) && Measure(st, columns, n) <= 10 * columns + 8 * n + 5
  {
    TotalBound(st, n, n);
  }

  lemma MeasurePositive(st: State, columns: nat, n: nat)
    requires Inv(st, columns, n)
    ensures Sized(st, n) && Measure(st, columns, n) >= 0
  {
  }

  lemma StepShrinks(st: State, columns: nat, n: nat, st': State)
    requires Inv(st, columns, n) && Step(columns, n, st, st')
    ensures Sized(st', n) && Measure(st', columns, n) < Measure(st, columns, n)
  {
    hide Inv, MasterStep, SlaveStep, Measure;
    if MasterStep(columns, n, st, st') {
      MasterShrinks(st, columns, n, st');
    } else {
      var s: nat :| s < n && SlaveStep(n, s, st, st');
      SlaveShrinks(st, columns, n, s, st');
    }
  }

  // A run that cannot be continued is over, and all columns are drawn, once each, if there is any slave.
  lemma RunsEnd(run: seq<State>, columns: nat, n: nat)
    requires Run(run, columns, n) && !CanStep(columns, n, run[|run| - 1])
    ensures var last := run[|run| - 1];
      && Over(last, n) && AllDifferent(last.drawn) && (forall c <- last.drawn :: c < columns)
      && ((forall c: nat | c < columns :: c in last.drawn) <==> n > 0 || columns == 0)
  {
    Runs(run, columns, n);
    var last := run[|run| - 1];
    assert last in run;
    if !Over(last, n) { NoDeadlock(last, columns, n); }
    FinishedMeans(last, columns, n);
  }
}
