/** CRWLock as its threads see it: a counter under a mutex and one condition variable.
    Threads take the statements of the four methods one at a time, in any order, and call
    the methods in matching pairs. */
module RWLock {

  /** Where a thread stands. On the first line of each half it is outside the mutex: about
      to call or inside a method, blocked in wait, notified, or holding the lock. On the
      second it owns the mutex. */
  datatype Pc =
    | Idle
    | ReadEnter | ReadWait | ReadWake | Reading | ReadExit
    | ReadTest | ReadLeave | ReadDown | ReadSignal | ReadDone
    | WriteEnter | WriteWait | WriteWake | Writing | WriteExit
    | WriteTest | WriteLeave | WriteZero | WriteSignal | WriteDone
  {
    predicate OwnsMutex() {
      ReadTest? || ReadLeave? || ReadDown? || ReadSignal? || ReadDone? ||
      WriteTest? || WriteLeave? || WriteZero? || WriteSignal? || WriteDone?
    }

    predicate WantsMutex() {
      ReadEnter? || ReadWake? || ReadExit? || WriteEnter? || WriteWake? || WriteExit?
    }

    predicate Waits() {
      ReadWait? || WriteWait?
    }

    /** Counted by `rwCnt` as a reader, from the increment to the decrement. */
    predicate CountsAsReader() {
      ReadLeave? || Reading? || ReadExit? || ReadDown?
    }

    predicate CountsAsWriter() {
      WriteLeave? || Writing? || WriteExit? || WriteZero?
    }

    /** A notification, or a wait that returns without one. */
    function Woken(): Pc {
      match this
      case ReadWait => ReadWake
      case WriteWait => WriteWake
      case _ => this
    }

    /** Locking the mutex, on entry and when wait returns. */
    function Locked(): Pc {
      match this
      case ReadEnter => ReadTest
      case ReadWake => ReadTest
      case ReadExit => ReadDown
      case WriteEnter => WriteTest
      case WriteWake => WriteTest
      case WriteExit => WriteZero
      case _ => this
    }

    /** The next statement of a thread that owns the mutex: where it goes and what becomes of
        the counter. */
    function Next(rwCnt: int): (Pc, int) {
      match this
      case ReadTest => if rwCnt < 0 then (ReadWait, rwCnt) else (ReadLeave, rwCnt + 1)
      case ReadLeave => (Reading, rwCnt)
      case ReadDown => (ReadSignal, rwCnt - 1)
      case ReadSignal => (ReadDone, rwCnt)
      case ReadDone => (Idle, rwCnt)
      case WriteTest => if rwCnt != 0 then (WriteWait, rwCnt) else (WriteLeave, rwCnt - 1)
      case WriteLeave => (Writing, rwCnt)
      case WriteZero => (WriteSignal, 0)
      case WriteSignal => (WriteDone, rwCnt)
      case WriteDone => (Idle, rwCnt)
      case _ => (this, rwCnt)
    }

    /** Beginning a call, which only a thread outside all methods does. */
    ghost predicate Calls(pc: Pc) {
      match this
      case Idle => pc == ReadEnter || pc == WriteEnter
      case Reading => pc == ReadExit
      case Writing => pc == WriteExit
      case _ => false
    }
  }

  datatype State = State(rwCnt: int, pcs: seq<Pc>) {
    ghost predicate MutexFree() {
      forall t | 0 <= t < |pcs| :: !pcs[t].OwnsMutex()
    }

    function Put(t: nat, pc: Pc, cnt: int): State
      requires t < |pcs|
    {
      State(cnt, pcs[t := pc])
    }

    /** The threads of `ts` are notified. */
    ghost function Wake(ts: set<nat>): State {
      State(rwCnt, seq(|pcs|, i requires 0 <= i < |pcs| => if i in ts then pcs[i].Woken() else pcs[i]))
    }

    ghost function Waiters(): set<nat> {
      set t | 0 <= t < |pcs| && pcs[t].Waits()
    }
  }

  /** notify_one after the last reader and notify_all after a writer; nothing else notifies. */
  ghost predicate Notifies(s: State, pc: Pc, woken: set<nat>) {
    match pc
    case ReadSignal =>
      if s.rwCnt == 0 && s.Waiters() != {} then exists u :: u in s.Waiters() && woken == {u} else woken == {}
    case WriteSignal => woken == s.Waiters()
    case _ => woken == {}
  }

  /** Thread `t` executes the next statement of the method it is in. */
  ghost predicate Statement(s: State, t: nat, s': State) {
    t < |s.pcs| &&
    if s.pcs[t].OwnsMutex() then
      exists woken :: Notifies(s, s.pcs[t], woken) &&
        s' == s.Wake(woken).Put(t, s.pcs[t].Next(s.rwCnt).0, s.pcs[t].Next(s.rwCnt).1)
    else s.pcs[t].WantsMutex() && s.MutexFree() && s' == s.Put(t, s.pcs[t].Locked(), s.rwCnt)
  }

  /** What a thread decides by itself, or a spurious wakeup. */
  ghost predicate Choice(s: State, t: nat, s': State) {
    t < |s.pcs| &&
    if s.pcs[t].Waits() then s' == s.Put(t, s.pcs[t].Woken(), s.rwCnt)
    else exists pc :: s.pcs[t].Calls(pc) && s' == s.Put(t, pc, s.rwCnt)
  }

  ghost predicate Step(s: State, s': State) {
    exists t :: Statement(s, t, s') || Choice(s, t, s')
  }

  ghost predicate Run(states: seq<State>) {
    && states != [] && states[0].rwCnt == 0 && (forall t | 0 <= t < |states[0].pcs| :: states[0].pcs[t] == Idle)
    && forall i, j | 0 <= i < j == i + 1 < |states| :: Step(states[i], states[j])
  }

  // the invariant

  ghost function Readers(s: State): set<nat> {
    set t | 0 <= t < |s.pcs| && s.pcs[t].CountsAsReader()
  }

  ghost function Writers(s: State): set<nat> {
    set t | 0 <= t < |s.pcs| && s.pcs[t].CountsAsWriter()
  }

  /** The counter is the number of readers, or -1 for the one writer. */
  ghost predicate Counts(s: State) {
    if Writers(s) == {} then s.rwCnt == |Readers(s)|
    else s.rwCnt == -1 && |Writers(s)| == 1 && Readers(s) == {}
  }

  ghost predicate OneOwner(s: State) {
    forall t, u | 0 <= t < u < |s.pcs| :: !(s.pcs[t].OwnsMutex() && s.pcs[u].OwnsMutex())
  }

  /** Readers wait only for a writer; and of the threads that wait for a free lock one is on
      its way: notified, about to test the counter, or about to notify. */
  ghost predicate Wakes(s: State) {
    && (forall t | 0 <= t < |s.pcs| && s.pcs[t].ReadWait? :: s.rwCnt < 0 || Notifier(s))
    && (s.rwCnt == 0 && s.Waiters() != {} ==> OnItsWay(s))
  }

  ghost predicate Notifier(s: State) {
    exists t | 0 <= t < |s.pcs| :: s.pcs[t].WriteSignal?
  }

  ghost predicate OnItsWay(s: State) {
    exists t | 0 <= t < |s.pcs| ::
      s.pcs[t].ReadWake? || s.pcs[t].WriteWake? || s.pcs[t].ReadTest? || s.pcs[t].WriteTest? || s.pcs[t].ReadSignal? || s.pcs[t].WriteSignal?
  }

  ghost predicate Inv(s: State) {
    Counts(s) && OneOwner(s) && Wakes(s)
  }

  // every step keeps it

  lemma SetsPut(s: State, t: nat, pc: Pc, cnt: int)
    requires t < |s.pcs|
    ensures Readers(s.Put(t, pc, cnt)) == (if pc.CountsAsReader() then Readers(s) + {t} else Readers(s) - {t})
    ensures Writers(s.Put(t, pc, cnt)) == (if pc.CountsAsWriter() then Writers(s) + {t} else Writers(s) - {t})
    ensures t in Readers(s) <==> s.pcs[t].CountsAsReader()
    ensures t in Writers(s) <==> s.pcs[t].CountsAsWriter()
  {
  }

  lemma SetsWake(s: State, ts: set<nat>)
    ensures Readers(s.Wake(ts)) == Readers(s) && Writers(s.Wake(ts)) == Writers(s)
  {
    forall pc: Pc
      ensures pc.Woken().CountsAsReader() == pc.CountsAsReader() && pc.Woken().CountsAsWriter() == pc.CountsAsWriter()
    {
    }
  }

  /** A set with one element has no other. */
  lemma OnlyElement(xs: set<nat>, x: nat)
    requires |xs| == 1 && x in xs
    ensures xs - {x} == {}
  {
    assert |xs - {x}| == 0;
  }

  /** A thread that is counted alike before and after does not change the counts. */
  lemma CountsSame(s: State, t: nat, pc: Pc)
    requires Counts(s) && t < |s.pcs|
    requires pc.CountsAsReader() == s.pcs[t].CountsAsReader() && pc.CountsAsWriter() == s.pcs[t].CountsAsWriter()
    ensures Counts(s.Put(t, pc, s.rwCnt))
  {
    hide Readers, Writers;
    SetsPut(s, t, pc, s.rwCnt);
    assert t in Readers(s) ==> Readers(s) + {t} == Readers(s);
    assert t !in Readers(s) ==> Readers(s) - {t} == Readers(s);
    assert t in Writers(s) ==> Writers(s) + {t} == Writers(s);
    assert t !in Writers(s) ==> Writers(s) - {t} == Writers(s);
  }

  lemma CountsNext(s: State, t: nat)
    requires Counts(s) && t < |s.pcs| && s.pcs[t].OwnsMutex()
    ensures Counts(s.Put(t, s.pcs[t].Next(s.rwCnt).0, s.pcs[t].Next(s.rwCnt).1))
  {
    hide Readers, Writers;
    var (pc, cnt) := s.pcs[t].Next(s.rwCnt);
    SetsPut(s, t, pc, cnt);
    match s.pcs[t]
    case ReadTest => CountsSame(s, t, ReadWait);
    case WriteTest => CountsSame(s, t, WriteWait);
    case ReadDown =>
    case WriteZero => OnlyElement(Writers(s), t);
    case _ => CountsSame(s, t, pc);
  }

  lemma CountsKept(s: State, t: nat, s': State)
    requires Counts(s) && (Statement(s, t, s') || Choice(s, t, s'))
    ensures Counts(s')
  {
    hide Readers, Writers;
    if s.pcs[t].OwnsMutex() {
      var woken :| Notifies(s, s.pcs[t], woken) &&
        s' == s.Wake(woken).Put(t, s.pcs[t].Next(s.rwCnt).0, s.pcs[t].Next(s.rwCnt).1);
      SetsWake(s, woken);
      CountsNext(s.Wake(woken), t);
    } else {
      CountsSame(s, t, s'.pcs[t]);
    }
  }

  lemma OwnerKept(s: State, t: nat, s': State)
    requires OneOwner(s) && (Statement(s, t, s') || Choice(s, t, s'))
    ensures OneOwner(s')
  {
    forall u | 0 <= u < |s.pcs| && u != t ensures s'.pcs[u].OwnsMutex() == s.pcs[u].OwnsMutex() {
    }
  }

  /** What a step does to a thread other than the one that takes it. */
  lemma OthersKept(s: State, t: nat, s': State, u: nat)
    requires (Statement(s, t, s') || Choice(s, t, s')) && u < |s.pcs| && u != t
    ensures u < |s'.pcs|
    ensures s'.pcs[u] == s.pcs[u] || (s'.pcs[u] == s.pcs[u].Woken() && s.pcs[t].OwnsMutex())
    ensures s.pcs[t].WriteSignal? ==> s'.pcs[u] == s.pcs[u].Woken()
  {
  }

  /** The step of the thread itself. */
  lemma SelfStep(s: State, t: nat, s': State)
    requires Statement(s, t, s') || Choice(s, t, s')
    ensures |s'.pcs| == |s.pcs| && t < |s.pcs|
    ensures s.pcs[t].OwnsMutex() ==> (s'.pcs[t], s'.rwCnt) == s.pcs[t].Next(s.rwCnt)
    ensures !s.pcs[t].OwnsMutex() ==> s'.rwCnt == s.rwCnt && s'.pcs[t] != ReadWait && s'.pcs[t] != WriteWait
    ensures s.pcs[t] in {ReadWake, WriteWake} ==> s'.pcs[t] in {ReadTest, WriteTest}
  {
  }

  lemma ReadersWaitForWriter(s: State, t: nat, s': State)
    requires Inv(s) && (Statement(s, t, s') || Choice(s, t, s'))
    ensures forall u | 0 <= u < |s'.pcs| && s'.pcs[u].ReadWait? :: s'.rwCnt < 0 || Notifier(s')
  {
    hide Counts, OneOwner, Statement, Choice;
    SelfStep(s, t, s');
    if s.pcs[t] == WriteZero { assert s'.pcs[t].WriteSignal?; }
    forall u | 0 <= u < |s'.pcs| && s'.pcs[u].ReadWait? ensures s'.rwCnt < 0 || Notifier(s') {
      if u != t {
        OthersKept(s, t, s', u);
        if s.rwCnt >= 0 {
          var w :| 0 <= w < |s.pcs| && s.pcs[w].WriteSignal?;
          if w != t { OthersKept(s, t, s', w); }
        }
      }
    }
  }

  /** The last reader's notification, when somebody waits. */
  lemma LastReaderNotifies(s: State, t: nat, s': State)
    requires Statement(s, t, s') && s.pcs[t].ReadSignal? && s.rwCnt == 0 && s.Waiters() != {}
    ensures OnItsWay(s')
  {
    var woken :| Notifies(s, s.pcs[t], woken) && s' == s.Wake(woken).Put(t, ReadDone, 0);
    var u :| u in s.Waiters() && woken == {u};
    assert s'.pcs[u] == s.pcs[u].Woken();
  }

  lemma SomeOneOnItsWay(s: State, t: nat, s': State)
    requires Inv(s) && (Statement(s, t, s') || Choice(s, t, s'))
    ensures s'.rwCnt == 0 && s'.Waiters() != {} ==> OnItsWay(s')
  {
    hide Counts, OneOwner;
    SelfStep(s, t, s');
    if s'.rwCnt == 0 && s'.Waiters() != {} {
      hide Statement, Choice;
      var u :| u in s'.Waiters();
      if s.pcs[t].ReadDown? || s.pcs[t].WriteZero? {
        assert s'.pcs[t].ReadSignal? || s'.pcs[t].WriteSignal?;
      } else {
        OthersKept(s, t, s', u);
        assert s.rwCnt == 0 && u in s.Waiters();
        if s.pcs[t].ReadSignal? {
          LastReaderNotifies(s, t, s');
        } else {
          var w :| 0 <= w < |s.pcs| && (s.pcs[w].ReadWake? || s.pcs[w].WriteWake? || s.pcs[w].ReadTest?
            || s.pcs[w].WriteTest? || s.pcs[w].ReadSignal? || s.pcs[w].WriteSignal?);
          if w != t { OthersKept(s, t, s', w); } else { assert s'.pcs[t] in {ReadTest, WriteTest}; }
        }
      }
    }
  }

  lemma WakesKept(s: State, t: nat, s': State)
    requires Inv(s) && (Statement(s, t, s') || Choice(s, t, s'))
    ensures Wakes(s')
  {
    ReadersWaitForWriter(s, t, s');
    SomeOneOnItsWay(s, t, s');
  }

  // what follows for every run

  lemma {:induction false} RunKeeps(states: seq<State>, i: nat)
    requires Run(states) && i < |states|
    ensures Inv(states[i])
  {
    hide Counts, OneOwner, Wakes, Statement, Choice;
    if i == 0 {
      Starts(states[0]);
    } else {
      RunKeeps(states, i - 1);
      assert Step(states[i - 1], states[i]);
      var t :| Statement(states[i - 1], t, states[i]) || Choice(states[i - 1], t, states[i]);
      CountsKept(states[i - 1], t, states[i]);
      OwnerKept(states[i - 1], t, states[i]);
      WakesKept(states[i - 1], t, states[i]);
    }
  }

  lemma Starts(s: State)
    requires s.rwCnt == 0 && forall t | 0 <= t < |s.pcs| :: s.pcs[t] == Idle
    ensures Inv(s)
  {
    assert Readers(s) == {} && Writers(s) == {} && s.Waiters() == {};
  }

  /** The counter is -1 for one writer and no reader, and else the number of readers; so
      who holds the lock for writing holds it alone. */
  lemma CounterMeansHolders(states: seq<State>, i: nat)
    requires Run(states) && i < |states|
    ensures var s := states[i];
            && (if s.rwCnt < 0 then s.rwCnt == -1 && |Writers(s)| == 1 && Readers(s) == {}
                else Writers(s) == {} && s.rwCnt == |Readers(s)|)
            && forall t, u | 0 <= t < |s.pcs| && 0 <= u < |s.pcs| && t != u && s.pcs[t].Writing? ::
                 !s.pcs[u].Writing? && !s.pcs[u].Reading?
  {
    hide Wakes, OneOwner;
    RunKeeps(states, i);
    var s := states[i];
    forall t, u | 0 <= t < |s.pcs| && 0 <= u < |s.pcs| && t != u && s.pcs[t].Writing?
      ensures !s.pcs[u].Writing? && !s.pcs[u].Reading?
    {
      assert t in Writers(s);
      OnlyElement(Writers(s), t);
      assert u !in Writers(s) - {t} && u !in Readers(s);
    }
  }

  /** Between two critical sections no reader is blocked unless a writer holds the lock, and
      no wakeup is lost: if anybody waits for a free lock, a thread has been notified. */
  lemma NoLostWakeup(states: seq<State>, i: nat)
    requires Run(states) && i < |states| && states[i].MutexFree()
    ensures var s := states[i];
            && (s.rwCnt >= 0 ==> forall t | 0 <= t < |s.pcs| :: !s.pcs[t].ReadWait?)
            && (s.rwCnt == 0 && s.Waiters() != {} ==>
                  exists t | 0 <= t < |s.pcs| :: s.pcs[t].ReadWake? || s.pcs[t].WriteWake?)
  {
    hide Counts, OneOwner;
    RunKeeps(states, i);
  }

  // no deadlock and no livelock

  ghost predicate Stuck(s: State) {
    forall t, s' :: !Statement(s, t, s')
  }

  lemma OwnerMoves(s: State, t: nat)
    requires t < |s.pcs| && s.pcs[t].OwnsMutex()
    ensures !Stuck(s)
  {
    var woken := if s.pcs[t].WriteSignal? then s.Waiters()
                 else if s.pcs[t].ReadSignal? && s.rwCnt == 0 && s.Waiters() != {} then (var u :| u in s.Waiters(); {u})
                 else {};
    assert Notifies(s, s.pcs[t], woken);
    var s' := s.Wake(woken).Put(t, s.pcs[t].Next(s.rwCnt).0, s.pcs[t].Next(s.rwCnt).1);
    assert Statement(s, t, s');
  }

  /** When no method can go on by itself, every thread is outside the methods or waits; and
      who waits, waits for a thread that holds the lock, a reader for a writer. */
  lemma StuckOnlyBehindHolder(states: seq<State>, i: nat)
    requires Run(states) && i < |states| && Stuck(states[i])
    ensures var s := states[i];
            && (forall t | 0 <= t < |s.pcs| :: s.pcs[t] in {Idle, Reading, Writing, ReadWait, WriteWait})
            && (s.Waiters() != {} ==> exists t | 0 <= t < |s.pcs| :: s.pcs[t].Reading? || s.pcs[t].Writing?)
            && ((exists t | 0 <= t < |s.pcs| :: s.pcs[t].ReadWait?) ==> exists t | 0 <= t < |s.pcs| :: s.pcs[t].Writing?)
  {
    var s := states[i];
    forall t | 0 <= t < |s.pcs| ensures !s.pcs[t].OwnsMutex() {
      if s.pcs[t].OwnsMutex() { OwnerMoves(s, t); }
    }
    forall t | 0 <= t < |s.pcs| ensures !s.pcs[t].WantsMutex() {
      if s.pcs[t].WantsMutex() { assert Statement(s, t, s.Put(t, s.pcs[t].Locked(), s.rwCnt)); }
    }
    forall t | 0 <= t < |s.pcs| ensures s.pcs[t] in {Idle, Reading, Writing, ReadWait, WriteWait} {
      assert !s.pcs[t].OwnsMutex() && !s.pcs[t].WantsMutex();
    }
    NoLostWakeup(states, i);
    CounterMeansHolders(states, i);
    if s.rwCnt < 0 {
      var t :| t in Writers(s);
      assert s.pcs[t].Writing?;
    } else if s.rwCnt > 0 {
      var t :| t in Readers(s);
      assert s.pcs[t].Reading?;
    }
  }

  /** How many more statements a thread can account for, wakeups it may cause included. */
  function Weight(pc: Pc, n: nat): nat {
    match pc
    case Idle => 0 case Reading => 0 case Writing => 0
    case ReadWait => 0 case WriteWait => 0
    case ReadLeave => 1 case WriteLeave => 1
    case ReadDone => 1 case WriteDone => 1
    case ReadTest => 2 case WriteTest => 2
    case ReadEnter => 3 case WriteEnter => 3
    case ReadWake => 3 case WriteWake => 3
    case ReadSignal => 3 * n + 2 case WriteSignal => 3 * n + 2
    case ReadDown => 3 * n + 3 case WriteZero => 3 * n + 3
    case ReadExit => 3 * n + 4 case WriteExit => 3 * n + 4
  }

  function Total(pcs: seq<Pc>, n: nat): nat {
    if pcs == [] then 0 else Total(pcs[..|pcs| - 1], n) + Weight(pcs[|pcs| - 1], n)
  }

  lemma {:induction false} TotalPut(pcs: seq<Pc>, t: nat, pc: Pc, n: nat)
    requires t < |pcs|
    ensures Total(pcs[t := pc], n) == Total(pcs, n) - Weight(pcs[t], n) + Weight(pc, n)
  {
    hide Weight;
    var front := pcs[..|pcs| - 1];
    if t < |front| {
      TotalPut(front, t, pc, n);
      assert pcs[t := pc][..|pcs| - 1] == front[t := pc];
    } else {
      assert pcs[t := pc][..|pcs| - 1] == front;
    }
  }

  lemma {:induction false} TotalWoken(before: seq<Pc>, after: seq<Pc>, n: nat)
    requires |after| == |before| && forall i | 0 <= i < |before| :: after[i] == before[i] || after[i] == before[i].Woken()
    ensures Total(after, n) <= Total(before, n) + 3 * |before|
  {
    if before != [] {
      TotalWoken(before[..|before| - 1], after[..|before| - 1], n);
    }
  }

  lemma WeightNext(pc: Pc, rwCnt: int, n: nat)
    ensures pc.OwnsMutex() ==> Weight(pc.Next(rwCnt).0, n) < Weight(pc, n)
    ensures pc.ReadSignal? || pc.WriteSignal? ==> Weight(pc.Next(rwCnt).0, n) + 3 * n < Weight(pc, n)
    ensures pc.WantsMutex() ==> Weight(pc.Locked(), n) < Weight(pc, n)
  {
  }

  /** The methods cannot run on for ever: without new calls, unlocks and spurious wakeups
      every run reaches a stuck state. */
  lemma StatementsRunOut(s: State, t: nat, s': State)
    requires Statement(s, t, s')
    ensures |s'.pcs| == |s.pcs| && Total(s'.pcs, |s.pcs|) < Total(s.pcs, |s.pcs|)
  {
    hide Weight, Total;
    var n, pc := |s.pcs|, s.pcs[t];
    WeightNext(pc, s.rwCnt, n);
    if pc.OwnsMutex() {
      var woken :| Notifies(s, pc, woken) && s' == s.Wake(woken).Put(t, pc.Next(s.rwCnt).0, pc.Next(s.rwCnt).1);
      OwnerSteps(s, t, woken);
    } else {
      TotalPut(s.pcs, t, pc.Locked(), n);
    }
  }

  lemma OwnerSteps(s: State, t: nat, woken: set<nat>)
    requires t < |s.pcs| && s.pcs[t].OwnsMutex() && Notifies(s, s.pcs[t], woken)
    ensures Total(s.Wake(woken).Put(t, s.pcs[t].Next(s.rwCnt).0, s.pcs[t].Next(s.rwCnt).1).pcs, |s.pcs|) < Total(s.pcs, |s.pcs|)
  {
    hide Weight, Total, Pc.Next;
    var n, pc := |s.pcs|, s.pcs[t];
    WeightNext(pc, s.rwCnt, n);
    assert s.Wake(woken).pcs[t] == pc;
    TotalPut(s.Wake(woken).pcs, t, pc.Next(s.rwCnt).0, n);
    if woken == {} { assert s.Wake(woken).pcs == s.pcs; } else { TotalWoken(s.pcs, s.Wake(woken).pcs, n); }
  }
}
