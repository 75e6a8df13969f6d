/** The hand-off of an AOF rewrite: the parent feeds the changes made since the fork to the
    child, the child asks it to stop, drains the pipe and writes the file, and the parent
    appends what it never sent before it renames that file. Parent, child and the three
    pipes between them take turns in any order. */
module AofRewrite {

  /** What happened to the file: the rewrite goes on, the file replaced the log, or the
      parent threw it away. */
  datatype Outcome = Running | Renamed(file: string) | Discarded

  datatype Phase = Dumping | Asked | Acked | Drained | Exited(success: bool)

  /** `fed` is everything the parent appended to its rewrite buffer since the fork. */
  datatype State = State(snapshot: string, fed: string, buffer: string, stop: bool, toChild: string,
                         requests: string, acks: string, phase: Phase, childDiff: string,
                         file: string, outcome: Outcome)

  /** Some of the buffer moved into the pipe, in order; none once the child asked to stop. */
  ghost predicate Sends(stop: bool, buffer: string, pipe: string, buffer': string, pipe': string) {
    pipe' + buffer' == pipe + buffer && pipe <= pipe' && (stop ==> pipe' == pipe)
  }

  /** The parent's end of the handshake: a '!' stops the sending before it is
      acknowledged, and the acknowledgement may get lost. */
  ghost predicate Hears(stop: bool, requests: string, acks: string, stop': bool, requests': string, acks': string) {
    if requests == "" then stop' == stop && requests' == "" && acks' == acks
    else
      && requests' == requests[1..]
      && if requests[0] == '!' then stop' && (acks' == acks || acks' == acks + "!")
         else stop' == stop && acks' == acks
  }

  /** The parent's last part: the whole buffer reaches the file, or the file is given up. */
  ghost predicate Finishes(success: bool, buffer: string, file: string, outcome: Outcome) {
    outcome == Discarded || (success && outcome == Renamed(file + buffer))
  }

  ghost predicate ParentStep(s: State, t: State) {
    || (t == s.(fed := t.fed, buffer := t.buffer) && Fed(s, t))
    || (t == s.(buffer := t.buffer, toChild := t.toChild) && Sends(s.stop, s.buffer, s.toChild, t.buffer, t.toChild))
    || (t == s.(stop := t.stop, requests := t.requests, acks := t.acks)
        && Hears(s.stop, s.requests, s.acks, t.stop, t.requests, t.acks))
    || (t == s.(outcome := t.outcome) && s.phase.Exited? && Finishes(s.phase.success, s.buffer, s.file, t.outcome))
  }

  ghost predicate Fed(s: State, t: State) {
    exists bytes :: t.fed == s.fed + bytes && t.buffer == s.buffer + bytes
  }

  /** One read of the pipe. */
  ghost predicate Reads(s: State, t: State) {
    && s.phase in {Dumping, Acked}
    && exists n :: 0 < n <= |s.toChild| && t == s.(childDiff := s.childDiff + s.toChild[..n], toChild := s.toChild[n..])
  }

  ghost predicate ChildStep(s: State, t: State) {
    || (s.phase == Dumping && t == s.(file := t.file) && s.file <= t.file <= s.snapshot)
    || Reads(s, t)
    || (s.phase == Dumping && s.file == s.snapshot && t == s.(phase := Asked, requests := s.requests + "!"))
    || (s.phase == Asked && s.acks != "" && t == s.(phase := if s.acks[0] == '!' then Acked else Exited(false), acks := s.acks[1..]))
    || (s.phase == Acked && s.toChild == "" && t == s.(phase := Drained))
    || (s.phase == Drained && t == s.(file := s.file + s.childDiff, phase := Exited(true)))
    || (!s.phase.Exited? && t == s.(file := t.file, phase := Exited(false)))
  }

  /** Nothing more is fed to a rewrite that is over. */
  ghost predicate Step(s: State, t: State) {
    s.outcome == Running && (ParentStep(s, t) || ChildStep(s, t))
  }

  ghost predicate Init(s: State) {
    s == State(s.snapshot, "", "", false, "", "", "", Dumping, "", "", Running)
  }

  ghost predicate Run(states: seq<State>) {
    && states != [] && Init(states[0])
    && forall i, j | 0 <= i < j == i + 1 < |states| :: Step(states[i], states[j])
  }

  /** Conservation, and what each phase of the handshake guarantees. */
  ghost predicate Inv(s: State) {
    && s.childDiff + s.toChild + s.buffer == s.fed
    && (s.acks != "" || s.phase in {Acked, Drained} || s.phase == Exited(true) ==> s.stop)
    && (s.phase == Drained || s.phase == Exited(true) ==> s.toChild == "")
    && (s.phase == Dumping ==> s.file <= s.snapshot)
    && (s.phase in {Asked, Acked, Drained} ==> s.file == s.snapshot)
    && (s.phase == Exited(true) ==> s.file == s.snapshot + s.childDiff)
    && (s.outcome.Renamed? ==> s.outcome.file == s.snapshot + s.fed)
  }

  lemma ParentKeeps(s: State, t: State)
    requires Inv(s) && s.outcome == Running && ParentStep(s, t)
    ensures Inv(t)
  {
    if t == s.(fed := t.fed, buffer := t.buffer) && Fed(s, t) {
      var bytes :| t.fed == s.fed + bytes && t.buffer == s.buffer + bytes;
      assert s.childDiff + s.toChild + (s.buffer + bytes) == s.childDiff + s.toChild + s.buffer + bytes;
    } else if t == s.(buffer := t.buffer, toChild := t.toChild) && Sends(s.stop, s.buffer, s.toChild, t.buffer, t.toChild) {
      assert s.childDiff + t.toChild + t.buffer == s.childDiff + (t.toChild + t.buffer);
      assert s.childDiff + s.toChild + s.buffer == s.childDiff + (s.toChild + s.buffer);
    } else if t == s.(outcome := t.outcome) {
      assert s.snapshot + s.childDiff + s.buffer == s.snapshot + (s.childDiff + "" + s.buffer);
    }
  }

  lemma ChildKeeps(s: State, t: State)
    requires Inv(s) && s.outcome == Running && ChildStep(s, t)
    ensures Inv(t)
  {
    if Reads(s, t) {
      var n :| 0 < n <= |s.toChild| && t == s.(childDiff := s.childDiff + s.toChild[..n], toChild := s.toChild[n..]);
      assert s.toChild == s.toChild[..n] + s.toChild[n..];
      assert s.childDiff + s.toChild[..n] + s.toChild[n..] == s.childDiff + s.toChild;
    }
  }

  lemma {:induction false} RunKeeps(states: seq<State>, i: nat)
    requires Run(states) && i < |states|
    ensures Inv(states[i]) && states[i].snapshot == states[0].snapshot
  {
    if i > 0 {
      var s, t := states[i - 1], states[i];
      RunKeeps(states, i - 1);
      assert Step(s, t);
      if ParentStep(s, t) { ParentKeeps(s, t); } else { ChildKeeps(s, t); }
    }
  }

  /** At every step what the child read, what is in the pipe and what the parent holds make
      up everything fed since the fork; and a file that replaces the log is the snapshot
      followed by all of it. */
  lemma HandOffConserves(states: seq<State>, i: nat)
    requires Run(states) && i < |states|
    ensures var s := states[i];
            && s.childDiff + s.toChild + s.buffer == s.fed
            && (s.outcome.Renamed? ==> s.outcome.file == states[0].snapshot + s.fed)
  {
    RunKeeps(states, i);
  }

  /** Once the child holds the acknowledgement the parent sends it no more: the pipe only
      shrinks, so the child's last read ends. */
  lemma PipeOnlyShrinks(states: seq<State>, i: nat)
    requires Run(states) && i + 1 < |states| && states[i].phase == Acked
    ensures |states[i + 1].toChild| <= |states[i].toChild|
    ensures states[i + 1].phase == Acked && ChildStep(states[i], states[i + 1]) && states[i] != states[i + 1] ==>
              |states[i + 1].toChild| < |states[i].toChild|
  {
    var s, t := states[i], states[i + 1];
    RunKeeps(states, i);
    assert Step(s, t);
  }

  /** The run goes on from `states` and ends with the file renamed. */
  ghost predicate Completes(states: seq<State>, rest: seq<State>) {
    Run(states + rest) && rest != [] && rest[|rest| - 1].outcome.Renamed?
  }

  lemma Extend(states: seq<State>, t: State)
    requires Run(states) && Step(states[|states| - 1], t)
    ensures Run(states + [t])
  {
  }

  lemma {:induction false} Finish(states: seq<State>) returns (rest: seq<State>)
    requires Run(states)
    requires var s := states[|states| - 1]; s.outcome == Running && s.phase in {Drained, Exited(true)}
    ensures Completes(states, rest)
    decreases states[|states| - 1].phase == Drained
  {
    var s := states[|states| - 1];
    var done := s.(outcome := Renamed(s.file + s.buffer));
    if s.phase == Exited(true) {
      Extend(states, done);
      return [done];
    }
    var t := s.(file := s.file + s.childDiff, phase := Exited(true));
    assert ChildStep(s, t);
    Extend(states, t);
    rest := Finish(states + [t]);
    assert states + [t] + rest == states + ([t] + rest);
    rest := [t] + rest;
  }

  lemma {:induction false} Drain(states: seq<State>) returns (rest: seq<State>)
    requires Run(states)
    requires var s := states[|states| - 1]; s.outcome == Running && s.phase == Acked
    ensures Completes(states, rest)
    decreases |states[|states| - 1].toChild|
  {
    var s := states[|states| - 1];
    var t := if s.toChild == "" then s.(phase := Drained)
             else s.(childDiff := s.childDiff + s.toChild[..1], toChild := s.toChild[1..]);
    assert ChildStep(s, t);
    Extend(states, t);
    if s.toChild == "" { rest := Finish(states + [t]); } else { rest := Drain(states + [t]); }
    assert states + [t] + rest == states + ([t] + rest);
    rest := [t] + rest;
  }

  /** The handshake cannot get stuck: from every point of every run at which the child has
      not failed and neither its request nor the answer was lost, the rewrite can still
      succeed. */
  lemma {:induction false} CanStillSucceed(states: seq<State>) returns (rest: seq<State>)
    requires Run(states)
    requires var s := states[|states| - 1]; s.outcome == Running && s.phase != Exited(false)
    requires var s := states[|states| - 1]; s.phase == Asked ==> s.requests != "" || s.acks != ""
    ensures Completes(states, rest)
    decreases var s := states[|states| - 1]; if s.phase == Dumping && s.file != s.snapshot then 3
              else if s.phase == Dumping then 2 else if s.acks == "" then 1 else 0
  {
    var s := states[|states| - 1];
    Bangs(states, |states| - 1);
    RunKeeps(states, |states| - 1);
    if s.phase == Acked {
      rest := Drain(states);
    } else if s.phase in {Drained, Exited(true)} {
      rest := Finish(states);
    } else {
      var t := if s.phase == Dumping && s.file != s.snapshot then s.(file := s.snapshot)
               else if s.phase == Dumping then s.(phase := Asked, requests := s.requests + "!")
               else if s.acks == "" then s.(stop := true, requests := s.requests[1..], acks := "!")
               else s.(phase := Acked, acks := s.acks[1..]);
      assert Step(s, t);
      Extend(states, t);
      if s.phase == Asked && s.acks != "" { rest := Drain(states + [t]); } else { rest := CanStillSucceed(states + [t]); }
      assert states + [t] + rest == states + ([t] + rest);
      rest := [t] + rest;
    }
  }

  ghost predicate AllBangs(s: string) {
    forall i | 0 <= i < |s| :: s[i] == '!'
  }

  /** Both ends only ever write '!'. */
  lemma {:induction false} Bangs(states: seq<State>, i: nat)
    requires Run(states) && i < |states|
    ensures AllBangs(states[i].requests) && AllBangs(states[i].acks)
  {
    if i > 0 {
      Bangs(states, i - 1);
      assert Step(states[i - 1], states[i]);
    }
  }

  /** A rewrite can succeed: the runs that the theorems are about exist. */
  lemma SomeRunSucceeds(snapshot: string) returns (states: seq<State>)
    ensures Run(states) && var last := states[|states| - 1]; last.outcome == Renamed(snapshot + last.fed)
  {
    var start := [State(snapshot, "", "", false, "", "", "", Dumping, "", "", Running)];
    var rest := CanStillSucceed(start);
    states := start + rest;
    RunKeeps(states, |states| - 1);
  }
}
