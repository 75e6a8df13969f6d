/** Slave election. A history of votes and of counted acknowledgements is kept beside a
    run; it says which votes stand behind each election that was won. */
module ClusterElection {
  import opened ClusterModel
  import ClusterEpochs

  /** An election won by `node`: the masters whose acknowledgement of this attempt it
      counted, and how many acknowledgements it counted before asking for votes. */
  datatype Win = Win(node: Id, epoch: nat, size: nat, voters: set<Id>, late: nat)

  /** `votes` maps a master and an epoch to the slave it voted for. */
  datatype Hist = Hist(votes: map<(Id, nat), Id>, got: map<Id, set<Id>>, late: map<Id, nat>, wins: set<Win>) {
    function Got(n: Id): set<Id> { if n in got then got[n] else {} }
    function Late(n: Id): nat { if n in late then late[n] else 0 }
    predicate Voted(v: Id, e: nat, x: Id) { (v, e) in votes && votes[(v, e)] == x }
  }

  /** The sender is not a node in handshake; see ClusterEpochs.Named. */
  predicate Known(s: NodeState, m: Msg) {
    m.src in s.view.nodes ==> !s.view.nodes[m.src].handshake
  }

  predicate CastsVote(s: NodeState, a: Action) {
    a.Receive? && a.m.kind.AuthRequest? &&
    var s1 := LearnHeader(s, a.m); a.m.src in s1.view.nodes && Votes(s1, a.m, a.env)
  }

  predicate CountsAck(s: NodeState, a: Action) {
    a.Receive? && a.m.kind.AuthAck? && Counts(LearnHeader(s, a.m), a.m)
  }

  function NextHist(h: Hist, n: Id, s: NodeState, a: Action): Hist {
    if CastsVote(s, a) then h.(votes := h.votes[(n, LearnHeader(s, a.m).currentEpoch) := a.m.src])
    else if CountsAck(s, a) then
      if s.auth.sent then h.(got := h.got[n := h.Got(n) + {a.m.src}])
      else h.(late := h.late[n := h.Late(n) + 1])
    else if a.Failover? && Schedules(s, a.env) then
      h.(got := h.got[n := {}], late := h.late[n := 0])
    else if a.Failover? && Wins(s, a.env) then
      h.(wins := h.wins + {Win(n, s.auth.epoch, s.size, h.Got(n), h.Late(n))})
    else h
  }

  /** The history after the first `k` events of a run. */
  function History(cs: seq<Cluster>, es: seq<Event>, k: nat): Hist
    requires k <= |es| <= |cs|
  {
    if k == 0 then Hist(map[], map[], map[], {})
    else
      var h := History(cs, es, k - 1);
      var e := es[k - 1];
      if e.Act? && e.n in cs[k - 1].nodes then NextHist(h, e.n, cs[k - 1].nodes[e.n], e.a) else h
  }

  // ------------------------------------------------------- what a step does to an election

  /** The parts of a node that elections read. */
  predicate SameElection(s: NodeState, s': NodeState) {
    s'.auth == s.auth && s'.lastVoteEpoch == s.lastVoteEpoch
  }

  predicate NoElectionPackets(out: set<Msg>) {
    forall m | m in out :: !m.kind.AuthAck? && !m.kind.AuthRequest?
  }

  lemma UpdateSlotsSame(s: NodeState, sender: Id, e: nat, slots: set<Slot>)
    ensures SameElection(s, UpdateSlots(s, sender, e, slots))
  {
    ClusterEpochs.UpdateSlotsOnlySlots(s, sender, e, slots);
    hide UpdateSlots;
  }

  lemma PingSame(s: NodeState, m: Msg)
    ensures SameElection(s, ProcessPing(s, m).0) && NoElectionPackets(ProcessPing(s, m).1)
  {
    hide LearnRole, LearnSlots, DirtySlots;
    var s1 := s.(view := LearnRole(s.view, m));
    ClusterEpochs.LearnSlotsOnlySlots(s1, m);
  }

  lemma ReceiveSame(s: NodeState, m: Msg, env: Env)
    ensures var (s', out) := ProcessPacket(s, m, env);
            && (m.kind.AuthRequest? || NoElectionPackets(out))
            && (m.kind.AuthRequest? || s'.lastVoteEpoch == s.lastVoteEpoch)
            && (m.kind.AuthAck? || s'.auth == s.auth)
  {
    hide ProcessPing, UpdateSlots, Votes, Counts, Header;
    var s1 := LearnHeader(s, m);
    PingSame(s1, m);
    assert SameElection(s, s1);
    if m.kind.Update? && m.kind.about in s1.view.nodes {
      var s2 := s1.(view := Promote(s1.view, m.kind.about, m.kind.epoch));
      UpdateSlotsSame(s2, m.kind.about, m.kind.epoch, m.kind.aboutSlots);
    }
    assert Header(s1, Pong, m.src).kind == Pong by { HeaderKind(s1, Pong, m.src); }
  }

  lemma HeaderKind(s: NodeState, kind: Kind, dst: Id)
    ensures var m := Header(s, kind, dst);
            m.kind == kind && m.src == s.self && m.dst == dst && m.currentEpoch == s.currentEpoch
  {
  }

  lemma CommandSame(s: NodeState, a: Action)
    ensures SameElection(s, Command(s, a).0) && NoElectionPackets(Command(s, a).1)
  {
    hide SetMaster, TakeOver;
    if a.Replicate? { ClusterEpochs.SetMasterOnlySlots(s, a.node); }
  }

  /** A vote: the packet asks for the current epoch, in which this node had not voted. */
  lemma VoteStep(s: NodeState, a: Action)
    requires a.Receive? && a.m.kind.AuthRequest? && Known(s, a.m)
    ensures var (s', out) := Local(s, a);
            if CastsVote(s, a) then
              && s'.lastVoteEpoch == s'.currentEpoch == LearnHeader(s, a.m).currentEpoch
              && s.lastVoteEpoch != s'.currentEpoch && a.m.currentEpoch == s'.currentEpoch
              && exists x :: out == {x} && x.kind == AuthAck && x.dst == a.m.src && x.currentEpoch == s'.currentEpoch
            else s'.lastVoteEpoch == s.lastVoteEpoch && out == {}
  {
    var s1 := LearnHeader(s, a.m);
    HeaderKind(s1, AuthAck, a.m.src);
    hide Header;
  }

  lemma FailoverStep(s: NodeState, env: Env)
    ensures var (s', out) := HandleSlaveFailover(s, env);
            && s'.lastVoteEpoch == s.lastVoteEpoch
            && (forall x | x in out :: !x.kind.AuthAck?)
            && (forall x | x in out && x.kind.AuthRequest? :: x.currentEpoch == s'.auth.epoch)
            && s'.auth.count == (if Schedules(s, env) then 0 else s.auth.count)
            && s'.auth.sent == (if Schedules(s, env) then false else s.auth.sent || Requests(s, env))
            && s'.auth.epoch == (if Requests(s, env) then s.currentEpoch + 1 else s.auth.epoch)
  {
    hide TakeOver;
  }

  // ------------------------------------------------------- the invariant

  /** The tally of one node: each acknowledgement counted is a vote of this attempt or
      came late; votes counted were cast for this node in this epoch. */
  predicate Tally(n: Id, s: NodeState, h: Hist) {
    && s.self == n
    && s.lastVoteEpoch <= s.currentEpoch
    && s.auth.epoch <= s.currentEpoch
    && s.auth.count == |h.Got(n)| + h.Late(n)
    && (!s.auth.sent ==> h.Got(n) == {})
    && (forall v | v in h.Got(n) :: h.Voted(v, s.auth.epoch, n))
  }

  predicate VotesRecorded(c: Cluster, h: Hist) {
    forall k | k in h.votes ::
      && k.0 in c.nodes && k.1 <= c.nodes[k.0].lastVoteEpoch
      && h.votes[k] in c.nodes && k.1 <= c.nodes[h.votes[k]].auth.epoch
  }

  /** An acknowledgement in flight stands for one vote that was not counted yet. */
  predicate AckPending(c: Cluster, h: Hist, m: Msg) {
    && m.dst in c.nodes && h.Voted(m.src, m.currentEpoch, m.dst)
    && (c.nodes[m.dst].auth.sent && m.currentEpoch == c.nodes[m.dst].auth.epoch ==> m.src !in h.Got(m.dst))
  }

  predicate AcksPending(c: Cluster, h: Hist) {
    && (forall m | m in c.net && m.kind.AuthAck? :: AckPending(c, h, m))
    && (forall m, m' | m in c.net && m' in c.net && m.kind.AuthAck? && m'.kind.AuthAck? &&
                       m.src == m'.src && m.currentEpoch == m'.currentEpoch :: m == m')
  }

  predicate RequestsBounded(c: Cluster) {
    forall m | m in c.net && m.kind.AuthRequest? ::
      m.src in c.nodes && m.currentEpoch <= c.nodes[m.src].auth.epoch
  }

  /** A win is backed by votes for the winner; with what came late they are a quorum. */
  predicate Backed(h: Hist, w: Win) {
    && (forall v | v in w.voters :: h.Voted(v, w.epoch, w.node))
    && |w.voters| + w.late >= Quorum(w.size)
  }

  predicate WinsBacked(h: Hist) { forall w | w in h.wins :: Backed(h, w) }

  predicate Inv(c: Cluster, h: Hist) {
    && (forall n | n in c.nodes :: Tally(n, c.nodes[n], h))
    && VotesRecorded(c, h) && AcksPending(c, h) && RequestsBounded(c) && WinsBacked(h)
  }

  /** What a step does to the acting node's election, case by case. */
  ghost predicate Effect(s: NodeState, a: Action, s': NodeState, out: set<Msg>) {
    && s'.self == s.self && s.currentEpoch <= s'.currentEpoch
    && (forall x | x in out :: x.src == s.self)
    && (if CastsVote(s, a) then
          && s'.auth == s.auth
          && s'.lastVoteEpoch == s'.currentEpoch == LearnHeader(s, a.m).currentEpoch
          && s.lastVoteEpoch != s'.currentEpoch && a.m.currentEpoch == s'.currentEpoch
          && (exists x :: out == {x} && x.kind == AuthAck && x.dst == a.m.src && x.currentEpoch == s'.currentEpoch)
        else
          && s'.lastVoteEpoch == s.lastVoteEpoch
          && (forall x | x in out :: !x.kind.AuthAck?)
          && (forall x | x in out && x.kind.AuthRequest? :: x.currentEpoch == s'.auth.epoch)
          && s'.auth.count == (if CountsAck(s, a) then s.auth.count + 1
                               else if a.Failover? && Schedules(s, a.env) then 0 else s.auth.count)
          && s'.auth.sent == (if a.Failover? && Schedules(s, a.env) then false
                              else s.auth.sent || (a.Failover? && Requests(s, a.env)))
          && s'.auth.epoch == (if a.Failover? && Requests(s, a.env) then s.currentEpoch + 1 else s.auth.epoch)
          && (a.Failover? && Requests(s, a.env) ==> s'.currentEpoch == s.currentEpoch + 1))
  }

  lemma StepEffect(s: NodeState, a: Action)
    requires ClusterEpochs.Dominates(s) && s.auth.epoch <= s.currentEpoch
    requires a.Receive? ==> ClusterEpochs.Honest(a.m) && Known(s, a.m)
    ensures Effect(s, a, Local(s, a).0, Local(s, a).1)
  {
    hide ProcessPing, ProcessUpdate, SendFailoverAuthIfNeeded, ProcessFail, HandleSlaveFailover, Command,
         Schedules, Requests, Votes, Counts, ClusterEpochs.Dominates, ClusterEpochs.Honest;
    ClusterEpochs.LocalKeeps(s, a);
    match a
    case Receive(m, env) =>
      ReceiveSame(s, m, env);
      if m.kind.AuthRequest? { VoteStep(s, a); }
    case Failover(env) => FailoverStep(s, env); RequestEpoch(s, env);
    case _ => CommandSame(s, a);
  }

  lemma RequestEpoch(s: NodeState, env: Env)
    ensures Requests(s, env) ==> HandleSlaveFailover(s, env).0.currentEpoch == s.currentEpoch + 1
  {
  }

  /** One action of node `n`, with its effect on the history. */
  ghost predicate Moves(c: Cluster, h: Hist, c': Cluster, h': Hist, n: Id, a: Action, out: set<Msg>) {
    && n in c.nodes && n in c'.nodes
    && c'.nodes == c.nodes[n := c'.nodes[n]]
    && Effect(c.nodes[n], a, c'.nodes[n], out)
    && h' == NextHist(h, n, c.nodes[n], a)
    && (a.Receive? ==> a.m in c.net && a.m.dst == n && a.m.src in c.nodes && Known(c.nodes[n], a.m))
    && c'.net <= c.net + out
    && (a.Receive? && a.m.kind.AuthAck? ==> a.m !in c'.net || a.m in out)
  }

  /** The guards of one action exclude each other. */
  lemma GuardsApart(s: NodeState, a: Action)
    ensures CountsAck(s, a) ==> a.Receive? && a.m.kind.AuthAck?
    ensures CastsVote(s, a) ==> a.Receive? && a.m.kind.AuthRequest?
    ensures a.Failover? && Requests(s, a.env) ==> !s.auth.sent && !Wins(s, a.env) && !Schedules(s, a.env)
    ensures a.Failover? && Wins(s, a.env) ==> s.auth.sent && s.auth.count >= Quorum(s.size)
  {
  }

  /** No vote is taken back or replaced: a master votes once in an epoch. */
  lemma VotesGrow(c: Cluster, h: Hist, c': Cluster, h': Hist, n: Id, a: Action, out: set<Msg>)
    requires Inv(c, h) && Moves(c, h, c', h', n, a, out)
    ensures forall k | k in h.votes :: k in h'.votes && h'.votes[k] == h.votes[k]
    ensures CastsVote(c.nodes[n], a) ==> (n, c'.nodes[n].currentEpoch) !in h.votes
  {
    hide Votes, CastsVote, CountsAck, Schedules, Requests, Wins, LearnHeader, AcksPending, WinsBacked,
         RequestsBounded, Known;
    GuardsApart(c.nodes[n], a);
    assert Tally(n, c.nodes[n], h);
  }

  /** An acknowledgement that is counted belongs to the current or the abandoned attempt,
      and to a vote not counted before. */
  lemma CountedOnce(c: Cluster, h: Hist, c': Cluster, h': Hist, n: Id, a: Action, out: set<Msg>)
    requires Inv(c, h) && Moves(c, h, c', h', n, a, out) && CountsAck(c.nodes[n], a)
    ensures a.m.currentEpoch == c.nodes[n].auth.epoch && h.Voted(a.m.src, a.m.currentEpoch, n)
    ensures c.nodes[n].auth.sent ==> a.m.src !in h.Got(n)
  {
    hide Effect, Tally, Votes, Backed;
    assert AckPending(c, h, a.m);
    assert (a.m.src, a.m.currentEpoch) in h.votes;
  }

  lemma TallyOfOther(c: Cluster, h: Hist, c': Cluster, h': Hist, n: Id, a: Action, out: set<Msg>, x: Id)
    requires Inv(c, h) && Moves(c, h, c', h', n, a, out) && x in c'.nodes && x != n
    ensures Tally(x, c'.nodes[x], h')
  {
    hide CastsVote, CountsAck, Schedules, Wins, LearnHeader, VotesRecorded, AcksPending, WinsBacked, Known,
         RequestsBounded, Effect;
    VotesGrow(c, h, c', h', n, a, out);
    assert Tally(x, c.nodes[x], h);
    assert h'.Got(x) == h.Got(x) && h'.Late(x) == h.Late(x);
  }

  lemma TallyOfActor(c: Cluster, h: Hist, c': Cluster, h': Hist, n: Id, a: Action, out: set<Msg>)
    requires Inv(c, h) && Moves(c, h, c', h', n, a, out)
    ensures Tally(n, c'.nodes[n], h')
  {
    hide CastsVote, CountsAck, Schedules, Requests, Wins, LearnHeader, VotesRecorded, AcksPending, WinsBacked,
         Known, RequestsBounded;
    VotesGrow(c, h, c', h', n, a, out);
    GuardsApart(c.nodes[n], a);
    if CountsAck(c.nodes[n], a) { CountedOnce(c, h, c', h', n, a, out); }
    assert Tally(n, c.nodes[n], h);
  }

  lemma VotesRecordedKeeps(c: Cluster, h: Hist, c': Cluster, h': Hist, n: Id, a: Action, out: set<Msg>)
    requires Inv(c, h) && Moves(c, h, c', h', n, a, out)
    ensures VotesRecorded(c', h')
  {
    hide CountsAck, CastsVote, Schedules, Requests, Wins, LearnHeader, AcksPending, WinsBacked, Known;
    GuardsApart(c.nodes[n], a);
    VotesGrow(c, h, c', h', n, a, out);
    assert Tally(n, c.nodes[n], h);
    EpochsForward(c, h, c', h', n, a, out);
    hide Effect, Tally;
    forall k | k in h'.votes
      ensures k.0 in c'.nodes && k.1 <= c'.nodes[k.0].lastVoteEpoch
      ensures h'.votes[k] in c'.nodes && k.1 <= c'.nodes[h'.votes[k]].auth.epoch
    {
      if k in h.votes {
        assert h'.votes[k] == h.votes[k];
      } else {
        assert k == (n, c'.nodes[n].lastVoteEpoch);
      }
    }
  }

  /** The epochs that elections compare never fall. */
  lemma EpochsForward(c: Cluster, h: Hist, c': Cluster, h': Hist, n: Id, a: Action, out: set<Msg>)
    requires Inv(c, h) && Moves(c, h, c', h', n, a, out)
    ensures c.nodes[n].lastVoteEpoch <= c'.nodes[n].lastVoteEpoch
    ensures c.nodes[n].auth.epoch <= c'.nodes[n].auth.epoch
    ensures CastsVote(c.nodes[n], a) ==>
              c'.nodes[n].lastVoteEpoch == LearnHeader(c.nodes[n], a.m).currentEpoch == a.m.currentEpoch
  {
    hide CountsAck, CastsVote, Schedules, Requests, Wins, LearnHeader, AcksPending, WinsBacked, Known, NextHist;
    assert Tally(n, c.nodes[n], h);
  }

  lemma RequestsBoundedKeeps(c: Cluster, h: Hist, c': Cluster, h': Hist, n: Id, a: Action, out: set<Msg>)
    requires Inv(c, h) && Moves(c, h, c', h', n, a, out)
    ensures RequestsBounded(c')
  {
    hide CountsAck, Schedules, Requests, Wins, LearnHeader, AcksPending, WinsBacked, Known, CastsVote, NextHist;
    GuardsApart(c.nodes[n], a);
    assert Tally(n, c.nodes[n], h);
  }

  lemma WinsBackedKeeps(c: Cluster, h: Hist, c': Cluster, h': Hist, n: Id, a: Action, out: set<Msg>)
    requires Inv(c, h) && Moves(c, h, c', h', n, a, out)
    ensures WinsBacked(h')
  {
    hide CastsVote, CountsAck, Schedules, Requests, Wins, LearnHeader, VotesRecorded, AcksPending, Known,
         RequestsBounded, Effect;
    VotesGrow(c, h, c', h', n, a, out);
    GuardsApart(c.nodes[n], a);
    assert Tally(n, c.nodes[n], h);
    forall w | w in h'.wins ensures Backed(h', w) {
      if w in h.wins { assert Backed(h, w); }
    }
  }

  /** An acknowledgement that was in flight and still is. */
  lemma OldAckPending(c: Cluster, h: Hist, c': Cluster, h': Hist, n: Id, a: Action, out: set<Msg>, m: Msg)
    requires Inv(c, h) && Moves(c, h, c', h', n, a, out)
    requires m in c.net && m in c'.net && m.kind.AuthAck? && m !in out
    ensures AckPending(c', h', m)
  {
    hide CastsVote, CountsAck, Schedules, Requests, Wins, LearnHeader, WinsBacked, Known, RequestsBounded;
    VotesGrow(c, h, c', h', n, a, out);
    GuardsApart(c.nodes[n], a);
    if CountsAck(c.nodes[n], a) { CountedOnce(c, h, c', h', n, a, out); }
    assert Tally(n, c.nodes[n], h);
    assert AckPending(c, h, m);
    assert (m.src, m.currentEpoch) in h.votes;
  }

  /** The acknowledgement of a vote just cast. */
  lemma NewAckPending(c: Cluster, h: Hist, c': Cluster, h': Hist, n: Id, a: Action, out: set<Msg>, m: Msg)
    requires Inv(c, h) && Moves(c, h, c', h', n, a, out) && m in out && m.kind.AuthAck?
    ensures AckPending(c', h', m) && CastsVote(c.nodes[n], a)
    ensures m.src == n && m.currentEpoch == c'.nodes[n].currentEpoch
    ensures forall m' | m' in out && m'.kind.AuthAck? :: m' == m
  {
    hide CountsAck, Schedules, Requests, Wins, WinsBacked, Known, RequestsBounded, VotesRecorded, AcksPending,
         Votes;
    VotesGrow(c, h, c', h', n, a, out);
    GuardsApart(c.nodes[n], a);
    assert Tally(n, c.nodes[n], h);
    assert Tally(m.dst, c.nodes[m.dst], h);
  }

  lemma AcksPendingKeeps(c: Cluster, h: Hist, c': Cluster, h': Hist, n: Id, a: Action, out: set<Msg>)
    requires Inv(c, h) && Moves(c, h, c', h', n, a, out)
    ensures AcksPending(c', h')
  {
    hide CountsAck, CastsVote, NextHist, Effect, WinsBacked, Known, RequestsBounded, VotesRecorded;
    VotesGrow(c, h, c', h', n, a, out);
    forall m | m in c'.net && m.kind.AuthAck?
      ensures AckPending(c', h', m) && (m in out || (m in c.net && AckPending(c, h, m)))
    {
      if m in out { NewAckPending(c, h, c', h', n, a, out, m); }
      else { OldAckPending(c, h, c', h', n, a, out, m); }
    }
    forall m, m' | m in c'.net && m' in c'.net && m.kind.AuthAck? && m'.kind.AuthAck? &&
                   m.src == m'.src && m.currentEpoch == m'.currentEpoch
      ensures m == m'
    {
      if m in out { NewAckPending(c, h, c', h', n, a, out, m); }
      if m' in out { NewAckPending(c, h, c', h', n, a, out, m'); }
    }
  }

  lemma InvKeeps(c: Cluster, h: Hist, c': Cluster, h': Hist, n: Id, a: Action, out: set<Msg>)
    requires Inv(c, h) && Moves(c, h, c', h', n, a, out)
    ensures Inv(c', h')
  {
    hide Tally, VotesRecorded, AcksPending, RequestsBounded, WinsBacked, Effect, NextHist;
    forall x | x in c'.nodes ensures Tally(x, c'.nodes[x], h') {
      if x == n { TallyOfActor(c, h, c', h', n, a, out); } else { TallyOfOther(c, h, c', h', n, a, out, x); }
    }
    VotesRecordedKeeps(c, h, c', h', n, a, out);
    AcksPendingKeeps(c, h, c', h', n, a, out);
    RequestsBoundedKeeps(c, h, c', h', n, a, out);
    WinsBackedKeeps(c, h, c', h', n, a, out);
  }

  // ------------------------------------------------------- whole runs

  lemma InitInv(c: Cluster)
    requires Init(c)
    ensures Inv(c, Hist(map[], map[], map[], {}))
  {
    hide Backed, AckPending;
    forall n | n in c.nodes ensures Tally(n, c.nodes[n], Hist(map[], map[], map[], {})) {
      assert Fresh(c.nodes[n], n);
    }
  }

  lemma LossKeeps(c: Cluster, h: Hist, c': Cluster, m: Msg)
    requires Inv(c, h) && Loses(c, c', m)
    ensures Inv(c', h)
  {
    hide Backed, Tally;
    forall x | x in c'.net && x.kind.AuthAck? ensures AckPending(c', h, x) {
      assert AckPending(c, h, x);
    }
  }

  lemma StepInv(c: Cluster, h: Hist, c': Cluster, e: Event)
    requires Inv(c, h) && Next(c, c', e)
    requires ClusterEpochs.Dominated(c) && ClusterEpochs.Named(c)
    ensures Inv(c', if e.Act? && e.n in c.nodes then NextHist(h, e.n, c.nodes[e.n], e.a) else h)
  {
    hide Local, NextHist, Effect, Backed, Tally, ClusterEpochs.Dominates, ClusterEpochs.Honest, AckPending;
    if e.Act? {
      var s := c.nodes[e.n];
      StepEffect(s, e.a);
      InvKeeps(c, h, c', NextHist(h, e.n, s, e.a), e.n, e.a, Local(s, e.a).1);
    } else {
      LossKeeps(c, h, c', e.m);
    }
  }

  /** In every reachable state of every run the vote counter of a node is the number of
      masters that voted for its current attempt, plus the acknowledgements that came
      late: after the attempt was scheduled and before its votes were asked for. So the
      counter is the number of votes exactly when none came late. */
  lemma {:induction false} CounterIsVotesPlusLate(cs: seq<Cluster>, es: seq<Event>, k: nat)
    requires Run(cs, es) && k <= |es|
    requires forall i | 0 <= i < |es| :: ClusterEpochs.FreshNick(es[i], cs[i])
    ensures Inv(cs[k], History(cs, es, k))
    ensures forall n | n in cs[k].nodes ::
              var h := History(cs, es, k);
              && (forall v | v in h.Got(n) :: h.Voted(v, cs[k].nodes[n].auth.epoch, n))
              && cs[k].nodes[n].auth.count == |h.Got(n)| + h.Late(n)
              && (cs[k].nodes[n].auth.count == |h.Got(n)| <==> h.Late(n) == 0)
  {
    hide Next, ClusterEpochs.Dominated, ClusterEpochs.Named, NextHist, VotesRecorded, AcksPending,
         RequestsBounded, WinsBacked;
    if k == 0 {
      InitInv(cs[0]);
    } else {
      CounterIsVotesPlusLate(cs, es, k - 1);
      ClusterEpochs.EpochDomination(cs, es, k - 1);
      StepInv(cs[k - 1], History(cs, es, k - 1), cs[k], es[k - 1]);
    }
    assert forall n | n in cs[k].nodes :: Tally(n, cs[k].nodes[n], History(cs, es, k));
  }

  /** Every vote of the epoch is cast by a member of `all`, and a winner of the epoch computed
      its quorum for |all| masters. Other epochs may have other voters. */
  predicate Respects(all: set<Id>, epoch: nat, c: Cluster, e: Event) {
    e.Act? && e.n in c.nodes ==>
      var s := c.nodes[e.n];
      && (CastsVote(s, e.a) && LearnHeader(s, e.a.m).currentEpoch == epoch ==> e.n in all)
      && (e.a.Failover? && Wins(s, e.a.env) && s.auth.epoch == epoch ==> s.size == |all|)
  }

  predicate InElectorate(all: set<Id>, epoch: nat, h: Hist) {
    && (forall k | k in h.votes && k.1 == epoch :: k.0 in all)
    && (forall w | w in h.wins && w.epoch == epoch :: w.size == |all|)
  }

  lemma {:induction false} RespectsRun(all: set<Id>, epoch: nat, cs: seq<Cluster>, es: seq<Event>, k: nat)
    requires Run(cs, es) && k <= |es|
    requires forall i | 0 <= i < |es| :: Respects(all, epoch, cs[i], es[i])
    ensures InElectorate(all, epoch, History(cs, es, k))
  {
    hide Next, CastsVote, CountsAck, Schedules, Wins, LearnHeader;
    if k > 0 {
      RespectsRun(all, epoch, cs, es, k - 1);
      assert Respects(all, epoch, cs[k - 1], es[k - 1]);
    }
  }

  /** Two majorities of one set meet. */
  lemma MajoritiesMeet(all: set<Id>, a: set<Id>, b: set<Id>)
    requires a <= all && b <= all
    requires |a| >= Quorum(|all|) && |b| >= Quorum(|all|)
    ensures a * b != {}
  {
    SubsetSize(a + b, all);
    assert |a + b| == |a| + |b| - |a * b|;
  }

  lemma SubsetSize(a: set<Id>, b: set<Id>)
    requires a <= b
    ensures |a| <= |b|
  {
    assert b == a + (b - a);
  }

  /** Election safety: in every run, two elections of the same epoch that were won on
      enough votes, not counting late acknowledgements, were won by the same node. */
  lemma ElectionSafety(all: set<Id>, epoch: nat, cs: seq<Cluster>, es: seq<Event>, k: nat, w: Win, w': Win)
    requires Run(cs, es) && k <= |es|
    requires forall i | 0 <= i < |es| :: ClusterEpochs.FreshNick(es[i], cs[i]) && Respects(all, epoch, cs[i], es[i])
    requires w in History(cs, es, k).wins && w' in History(cs, es, k).wins && w.epoch == w'.epoch == epoch
    requires |w.voters| >= Quorum(w.size) && |w'.voters| >= Quorum(w'.size)
    ensures w.node == w'.node
  {
    hide Next, Init, Respects, History, Tally, VotesRecorded, AcksPending, RequestsBounded;
    var h := History(cs, es, k);
    CounterIsVotesPlusLate(cs, es, k);
    RespectsRun(all, epoch, cs, es, k);
    assert Backed(h, w) && Backed(h, w');
    forall v | v in w.voters ensures v in all { assert (v, epoch) in h.votes; }
    forall v | v in w'.voters ensures v in all { assert (v, epoch) in h.votes; }
    MajoritiesMeet(all, w.voters, w'.voters);
    var v :| v in w.voters * w'.voters;
    assert h.votes[(v, epoch)] == w.node;
  }

  /** If no acknowledgement came late, every win is such a win. */
  lemma OnTimeWinHasQuorum(cs: seq<Cluster>, es: seq<Event>, k: nat, w: Win)
    requires Run(cs, es) && k <= |es| && w in History(cs, es, k).wins && w.late == 0
    requires forall i | 0 <= i < |es| :: ClusterEpochs.FreshNick(es[i], cs[i])
    ensures |w.voters| >= Quorum(w.size)
  {
    hide Next, Init, Tally, VotesRecorded, AcksPending, RequestsBounded;
    CounterIsVotesPlusLate(cs, es, k);
    assert Backed(History(cs, es, k), w);
  }

  // ------------------------------------------------------- a node knows its own role

  predicate SelfKnown(s: NodeState) {
    s.self in s.view.nodes && s.view.nodes[s.self].role != Unset
  }

  predicate StillKnown(s: NodeState, s': NodeState) {
    s'.self == s.self && (SelfKnown(s) ==> SelfKnown(s'))
  }

  lemma UpdateSlotsKnown(s: NodeState, n: Id, e: nat, slots: set<Slot>)
    ensures StillKnown(s, UpdateSlots(s, n, e, slots))
  {
  }

  lemma PacketKnown(s: NodeState, m: Msg, env: Env)
    ensures StillKnown(s, ProcessPacket(s, m, env).0)
  {
    hide ProcessPing, UpdateSlots, Votes, Counts, Header;
    var s1 := LearnHeader(s, m);
    PingKnown(s1, m);
    if m.kind.Update? && m.kind.about in s1.view.nodes {
      UpdateSlotsKnown(s1.(view := Promote(s1.view, m.kind.about, m.kind.epoch)), m.kind.about, m.kind.epoch, m.kind.aboutSlots);
    }
  }

  lemma PingKnown(s: NodeState, m: Msg)
    ensures StillKnown(s, ProcessPing(s, m).0)
  {
    hide UpdateSlots, TellSender, Header;
    var s1 := s.(view := LearnRole(s.view, m));
    UpdateSlotsKnown(s1, m.src, SenderConfigEpoch(s1, m), m.slots);
  }

  lemma FailoverKnown(s: NodeState, env: Env)
    ensures StillKnown(s, HandleSlaveFailover(s, env).0)
  {
    hide MayFailover, Schedules, Requests, InAttempt, Broadcast;
  }

  lemma CommandKnown(s: NodeState, a: Action)
    ensures StillKnown(s, Command(s, a).0)
  {
    hide Broadcast;
  }

  lemma LocalKnown(s: NodeState, a: Action)
    ensures StillKnown(s, Local(s, a).0)
  {
    match a
    case Receive(m, env) => PacketKnown(s, m, env); hide ProcessPacket;
    case Failover(env) => FailoverKnown(s, env); hide HandleSlaveFailover;
    case _ => CommandKnown(s, a); hide Command;
  }

  /** In every reachable state a node knows whether it is a master or a slave. */
  lemma {:induction false} RoleKnown(cs: seq<Cluster>, es: seq<Event>, k: nat)
    requires Run(cs, es) && k <= |es|
    ensures forall n | n in cs[k].nodes :: cs[k].nodes[n].self == n && SelfKnown(cs[k].nodes[n])
  {
    hide Local, SelfKnown;
    if k == 0 {
      FreshKnown(cs[0]);
    } else {
      RoleKnown(cs, es, k - 1);
      assert Next(cs[k - 1], cs[k], es[k - 1]);
      if es[k - 1].Act? { LocalKnown(cs[k - 1].nodes[es[k - 1].n], es[k - 1].a); }
    }
  }

  lemma FreshKnown(c: Cluster)
    requires Init(c)
    ensures forall n | n in c.nodes :: c.nodes[n].self == n && SelfKnown(c.nodes[n])
  {
  }

  // ------------------------------------------------------- voters that agree

  /** Whoever votes in the epoch sees, at that moment, exactly `all` as the masters with
      slots; and whoever wins it counted as many masters. */
  predicate Agrees(all: set<Id>, epoch: nat, c: Cluster, e: Event) {
    e.Act? && e.n in c.nodes ==>
      var s := c.nodes[e.n];
      && (CastsVote(s, e.a) && LearnHeader(s, e.a.m).currentEpoch == epoch ==> s.view.Electorate() == all)
      && (e.a.Failover? && Wins(s, e.a.env) && s.auth.epoch == epoch ==> s.size == |all|)
  }

  /** A voter is one of the masters with slots that it sees. */
  lemma AgreesRespects(all: set<Id>, epoch: nat, c: Cluster, e: Event)
    requires Agrees(all, epoch, c, e)
    requires e.Act? && e.n in c.nodes ==> c.nodes[e.n].self == e.n && SelfKnown(c.nodes[e.n])
    ensures Respects(all, epoch, c, e)
  {
    if e.Act? && e.n in c.nodes && CastsVote(c.nodes[e.n], e.a) {
      var s := c.nodes[e.n];
      var s1 := LearnHeader(s, e.a.m);
      assert s1.view.Bits(e.n) == s.view.Bits(e.n);
      assert s1.view.nodes[e.n].role == s.view.nodes[e.n].role;
    }
  }

  /** If the voters of an epoch agree on the voting masters and no acknowledgement came late,
      no two nodes ever win an election of that epoch. */
  lemma NoTwoWinners(all: set<Id>, epoch: nat, cs: seq<Cluster>, es: seq<Event>, k: nat, w: Win, w': Win)
    requires Run(cs, es) && k <= |es|
    requires forall i | 0 <= i < |es| :: ClusterEpochs.FreshNick(es[i], cs[i]) && Agrees(all, epoch, cs[i], es[i])
    requires w in History(cs, es, k).wins && w' in History(cs, es, k).wins && w.epoch == w'.epoch == epoch
    requires w.late == 0 && w'.late == 0
    ensures w.node == w'.node
  {
    hide Next, Init, Respects, Agrees, History, Tally, VotesRecorded, AcksPending, RequestsBounded, SelfKnown;
    forall i | 0 <= i < |es| ensures Respects(all, epoch, cs[i], es[i]) {
      assert ClusterEpochs.FreshNick(es[i], cs[i]);
      RoleKnown(cs, es, i);
      AgreesRespects(all, epoch, cs[i], es[i]);
    }
    OnTimeWinHasQuorum(cs, es, k, w);
    OnTimeWinHasQuorum(cs, es, k, w');
    ElectionSafety(all, epoch, cs, es, k, w, w');
  }
}
