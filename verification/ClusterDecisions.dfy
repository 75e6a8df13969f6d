/** What the decisions of a node mean: which votes are ever cast, what a won election leaves
    behind, when a node becomes a replica of somebody else, and which claims are adopted. */
module ClusterDecisions {
  import opened ClusterModel
  import opened ClusterElection
  import ClusterSlots

  // ------------------------------------------------------- votes

  /** Why a vote may be given: the voter serves slots and has not voted in the epoch; the
      requester replicates a known master that failed, or was asked to replace it, and nobody
      got a vote for that master lately; and no slot it claims has an owner under a greater
      epoch, as far as the voter knows. */
  predicate Fair(s: NodeState, m: Msg, env: Env) {
    var v := s.view;
    && (exists j :: j in v.owner && v.owner[j] == s.self) && !v.IsSlave(s.self)
    && m.currentEpoch >= s.currentEpoch != s.lastVoteEpoch
    && m.src in v.nodes && v.nodes[m.src].role != Master
    && v.nodes[m.src].slaveof.Some? && v.nodes[m.src].slaveof.value in v.nodes
    && var master := v.nodes[v.nodes[m.src].slaveof.value];
    && (master.failed || m.forceAck)
    && env.now >= master.votedTime + 2 * env.nodeTimeout
    && forall j | j in m.slots :: j in v.owner && v.owner[j] in v.nodes ==> v.nodes[v.owner[j]].configEpoch <= m.configEpoch
  }

  lemma VotesIffFair(s: NodeState, m: Msg, env: Env)
    requires m.src in s.view.nodes
    ensures Votes(s, m, env) <==> Fair(s, m, env)
  {
    if j :| j in s.view.owner && s.view.owner[j] == s.self { assert j in s.view.Bits(s.self); }
    if s.view.Bits(s.self) != {} {
      var j :| j in s.view.Bits(s.self);
      assert s.view.owner[j] == s.self;
    }
  }

  /** Every vote on record was given in this run, for that epoch and to that slave, by a
      voter that saw all this; and whenever a voter sees it, the vote is recorded. */
  lemma {:induction false} VotesAreFair(cs: seq<Cluster>, es: seq<Event>, k: nat, voter: Id, epoch: nat) returns (i: nat)
    requires Run(cs, es) && k <= |es| && (voter, epoch) in History(cs, es, k).votes
    ensures i < k && es[i].Act? && es[i].n == voter && es[i].a.Receive? && voter in cs[i].nodes
    ensures var s, m := LearnHeader(cs[i].nodes[voter], es[i].a.m), es[i].a.m;
            && m.kind.AuthRequest? && m.src == History(cs, es, k).votes[(voter, epoch)]
            && s.currentEpoch == epoch && Fair(s, m, es[i].a.env)
  {
    hide Next, Votes, Fair, Schedules, Wins, LearnHeader, CountsAck;
    var e := es[k - 1];
    if e.Act? && e.n in cs[k - 1].nodes && CastsVote(cs[k - 1].nodes[e.n], e.a) {
      var s := LearnHeader(cs[k - 1].nodes[e.n], e.a.m);
      VotesIffFair(s, e.a.m, e.a.env);
      if e.n == voter && s.currentEpoch == epoch { return k - 1; }
    }
    assert History(cs, es, k).votes[(voter, epoch)] == History(cs, es, k - 1).votes[(voter, epoch)];
    i := VotesAreFair(cs, es, k - 1, voter, epoch);
  }

  lemma FairIsVoted(cs: seq<Cluster>, es: seq<Event>, i: nat)
    requires Run(cs, es) && i < |es| && es[i].Act? && es[i].n in cs[i].nodes && es[i].a.Receive?
    requires es[i].a.m.kind.AuthRequest? && es[i].a.m.src in LearnHeader(cs[i].nodes[es[i].n], es[i].a.m).view.nodes
    requires Fair(LearnHeader(cs[i].nodes[es[i].n], es[i].a.m), es[i].a.m, es[i].a.env)
    ensures var key := (es[i].n, LearnHeader(cs[i].nodes[es[i].n], es[i].a.m).currentEpoch);
            key in History(cs, es, i + 1).votes && History(cs, es, i + 1).votes[key] == es[i].a.m.src
  {
    hide Next, Votes, Fair, Schedules, Wins, LearnHeader, CountsAck;
    VotesIffFair(LearnHeader(cs[i].nodes[es[i].n], es[i].a.m), es[i].a.m, es[i].a.env);
  }

  // ------------------------------------------------------- a won election

  /** `s'` is the master of nobody's, under an epoch that is at least `epoch`, and the slots
      of `former` are its own; all other slots stay. */
  predicate TookOver(s: NodeState, s': NodeState, former: Id, epoch: nat) {
    var me := s.self;
    && s'.self == me && me in s'.view.nodes
    && s'.view.nodes[me].role == Master && s'.view.nodes[me].slaveof == None && s'.view.nodes[me].configEpoch >= epoch
    && s'.view.owner.Keys == s.view.owner.Keys
    && forall j | j in s.view.owner :: s'.view.owner[j] == if s.view.owner[j] == former then me else s.view.owner[j]
  }

  lemma WinStep(s: NodeState, env: Env)
    requires Wins(s, env)
    ensures var (s', out) := HandleSlaveFailover(s, env);
            && s.view.SlaveOf(s.self).Some? && TookOver(s, s', s.view.SlaveOf(s.self).value, s.auth.epoch)
            && forall d | d in s'.view.nodes && d != s.self && !s'.view.nodes[d].handshake :: Header(s', Pong, d) in out
  {
    hide Header;
  }

  /** Behind every win on record there is a step of the run in which the winner took the
      slots of its master over and told everybody. */
  lemma {:induction false} WinnersTakeOver(cs: seq<Cluster>, es: seq<Event>, k: nat, w: Win) returns (i: nat)
    requires Run(cs, es) && k <= |es| && w in History(cs, es, k).wins
    ensures i < k && es[i].Act? && es[i].n == w.node && es[i].a.Failover?
    ensures w.node in cs[i].nodes && w.node in cs[i + 1].nodes
    ensures var s, s' := cs[i].nodes[w.node], cs[i + 1].nodes[w.node];
            && s.view.SlaveOf(s.self).Some? && TookOver(s, s', s.view.SlaveOf(s.self).value, w.epoch)
            && forall d | d in s'.view.nodes && d != s.self && !s'.view.nodes[d].handshake :: Header(s', Pong, d) in cs[i + 1].net
  {
    hide Local, CastsVote, CountsAck, Schedules, Wins, LearnHeader, TookOver, Header;
    var e := es[k - 1];
    assert Next(cs[k - 1], cs[k], e);
    if e.Act? && e.n in cs[k - 1].nodes && w !in History(cs, es, k - 1).wins {
      var s := cs[k - 1].nodes[e.n];
      assert e.a.Failover? && Wins(s, e.a.env) && w.node == e.n && w.epoch == s.auth.epoch;
      WinStep(s, e.a.env);
      LocalFailover(s, e.a.env);
      return k - 1;
    }
    i := WinnersTakeOver(cs, es, k - 1, w);
  }

  lemma LocalFailover(s: NodeState, env: Env)
    ensures Local(s, Failover(env)) == HandleSlaveFailover(s, env)
  {
  }

  /** In particular the former master has no slots left, and the winner has them. */
  lemma FormerMasterEmpty(s: NodeState, s': NodeState, former: Id, epoch: nat)
    requires TookOver(s, s', former, epoch)
    ensures former != s.self ==> s'.view.Bits(former) == {}
    ensures s'.view.Bits(s.self) == s.view.Bits(s.self) + s.view.Bits(former)
  {
  }

  // ------------------------------------------------------- a lost master

  /** The node or its master lost its last slot through the update. */
  predicate LostAll(s: NodeState, r: NodeState, cur: Id) {
    && (exists j :: j in s.view.owner && s.view.owner[j] == cur && (j !in r.view.owner || r.view.owner[j] != cur))
    && forall j | j in r.view.owner :: r.view.owner[j] != cur
  }

  /** A node whose own or whose master's last slot goes to a newer owner follows that owner,
      and stops importing slots if it was a master; it cannot while it has slots itself, and
      the process ends on an assertion. No other update changes a role. */
  lemma UpdateFollowsExactly(s: NodeState, sender: Id, e: nat, slots: set<Slot>)
    requires sender != s.self && s.self in s.view.nodes && CurMaster(s).Some?
    ensures var r := UpdateSlots(s, sender, e, slots);
            if !LostAll(s, r, CurMaster(s).value) then r.view.nodes == s.view.nodes && r.alive == s.alive
            else if exists j :: j in r.view.owner && r.view.owner[j] == s.self then !r.alive && r.view.nodes == s.view.nodes
            else && r.alive == s.alive && r.view.nodes[s.self].role != Master && r.view.nodes[s.self].slaveof == Some(sender)
                 && (s.view.nodes[s.self].role == Master ==> r.view.importing == map[])
                 && r.view.nodes == s.view.nodes[s.self := r.view.nodes[s.self]]
  {
    var cur, js := CurMaster(s).value, Rebound(s.view, sender, e, slots);
    var s1 := s.(view := Assign(s.view, js, sender));
    if j :| j in js && s.view.OwnerOf(j) == Some(cur) {
      assert j in s.view.owner && s1.view.owner[j] == sender;
    }
    BitsEmpty(s1.view, cur);
    BitsEmpty(s1.view, s.self);
  }

  lemma BitsEmpty(v: View, n: Id)
    ensures v.Bits(n) == {} <==> forall j | j in v.owner :: v.owner[j] != n
  {
    if j :| j in v.owner && v.owner[j] == n { assert j in v.Bits(n); }
  }

  // ------------------------------------------------------- claims

  /** A master's claim under a newer epoch is adopted, whatever else its packet says, and
      what asks for an answer gets one. */
  lemma NewerClaimAdopted(s: NodeState, m: Msg, env: Env, j: Slot)
    requires ClusterSlots.KnownSender(s, m) && m.src != s.self && m.slaveof == None
    requires m.kind.Ping? || m.kind.Pong? || m.kind.Meet?
    requires j in m.slots && j !in s.view.importing
    requires j in s.view.owner ==> s.view.owner[j] in s.view.nodes && s.view.nodes[s.view.owner[j]].configEpoch < m.configEpoch
    ensures ProcessPacket(s, m, env).0.view.OwnerOf(j) == Some(m.src)
    ensures !m.kind.Pong? ==> Header(LearnHeader(s, m), Pong, m.src) in ProcessPacket(s, m, env).1
  {
    hide Header, TellSender, UpdateSlots;
    var s1 := LearnHeader(s, m);
    var s2 := s1.(view := LearnRole(s1.view, m));
    assert j in s2.view.owner ==> s2.view.owner[j] in s2.view.nodes;
    assert s2.view.OwnerOf(j) != Some(m.src) ==> j !in s2.view.Bits(m.src);
    ClusterSlots.UpdateRebindsExactly(s2, m.src, m.configEpoch, m.slots, j);
  }
}
