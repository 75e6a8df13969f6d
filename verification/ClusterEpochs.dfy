/** Epoch domination: a node's currentEpoch is at least every configEpoch it knows, and
    a packet's currentEpoch at least every configEpoch it reports. */
module ClusterEpochs {
  import opened ClusterModel

  /** Every epoch in the view is at most `e`. */
  predicate Below(v: View, e: nat) {
    forall n | n in v.nodes :: v.nodes[n].configEpoch <= e
  }

  predicate Dominates(s: NodeState) { Below(s.view, s.currentEpoch) }

  predicate Honest(m: Msg) {
    m.configEpoch <= m.currentEpoch && (m.kind.Update? ==> m.kind.epoch <= m.currentEpoch)
  }

  /** Honest packets from node `self`. */
  predicate Emits(self: Id, out: set<Msg>) { forall m | m in out :: Honest(m) && m.src == self }

  /** Domination everywhere; no election runs under an epoch its node has not reached. */
  predicate Dominated(c: Cluster) {
    && (forall n | n in c.nodes :: Dominates(c.nodes[n]) && c.nodes[n].auth.epoch <= c.nodes[n].currentEpoch)
    && (forall m | m in c.net :: Honest(m))
  }

  /** Nodes know who they are, packets come from nodes of the cluster, and the nicknames
      that stand for nodes in handshake are nobody's ID. */
  predicate Named(c: Cluster) {
    && (forall n | n in c.nodes :: c.nodes[n].self == n)
    && (forall n, k | n in c.nodes && k in c.nodes[n].view.nodes && c.nodes[n].view.nodes[k].handshake ::
          k !in c.nodes)
    && (forall m | m in c.net :: m.src in c.nodes)
  }

  /** The one packet that may break domination: an UPDATE from a node still in handshake,
      whose header teaches nothing, about a known node and above the local epoch. */
  predicate Breaks(s: NodeState, m: Msg) {
    && m.kind.Update? && m.src in s.view.nodes && s.view.nodes[m.src].handshake
    && m.kind.about in s.view.nodes && m.kind.epoch > s.currentEpoch
  }

  /** createClusterNode draws random names; here they never hit the ID of a real node. */
  predicate FreshNick(e: Event, c: Cluster) {
    e.Act? && e.a.StartHandshake? ==> e.a.nick !in c.nodes
  }

  // ------------------------------------------------------- slots and roles leave epochs alone

  /** `v'` knows no node that `v` does not know, and every node under the same epoch. */
  predicate SameEpochs(v: View, v': View) {
    SameNicks(v, v') && forall n | n in v'.nodes :: v'.nodes[n].configEpoch == v.nodes[n].configEpoch
  }

  /** No node is new to `v'`, and none went back into handshake. */
  predicate SameNicks(v: View, v': View) {
    forall n | n in v'.nodes :: n in v.nodes && (v'.nodes[n].handshake ==> v.nodes[n].handshake)
  }

  /** As `SameNicks`, for a step that may also add a nickname or resolve one. */
  predicate Nicks(v: View, v': View, a: Action) {
    forall n | n in v'.nodes && v'.nodes[n].handshake ::
      (n in v.nodes && v.nodes[n].handshake) || (a.StartHandshake? && n == a.nick)
  }

  /** Only the tables, the manual failover and the life of the process changed. */
  predicate OnlySlots(s: NodeState, s': NodeState) {
    && s'.self == s.self && s'.currentEpoch == s.currentEpoch && s'.lastVoteEpoch == s.lastVoteEpoch
    && s'.auth == s.auth && s'.size == s.size
    && s'.view.nodes.Keys == s.view.nodes.Keys
    && SameEpochs(s.view, s'.view)
  }

  lemma SetMasterOnlySlots(s: NodeState, n: Id)
    ensures OnlySlots(s, SetMaster(s, n))
  {
  }

  lemma UpdateSlotsOnlySlots(s: NodeState, sender: Id, e: nat, slots: set<Slot>)
    ensures OnlySlots(s, UpdateSlots(s, sender, e, slots))
  {
    var s1 := s.(view := Assign(s.view, Rebound(s.view, sender, e, slots), sender));
    SetMasterOnlySlots(s1, sender);
    hide SetMaster, Rebound, CurMaster, s.view.Bits;
  }

  lemma LearnRoleOnlySlots(s: NodeState, m: Msg)
    ensures OnlySlots(s, s.(view := LearnRole(s.view, m)))
  {
  }

  lemma LearnSlotsOnlySlots(s: NodeState, m: Msg)
    ensures OnlySlots(s, LearnSlots(s, m))
  {
    UpdateSlotsOnlySlots(s, m.src, SenderConfigEpoch(s, m), m.slots);
    hide UpdateSlots, DirtySlots;
  }

  // ------------------------------------------------------- handlers keep domination

  /** Who the node is stays; its epoch and its election's epoch only move forward. */
  predicate Advances(s: NodeState, s': NodeState) {
    && s'.self == s.self && s.currentEpoch <= s'.currentEpoch
    && (s'.auth.epoch == s.auth.epoch || s'.auth.epoch == s'.currentEpoch)
    && SameNicks(s.view, s'.view)
  }

  predicate Steps(s: NodeState, s': NodeState, a: Action) {
    && s'.self == s.self && s.currentEpoch <= s'.currentEpoch
    && (s'.auth.epoch == s.auth.epoch || s'.auth.epoch == s'.currentEpoch)
    && Nicks(s.view, s'.view, a)
  }

  lemma HeaderHonest(s: NodeState, kind: Kind, dst: Id)
    requires Dominates(s) && (kind.Update? ==> kind.epoch <= s.currentEpoch)
    ensures Honest(Header(s, kind, dst))
  {
  }

  lemma PongHonest(s: NodeState, dst: Id)
    requires Dominates(s)
    ensures Emits(s.self, {Header(s, Pong, dst)})
  {
  }

  lemma BroadcastHonest(s: NodeState, kind: Kind)
    requires Dominates(s) && !kind.Update?
    ensures Emits(s.self, Broadcast(s, kind))
  {
  }

  lemma SendHonest(s: NodeState, ds: set<Id>, kind: Kind)
    requires Dominates(s) && !kind.Update?
    ensures Emits(s.self, SendTo(s, ds, kind))
  {
  }

  lemma ReplaceYourMasterKeeps(s: NodeState)
    requires Dominates(s)
    ensures Dominates(ReplaceYourMaster(s).0) && Emits(s.self, ReplaceYourMaster(s).1)
    ensures OnlySlots(s, ReplaceYourMaster(s).0)
  {
    if !s.view.IsMaster(s.self) && s.view.SlaveOf(s.self).Some? {
      var s1 := ReplaceYourMaster(s).0;
      assert SameEpochs(s.view, s1.view);
      BroadcastHonest(s1, Pong);
    }
  }

  lemma CollisionKeeps(s: NodeState, m: Msg)
    requires Dominates(s)
    ensures Dominates(LearnCollision(s, m))
    ensures Advances(s, LearnCollision(s, m))
  {
  }

  lemma TellHonest(s: NodeState, m: Msg, dirty: bool)
    requires Dominates(s)
    ensures Emits(s.self, TellSender(s, m, dirty))
  {
    if dirty && exists j: Slot :: Outdated(s, m, j) {
      var n := s.view.owner[FirstOutdated(s, m, 0)];
      HeaderHonest(s, Update(n, s.view.EpochOf(n), s.view.Bits(n)), m.src);
    }
  }

  lemma PingKeeps(s: NodeState, m: Msg)
    requires Dominates(s)
    ensures Dominates(ProcessPing(s, m).0) && Emits(s.self, ProcessPing(s, m).1)
    ensures Advances(s, ProcessPing(s, m).0)
  {
    var s1 := s.(view := LearnRole(s.view, m));
    var s2 := LearnSlots(s1, m);
    LearnRoleOnlySlots(s, m);
    LearnSlotsOnlySlots(s1, m);
    CollisionKeeps(s2, m);
    TellHonest(s2, m, DirtySlots(s1.view, m));
    hide LearnRole, LearnSlots, LearnCollision, TellSender, DirtySlots;
  }

  /** An UPDATE is the only packet that writes an epoch its header did not carry. */
  lemma UpdateKeepsIff(s: NodeState, m: Msg)
    requires Dominates(s) && m.kind.Update?
    ensures Dominates(ProcessUpdate(s, m)) <==>
            !(m.src in s.view.nodes && m.kind.about in s.view.nodes && m.kind.epoch > s.currentEpoch)
    ensures Advances(s, ProcessUpdate(s, m))
  {
    var n := m.kind.about;
    if m.src in s.view.nodes && n in s.view.nodes && s.view.nodes[n].configEpoch < m.kind.epoch {
      var s1 := s.(view := Promote(s.view, n, m.kind.epoch));
      UpdateSlotsOnlySlots(s1, n, m.kind.epoch, m.kind.aboutSlots);
      assert ProcessUpdate(s, m).view.nodes[n].configEpoch == m.kind.epoch by {
        assert n in s1.view.nodes.Keys;
      }
      hide UpdateSlots;
      assert forall k | k in s1.view.nodes && k != n :: s1.view.nodes[k].configEpoch == s.view.nodes[k].configEpoch;
    }
  }

  lemma VoteKeeps(s: NodeState, m: Msg, env: Env)
    requires Dominates(s)
    ensures var (s', out) := SendFailoverAuthIfNeeded(s, m, env);
            Dominates(s') && Emits(s.self, out) && Advances(s, s')
  {
    HeaderHonest(s, AuthAck, m.src);
    hide Votes;
  }

  lemma FailAndAckKeep(s: NodeState, m: Msg)
    requires Dominates(s)
    ensures Dominates(ProcessAck(s, m)) && Advances(s, ProcessAck(s, m))
    ensures m.kind.Fail? ==> Dominates(ProcessFail(s, m)) && Advances(s, ProcessFail(s, m))
  {
  }

  lemma AdvancesTransitive(s0: NodeState, s1: NodeState, s2: NodeState)
    requires s1.auth == s0.auth
    ensures Advances(s0, s1) && Advances(s1, s2) ==> Advances(s0, s2)
  {
  }

  lemma LearnHeaderKeeps(s: NodeState, m: Msg)
    requires Dominates(s) && Honest(m)
    ensures var s1 := LearnHeader(s, m);
            && Dominates(s1) && Advances(s, s1) && s1.auth == s.auth && s1.self == s.self
            && (Breaks(s, m) ==> m.kind.Update?)
            && (m.kind.Update? ==> (Breaks(s, m) <==>
                  m.src in s1.view.nodes && m.kind.about in s1.view.nodes && m.kind.epoch > s1.currentEpoch))
  {
  }

  /** Receiving keeps domination, except for exactly the packets that `Breaks` names. */
  lemma ReceiveKeepsIff(s: NodeState, m: Msg, env: Env)
    requires Dominates(s) && Honest(m)
    ensures Dominates(ProcessPacket(s, m, env).0) <==> !Breaks(s, m)
    ensures Emits(s.self, ProcessPacket(s, m, env).1)
    ensures Advances(s, ProcessPacket(s, m, env).0)
  {
    hide LearnHeader, ProcessPing, ProcessUpdate, SendFailoverAuthIfNeeded, ProcessFail, ProcessAck, Header,
         Honest, Dominates, Breaks, Advances, SameNicks;
    var s1 := LearnHeader(s, m);
    LearnHeaderKeeps(s, m);
    AdvancesTransitive(s, s1, ProcessPacket(s, m, env).0);
    match m.kind
    case Ping => PingKeeps(s1, m); PongHonest(s1, m.src);
    case Meet => PingKeeps(s1, m); PongHonest(s1, m.src);
    case Pong => PingKeeps(s1, m);
    case Fail(_) => FailAndAckKeep(s1, m);
    case AuthRequest => VoteKeeps(s1, m, env);
    case AuthAck => FailAndAckKeep(s1, m);
    case Update(_, _, _) => UpdateKeepsIff(s1, m);
  }

  lemma FailoverKeeps(s: NodeState, env: Env)
    requires Dominates(s) && s.auth.epoch <= s.currentEpoch
    ensures Dominates(HandleSlaveFailover(s, env).0) && Emits(s.self, HandleSlaveFailover(s, env).1)
    ensures Advances(s, HandleSlaveFailover(s, env).0)
  {
    var r := HandleSlaveFailover(s, env);
    if Schedules(s, env) {
      SendHonest(r.0, LocalSlaves(r.0), Pong);
    } else if Requests(s, env) {
      BroadcastHonest(r.0, AuthRequest);
    } else if Wins(s, env) {
      ReplaceYourMasterKeeps(Elected(s.(auth := s.auth.(time := DelayedTime(s, env)))));
      hide ReplaceYourMaster;
    }
  }

  lemma QuietCommandKeeps(s: NodeState, a: Action)
    requires Dominates(s)
    ensures Dominates(QuietCommand(s, a))
    ensures Steps(s, QuietCommand(s, a), a)
  {
    if a.Replicate? { SetMasterOnlySlots(s, a.node); }
  }

  lemma BumpKeeps(s: NodeState)
    requires Dominates(s)
    ensures Dominates(Bump(s)) && Advances(s, Bump(s))
  {
  }

  lemma SetSlotNodeKeeps(s: NodeState, j: Slot, n: Id)
    requires Dominates(s)
    ensures var (s', out) := Command(s, SetSlotNode(j, n)); Dominates(s') && out == {} && Advances(s, s')
  {
    BumpKeeps(s);
    hide Bump;
  }

  lemma CommandKeeps(s: NodeState, a: Action)
    requires Dominates(s)
    ensures Dominates(Command(s, a).0) && Emits(s.self, Command(s, a).1)
    ensures Steps(s, Command(s, a).0, a)
  {
    hide Honest;
    match a
    case Heartbeat(dst, ping) => HeaderHonest(s, if ping then Ping else Pong, dst);
    case BroadcastFail(n) => BroadcastHonest(s, Fail(n));
    case Takeover => BumpKeeps(s); ReplaceYourMasterKeeps(Bump(s)); hide ReplaceYourMaster, Bump;
    case SetSlotNode(j, n) => SetSlotNodeKeeps(s, j, n); hide Command;
    case SetConfigEpoch(e) =>
    case _ => QuietCommandKeeps(s, a); hide QuietCommand;
  }

  // ------------------------------------------------------- whole runs

  /** What one action does to the epochs of the node that takes it. */
  lemma LocalKeeps(s: NodeState, a: Action)
    requires Dominates(s) && s.auth.epoch <= s.currentEpoch
    requires a.Receive? ==> Honest(a.m) && !Breaks(s, a.m)
    ensures var (s', out) := Local(s, a);
            Dominates(s') && Emits(s.self, out) && Steps(s, s', a)
  {
    match a
    case Receive(m, env) => ReceiveKeepsIff(s, m, env); hide ProcessPacket;
    case Failover(env) => FailoverKeeps(s, env); hide HandleSlaveFailover;
    case _ => CommandKeeps(s, a); hide Command;
  }

  lemma StepKeeps(c: Cluster, c': Cluster, e: Event)
    requires Dominated(c) && Named(c) && Next(c, c', e) && FreshNick(e, c)
    ensures Dominated(c') && Named(c') && c'.nodes.Keys == c.nodes.Keys
    ensures forall n | n in c.nodes :: c.nodes[n].currentEpoch <= c'.nodes[n].currentEpoch
  {
    hide Local, Honest, Dominates, Breaks;
    if e.Act? {
      if e.a.Receive? { NeverBreaks(c, e.n, e.a.m); }
      LocalKeeps(c.nodes[e.n], e.a);
    }
  }

  /** No packet is taken for one of a node in handshake. */
  lemma NeverBreaks(c: Cluster, n: Id, m: Msg)
    requires Named(c) && n in c.nodes && m in c.net
    ensures !Breaks(c.nodes[n], m)
  {
  }

  /** Every reachable state of every run is dominated. */
  lemma {:induction false} EpochDomination(cs: seq<Cluster>, es: seq<Event>, k: nat)
    requires Run(cs, es) && k < |cs|
    requires forall i | 0 <= i < |es| :: FreshNick(es[i], cs[i])
    ensures Dominated(cs[k]) && Named(cs[k]) && cs[k].nodes.Keys == cs[0].nodes.Keys
  {
    hide Next, Dominated, Named, FreshNick, Init;
    if k == 0 {
      InitDominated(cs[0]);
    } else {
      EpochDomination(cs, es, k - 1);
      StepKeeps(cs[k - 1], cs[k], es[k - 1]);
    }
  }

  lemma InitDominated(c: Cluster)
    requires Init(c)
    ensures Dominated(c) && Named(c)
  {
  }

  /** A node's currentEpoch never falls along a run. */
  lemma {:induction false} CurrentEpochMonotone(cs: seq<Cluster>, es: seq<Event>, i: nat, k: nat, n: Id)
    requires Run(cs, es) && i <= k < |cs| && n in cs[0].nodes
    requires forall j | 0 <= j < |es| :: FreshNick(es[j], cs[j])
    ensures n in cs[i].nodes && n in cs[k].nodes && cs[i].nodes[n].currentEpoch <= cs[k].nodes[n].currentEpoch
    decreases k
  {
    hide Next, Dominated, Named, FreshNick, Init;
    EpochDomination(cs, es, i);
    EpochDomination(cs, es, k);
    if i < k {
      CurrentEpochMonotone(cs, es, i, k - 1, n);
      EpochDomination(cs, es, k - 1);
      StepKeeps(cs[k - 1], cs[k], es[k - 1]);
    }
  }
}
