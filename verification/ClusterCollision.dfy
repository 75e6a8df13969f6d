/** Collision resolution among a fixed set of masters that gossip: it stops, and where it
    has stopped the config epochs are pairwise distinct. */
module ClusterCollision {
  import opened ClusterModel
  import ClusterEpochs

  function Own(c: Cluster, n: Id): nat { if n in c.nodes then c.nodes[n].view.EpochOf(n) else 0 }

  /** All nodes are live masters, each knows all of them as masters, and nobody else. */
  predicate MasterNode(s: NodeState, n: Id, all: set<Id>) {
    && s.self == n && s.alive && s.view.nodes.Keys == all && n in all
    && forall k | k in all :: s.view.nodes[k].role == Master && s.view.nodes[k].slaveof == None && !s.view.nodes[k].handshake
  }

  predicate AllMasters(c: Cluster, all: set<Id>) {
    c.nodes.Keys == all && forall n | n in all :: MasterNode(c.nodes[n], n, all)
  }

  predicate GossipMsg(m: Msg) {
    (m.kind.Ping? || m.kind.Pong? || m.kind.Meet? || m.kind.Update?) && m.slaveof == None && m.src != m.dst
  }

  /** A packet is received, a heartbeat is sent, or a packet is lost. */
  predicate GossipEvent(e: Event) { e.Act? ==> e.a.Receive? || e.a.Heartbeat? }

  /** No view is ahead of the node it is about. */
  predicate Behind(s: NodeState, c: Cluster) {
    forall k | k in s.view.nodes :: s.view.nodes[k].configEpoch <= Own(c, k)
  }

  predicate Started(c: Cluster, all: set<Id>) {
    AllMasters(c, all) && c.net == {} &&
    forall n | n in all :: ClusterEpochs.Dominates(c.nodes[n]) && Behind(c.nodes[n], c)
  }

  /** Any asynchronous run over the masters `all` in which only packets change epochs and
      in which no node is demoted. */
  predicate GossipRun(cs: seq<Cluster>, es: seq<Event>, all: set<Id>) {
    && |cs| == |es| + 1 && Started(cs[0], all)
    && (forall i | 0 <= i < |cs| :: AllMasters(cs[i], all))
    && (forall i | 0 <= i < |es| :: GossipEvent(es[i]) && Next(cs[i], cs[i + 1], es[i]))
  }

  // ------------------------------------------------------- one packet

  /** Node `s` moved: it held the epoch that a greater master reported. */
  predicate Moved(s: NodeState, s': NodeState, m: Msg) {
    && !m.kind.Update? && s.self < m.src && m.configEpoch == s.view.EpochOf(s.self)
    && s'.view.EpochOf(s.self) == s'.currentEpoch && s'.currentEpoch > s.currentEpoch
  }

  /** What a packet may do to the epochs in a view. */
  predicate Learned(s: NodeState, s': NodeState, m: Msg) {
    forall k | k in s'.view.nodes && k != s.self :: k in s.view.nodes &&
      (s'.view.nodes[k].configEpoch == s.view.nodes[k].configEpoch
       || (k == m.src && s'.view.nodes[k].configEpoch == m.configEpoch)
       || (m.kind.Update? && k == m.kind.about && s'.view.nodes[k].configEpoch == m.kind.epoch))
  }

  /** The part of ProcessPing before the collision test leaves epochs alone. */
  lemma BeforeCollision(s: NodeState, m: Msg, all: set<Id>)
    requires MasterNode(s, s.self, all) && m.src in all && m.slaveof == None
    ensures LearnRole(s.view, m) == s.view
    ensures ClusterEpochs.OnlySlots(s, LearnSlots(s, m))
  {
    ClusterEpochs.LearnSlotsOnlySlots(s, m);
  }

  lemma PingEpochs(s: NodeState, m: Msg, all: set<Id>)
    requires MasterNode(s, s.self, all) && m.src in all && m.slaveof == None && m.src != s.self
    requires ClusterEpochs.Dominates(s)
    ensures var s' := ProcessPing(s, m).0;
            && (forall k | k in all && k != s.self :: k in s'.view.nodes &&
                  s'.view.nodes[k].configEpoch == s.view.nodes[k].configEpoch)
            && s'.view.nodes.Keys == all && s'.currentEpoch >= s.currentEpoch && s'.self == s.self
            && (s'.view.EpochOf(s.self) == s.view.EpochOf(s.self) ||
                (s.self < m.src && m.configEpoch == s.view.EpochOf(s.self) &&
                 s'.view.EpochOf(s.self) == s'.currentEpoch == s.currentEpoch + 1))
  {
    hide LearnSlots, LearnRole, TellSender, DirtySlots;
    BeforeCollision(s, m, all);
    assert s.(view := s.view) == s;
    var s2 := LearnSlots(s, m);
    assert !s2.view.nodes[m.src].handshake;
  }

  lemma UpdateEpochs(s: NodeState, m: Msg)
    requires m.kind.Update? && (m.kind.about == s.self ==> m.kind.epoch <= s.view.EpochOf(s.self))
    ensures Learned(s, ProcessUpdate(s, m), m)
    ensures ProcessUpdate(s, m).view.EpochOf(s.self) == s.view.EpochOf(s.self)
    ensures ProcessUpdate(s, m).currentEpoch == s.currentEpoch
  {
    hide UpdateSlots;
    if m.kind.about in s.view.nodes {
      var s1 := s.(view := Promote(s.view, m.kind.about, m.kind.epoch));
      ClusterEpochs.UpdateSlotsOnlySlots(s1, m.kind.about, m.kind.epoch, m.kind.aboutSlots);
      assert s1.view.nodes.Keys == s.view.nodes.Keys;
      assert forall k | k in s.view.nodes && k != m.kind.about :: s1.view.nodes[k] == s.view.nodes[k];
    }
  }

  lemma ReceiveEpochs(s: NodeState, m: Msg, env: Env, all: set<Id>)
    requires MasterNode(s, s.self, all) && m.src in all && GossipMsg(m) && m.dst == s.self
    requires ClusterEpochs.Dominates(s) && ClusterEpochs.Honest(m)
    requires m.kind.Update? && m.kind.about == s.self ==> m.kind.epoch <= s.view.EpochOf(s.self)
    ensures var s' := ProcessPacket(s, m, env).0;
            Learned(s, s', m) &&
            (s'.view.EpochOf(s.self) == s.view.EpochOf(s.self) || Moved(s, s', m))
  {
    hide ProcessPing, ProcessUpdate;
    var s1 := LearnHeader(s, m);
    assert MasterNode(s1, s1.self, all);
    ClusterEpochs.LearnHeaderKeeps(s, m);
    PingEpochs(s1, m, all);
    if m.kind.Update? { UpdateEpochs(s1, m); }
  }

  /** What a node sends on receiving a packet: its own epoch, and in an UPDATE one that is
      no newer than what it knows after the header. */
  predicate Sent(s: NodeState, x: Msg) {
    && GossipMsg(x) && x.src == s.self && x.configEpoch == s.view.EpochOf(s.self)
    && (x.kind.Update? ==> x.kind.epoch == s.view.EpochOf(x.kind.about))
  }

  lemma TellSent(s: NodeState, m: Msg, dirty: bool, all: set<Id>)
    requires MasterNode(s, s.self, all) && m.src != s.self
    ensures forall x | x in TellSender(s, m, dirty) :: Sent(s, x)
  {
  }

  lemma PingSent(s: NodeState, m: Msg, all: set<Id>)
    requires MasterNode(s, s.self, all) && m.src in all && m.src != s.self && m.slaveof == None
    requires MasterNode(ProcessPing(s, m).0, s.self, all)
    ensures forall x | x in ProcessPing(s, m).1 :: Sent(s, x)
  {
    hide TellSender, DirtySlots, LearnSlots, LearnRole;
    BeforeCollision(s, m, all);
    assert s.(view := s.view) == s;
    var s2 := LearnSlots(s, m);
    assert forall k | k in s2.view.nodes && s2.alive :: ProcessPing(s, m).0.view.nodes[k].role == s2.view.nodes[k].role;
    assert MasterNode(s2, s.self, all);
    TellSent(s2, m, DirtySlots(s.view, m), all);
  }

  lemma ReceiveSent(s: NodeState, m: Msg, env: Env, all: set<Id>)
    requires MasterNode(s, s.self, all) && m.src in all && GossipMsg(m) && m.dst == s.self
    requires MasterNode(ProcessPacket(s, m, env).0, s.self, all)
    ensures forall x | x in ProcessPacket(s, m, env).1 :: Sent(LearnHeader(s, m), x)
  {
    hide ProcessPing, ProcessUpdate;
    var s1 := LearnHeader(s, m);
    assert MasterNode(s1, s1.self, all);
    if !m.kind.Update? { PingSent(s1, m, all); }
  }

  // ------------------------------------------------------- the epochs a node has held

  /** The config epochs of `n` in states 0 to k. */
  function Held(cs: seq<Cluster>, n: Id, k: nat): set<nat>
    requires k < |cs|
  {
    (if k == 0 then {} else Held(cs, n, k - 1)) + {Own(cs[k], n)}
  }

  /** How often `n` changed its config epoch up to state k. */
  function Moves(cs: seq<Cluster>, n: Id, k: nat): nat
    requires k < |cs|
  {
    if k == 0 then 0
    else Moves(cs, n, k - 1) + (if Own(cs[k], n) != Own(cs[k - 1], n) then 1 else 0)
  }

  predicate Reported(cs: seq<Cluster>, k: nat, m: Msg, all: set<Id>)
    requires k < |cs|
  {
    && GossipMsg(m) && ClusterEpochs.Honest(m) && m.src in all && m.configEpoch in Held(cs, m.src, k)
    && (m.kind.Update? ==> m.kind.epoch <= Own(cs[k], m.kind.about))
  }

  /** A greater master than `n` has held the epoch `v`. */
  predicate HeldAbove(cs: seq<Cluster>, n: Id, v: nat, k: nat, all: set<Id>)
    requires k < |cs|
  {
    exists m :: m in all && n < m && v in Held(cs, m, k)
  }

  /** Every epoch `n` has left was held by a greater master. */
  predicate Inherited(cs: seq<Cluster>, n: Id, k: nat, all: set<Id>)
    requires k < |cs|
  {
    && Moves(cs, n, k) + 1 == |Held(cs, n, k)|
    && forall v | v in Held(cs, n, k) ::
         v <= Own(cs[k], n) && (v == Own(cs[k], n) || HeldAbove(cs, n, v, k, all))
  }

  predicate GossipInv(cs: seq<Cluster>, k: nat, all: set<Id>)
    requires k < |cs|
  {
    && (forall n | n in all :: n in cs[k].nodes && ClusterEpochs.Dominates(cs[k].nodes[n]) && Behind(cs[k].nodes[n], cs[k]))
    && AllReported(cs, k, all) && AllInherited(cs, k, all)
  }

  predicate AllReported(cs: seq<Cluster>, k: nat, all: set<Id>)
    requires k < |cs|
  {
    forall m | m in cs[k].net :: Reported(cs, k, m, all)
  }

  predicate AllInherited(cs: seq<Cluster>, k: nat, all: set<Id>)
    requires k < |cs|
  {
    forall n | n in all :: Inherited(cs, n, k, all)
  }

  // ------------------------------------------------------- one step of a run

  /** No epoch of `c` is ahead of the one in `c'`. */
  ghost predicate Forward(c: Cluster, c': Cluster) {
    forall x {:trigger Own(c', x)} :: Own(c, x) <= Own(c', x)
  }

  /** The acting node moves on a report of a greater master or keeps its epoch; what it
      knows and what it sends is behind the nodes it is about. */
  ghost predicate Acts(cs: seq<Cluster>, k: nat, n: Id, out: set<Msg>, all: set<Id>)
    requires k + 1 < |cs|
  {
    var c, c' := cs[k], cs[k + 1];
    && n in all && n in c'.nodes && c'.nodes.Keys == c.nodes.Keys
    && (forall x | x in c.nodes && x != n :: c'.nodes[x] == c.nodes[x])
    && ClusterEpochs.Dominates(c'.nodes[n])
    && Own(c, n) <= Own(c', n)
    && (Own(c', n) == Own(c, n) || HeldAbove(cs, n, Own(c, n), k, all))
    && Behind(c'.nodes[n], c')
    && (forall x | x in out :: Reported(cs, k, x, all))
    && c'.net <= c.net + out
  }

  /** The header teaches nothing that is ahead of its sender. */
  lemma HeaderBehind(c: Cluster, s: NodeState, m: Msg, all: set<Id>)
    requires MasterNode(s, s.self, all) && Behind(s, c) && m.configEpoch <= Own(c, m.src)
    ensures forall x :: LearnHeader(s, m).view.EpochOf(x) <= Own(c, x)
    ensures m.src != s.self ==> LearnHeader(s, m).view.EpochOf(s.self) == s.view.EpochOf(s.self)
    ensures LearnHeader(s, m).self == s.self
  {
  }

  lemma SentReported(cs: seq<Cluster>, k: nat, n: Id, s1: NodeState, x: Msg, all: set<Id>)
    requires k < |cs| && n in all && Sent(s1, x) && s1.self == n && ClusterEpochs.Honest(x)
    requires s1.view.EpochOf(n) == Own(cs[k], n)
    requires forall y :: s1.view.EpochOf(y) <= Own(cs[k], y)
    ensures Reported(cs, k, x, all)
  {
    assert Own(cs[k], n) in Held(cs, n, k);
  }

  lemma LearnedBehind(c: Cluster, c': Cluster, n: Id, s: NodeState, m: Msg)
    requires Behind(s, c) && n in c'.nodes && s.self == n == c'.nodes[n].self
    requires Learned(s, c'.nodes[n], m) && m.configEpoch <= Own(c, m.src)
    requires m.kind.Update? ==> m.kind.epoch <= Own(c, m.kind.about)
    requires Forward(c, c')
    ensures Behind(c'.nodes[n], c')
  {
    forall k | k in c'.nodes[n].view.nodes ensures c'.nodes[n].view.nodes[k].configEpoch <= Own(c', k) {
      assert Own(c, k) <= Own(c', k);
    }
  }

  lemma OthersForward(c: Cluster, c': Cluster, n: Id)
    requires c'.nodes.Keys == c.nodes.Keys && Own(c, n) <= Own(c', n)
    requires forall x | x in c.nodes && x != n :: c'.nodes[x] == c.nodes[x]
    ensures Forward(c, c')
    ensures forall x {:trigger Own(c', x)} :: x != n ==> Own(c', x) == Own(c, x)
  {
  }

  /** The facts about the acting node that the step lemmas start from. */
  lemma ActingNode(cs: seq<Cluster>, k: nat, n: Id, all: set<Id>)
    requires k + 1 < |cs| && AllMasters(cs[k], all) && AllMasters(cs[k + 1], all) && GossipInv(cs, k, all)
    requires n in cs[k].nodes
    ensures n in all && n in cs[k + 1].nodes && cs[k + 1].nodes.Keys == cs[k].nodes.Keys
    ensures cs[k].nodes[n].self == cs[k + 1].nodes[n].self == n
    ensures MasterNode(cs[k].nodes[n], n, all) && MasterNode(cs[k + 1].nodes[n], n, all)
    ensures ClusterEpochs.Dominates(cs[k].nodes[n]) && Behind(cs[k].nodes[n], cs[k])
    ensures cs[k].nodes[n].view.EpochOf(n) == Own(cs[k], n)
  {
    hide ClusterEpochs.Dominates, Behind, AllReported, AllInherited;
  }

  lemma StepFacts(c: Cluster, c': Cluster, n: Id, a: Action, again: bool)
    requires NodeStep(c, c', n, a, again)
    ensures n in c.nodes && n in c'.nodes && c'.nodes[n] == Local(c.nodes[n], a).0
    ensures forall x | x in c.nodes && x != n :: c'.nodes[x] == c.nodes[x]
    ensures c'.net <= c.net + Local(c.nodes[n], a).1
    ensures a.Receive? ==> a.m.dst == n && a.m in c.net
  {
    hide Local;
  }

  lemma ReportFacts(cs: seq<Cluster>, k: nat, m: Msg, all: set<Id>)
    requires k < |cs| && GossipInv(cs, k, all) && m in cs[k].net
    ensures Reported(cs, k, m, all) && m.src in all && GossipMsg(m) && m.src != m.dst
    ensures ClusterEpochs.Honest(m) && m.configEpoch <= Own(cs[k], m.src)
    ensures m.kind.Update? ==> m.kind.epoch <= Own(cs[k], m.kind.about)
  {
    hide Own, ClusterEpochs.Dominates, ClusterEpochs.Honest, Behind, Held, Moves, HeldAbove;
    assert Reported(cs, k, m, all) && Inherited(cs, m.src, k, all);
  }

  lemma ReceiveActs(cs: seq<Cluster>, k: nat, n: Id, m: Msg, env: Env, again: bool, all: set<Id>)
    requires k + 1 < |cs| && AllMasters(cs[k], all) && AllMasters(cs[k + 1], all) && GossipInv(cs, k, all)
    requires NodeStep(cs[k], cs[k + 1], n, Receive(m, env), again)
    ensures Acts(cs, k, n, ProcessPacket(cs[k].nodes[n], m, env).1, all)
  {
    hide Local, ProcessPacket, ClusterEpochs.Dominates, ClusterEpochs.Honest, LearnHeader, Learned, Held, Behind,
         HeldAbove, Forward, Sent, MasterNode, AllMasters, GossipInv, GossipMsg, NodeStep, Reported;
    StepFacts(cs[k], cs[k + 1], n, Receive(m, env), again);
    ActingNode(cs, k, n, all);
    ReportFacts(cs, k, m, all);
    var s, s' := cs[k].nodes[n], cs[k + 1].nodes[n];
    LocalCases(s, Receive(m, env));
    ReceiveEpochs(s, m, env, all);
    ReceiveSent(s, m, env, all);
    NoBreak(s, m, all);
    ClusterEpochs.ReceiveKeepsIff(s, m, env);
    HeaderBehind(cs[k], s, m, all);
    OwnIsView(cs[k + 1], n, s');
    if Moved(s, s', m) { MovedAbove(cs, k, n, m, all); DominatesOwn(s, n); }
    OthersForward(cs[k], cs[k + 1], n);
    LearnedBehind(cs[k], cs[k + 1], n, s, m);
    forall x | x in ProcessPacket(s, m, env).1 ensures Reported(cs, k, x, all) {
      SentReported(cs, k, n, LearnHeader(s, m), x, all);
    }
  }

  lemma OwnIsView(c: Cluster, n: Id, s: NodeState)
    requires n in c.nodes && c.nodes[n] == s
    ensures Own(c, n) == s.view.EpochOf(n)
  {
  }

  lemma DominatesOwn(s: NodeState, n: Id)
    requires ClusterEpochs.Dominates(s)
    ensures s.view.EpochOf(n) <= s.currentEpoch
  {
  }

  lemma LocalCases(s: NodeState, a: Action)
    ensures a.Receive? ==> Local(s, a) == ProcessPacket(s, a.m, a.env)
    ensures a.Heartbeat? ==>
              Local(s, a) == (s, if a.dst in s.view.nodes && a.dst != s.self
                                 then {Header(s, if a.ping then Ping else Pong, a.dst)} else {})
  {
  }

  lemma NoBreak(s: NodeState, m: Msg, all: set<Id>)
    requires MasterNode(s, s.self, all)
    ensures !ClusterEpochs.Breaks(s, m)
  {
  }

  lemma MovedAbove(cs: seq<Cluster>, k: nat, n: Id, m: Msg, all: set<Id>)
    requires k < |cs| && m.src in all && n < m.src && Reported(cs, k, m, all)
    ensures HeldAbove(cs, n, m.configEpoch, k, all)
  {
  }

  lemma HeartbeatActs(cs: seq<Cluster>, k: nat, n: Id, dst: Id, ping: bool, again: bool, all: set<Id>)
    requires k + 1 < |cs| && AllMasters(cs[k], all) && AllMasters(cs[k + 1], all) && GossipInv(cs, k, all)
    requires NodeStep(cs[k], cs[k + 1], n, Heartbeat(dst, ping), again)
    ensures Acts(cs, k, n, Local(cs[k].nodes[n], Heartbeat(dst, ping)).1, all)
  {
    hide Local, HeldAbove, ClusterEpochs.Dominates, Behind, MasterNode, AllMasters, GossipInv, NodeStep, Reported,
         Header, Forward;
    StepFacts(cs[k], cs[k + 1], n, Heartbeat(dst, ping), again);
    ActingNode(cs, k, n, all);
    var s := cs[k].nodes[n];
    LocalCases(s, Heartbeat(dst, ping));
    OthersForward(cs[k], cs[k + 1], n);
    BehindKeeps(cs[k], cs[k + 1], s);
    if dst in s.view.nodes && dst != n { HeartbeatSent(cs, k, s, if ping then Ping else Pong, dst, all); }
  }

  lemma HeartbeatSent(cs: seq<Cluster>, k: nat, s: NodeState, kind: Kind, dst: Id, all: set<Id>)
    requires k < |cs| && s.self in cs[k].nodes && cs[k].nodes[s.self] == s && MasterNode(s, s.self, all)
    requires ClusterEpochs.Dominates(s) && Behind(s, cs[k]) && (kind.Ping? || kind.Pong?) && dst != s.self
    ensures Reported(cs, k, Header(s, kind, dst), all)
  {
    hide Held, ClusterEpochs.Dominates, ClusterEpochs.Honest;
    ClusterEpochs.HeaderHonest(s, kind, dst);
    SentReported(cs, k, s.self, s, Header(s, kind, dst), all);
  }

  // ------------------------------------------------------- what nodes have held, one step on

  lemma HeldAboveKeeps(cs: seq<Cluster>, n: Id, v: nat, k: nat, all: set<Id>)
    requires k + 1 < |cs| && HeldAbove(cs, n, v, k, all)
    ensures HeldAbove(cs, n, v, k + 1, all)
  {
    var m :| m in all && n < m && v in Held(cs, m, k);
    assert v in Held(cs, m, k + 1);
  }

  lemma HeldSame(cs: seq<Cluster>, x: Id, k: nat, all: set<Id>)
    requires k + 1 < |cs| && Inherited(cs, x, k, all) && Own(cs[k + 1], x) == Own(cs[k], x)
    ensures Inherited(cs, x, k + 1, all)
  {
    hide Own;
    assert Held(cs, x, k + 1) == Held(cs, x, k) by { assert Own(cs[k], x) in Held(cs, x, k); }
    assert Moves(cs, x, k + 1) == Moves(cs, x, k);
    forall v | v in Held(cs, x, k) && v != Own(cs[k], x) ensures HeldAbove(cs, x, v, k + 1, all) {
      HeldAboveKeeps(cs, x, v, k, all);
    }
  }

  lemma HeldMore(cs: seq<Cluster>, n: Id, k: nat, all: set<Id>)
    requires k + 1 < |cs| && Inherited(cs, n, k, all)
    requires Own(cs[k], n) < Own(cs[k + 1], n) && HeldAbove(cs, n, Own(cs[k], n), k, all)
    ensures Inherited(cs, n, k + 1, all)
  {
    hide Own;
    var e' := Own(cs[k + 1], n);
    assert Held(cs, n, k + 1) == Held(cs, n, k) + {e'} && e' !in Held(cs, n, k);
    assert Moves(cs, n, k + 1) == Moves(cs, n, k) + 1;
    forall v | v in Held(cs, n, k) ensures HeldAbove(cs, n, v, k + 1, all) {
      HeldAboveKeeps(cs, n, v, k, all);
    }
  }

  lemma ReportedKeeps(cs: seq<Cluster>, k: nat, m: Msg, all: set<Id>)
    requires k + 1 < |cs| && Reported(cs, k, m, all) && Forward(cs[k], cs[k + 1])
    ensures Reported(cs, k + 1, m, all)
  {
    if m.kind.Update? { assert Own(cs[k], m.kind.about) <= Own(cs[k + 1], m.kind.about); }
    assert m.configEpoch in Held(cs, m.src, k + 1);
  }

  lemma BehindKeeps(c: Cluster, c': Cluster, s: NodeState)
    requires Behind(s, c) && Forward(c, c')
    ensures Behind(s, c')
  {
    forall k | k in s.view.nodes ensures s.view.nodes[k].configEpoch <= Own(c', k) {
      assert Own(c, k) <= Own(c', k);
    }
  }

  lemma ActsKeeps(cs: seq<Cluster>, k: nat, n: Id, out: set<Msg>, all: set<Id>)
    requires k + 1 < |cs| && Acts(cs, k, n, out, all) && GossipInv(cs, k, all)
    ensures GossipInv(cs, k + 1, all)
  {
    hide Inherited, ClusterEpochs.Dominates, Reported, Behind, HeldAbove, Own, Forward;
    var k1 := k + 1;
    OthersForward(cs[k], cs[k1], n);
    forall x | x in all ensures Inherited(cs, x, k1, all) {
      if Own(cs[k1], x) == Own(cs[k], x) { HeldSame(cs, x, k, all); } else { HeldMore(cs, n, k, all); }
    }
    forall m | m in cs[k1].net ensures Reported(cs, k1, m, all) { ReportedKeeps(cs, k, m, all); }
    forall x | x in all && x != n ensures Behind(cs[k1].nodes[x], cs[k1]) {
      BehindKeeps(cs[k], cs[k1], cs[k].nodes[x]);
    }
  }

  lemma LossKeeps(cs: seq<Cluster>, k: nat, all: set<Id>)
    requires k + 1 < |cs| && GossipInv(cs, k, all)
    requires cs[k + 1].nodes == cs[k].nodes && cs[k + 1].net <= cs[k].net
    ensures GossipInv(cs, k + 1, all)
  {
    hide Inherited, ClusterEpochs.Dominates, Reported, Behind, HeldAbove;
    var k1 := k + 1;
    forall x | x in all ensures Inherited(cs, x, k1, all) { HeldSame(cs, x, k, all); }
    forall m | m in cs[k1].net ensures Reported(cs, k1, m, all) { ReportedKeeps(cs, k, m, all); }
    forall x | x in all ensures Behind(cs[k1].nodes[x], cs[k1]) {
      BehindKeeps(cs[k], cs[k1], cs[k].nodes[x]);
    }
  }

  lemma StartedInv(cs: seq<Cluster>, all: set<Id>)
    requires |cs| > 0 && Started(cs[0], all)
    ensures GossipInv(cs, 0, all)
  {
    hide ClusterEpochs.Dominates, Behind, MasterNode, Own;
  }

  lemma StepKeeps(cs: seq<Cluster>, k: nat, e: Event, all: set<Id>)
    requires k + 1 < |cs| && GossipInv(cs, k, all) && AllMasters(cs[k], all) && AllMasters(cs[k + 1], all)
    requires GossipEvent(e) && Next(cs[k], cs[k + 1], e)
    ensures GossipInv(cs, k + 1, all)
  {
    hide Local, Acts, AllMasters, GossipInv;
    match e
    case Act(n, Receive(m, env), again) =>
      ReceiveActs(cs, k, n, m, env, again, all);
      ActsKeeps(cs, k, n, ProcessPacket(cs[k].nodes[n], m, env).1, all);
    case Act(n, Heartbeat(dst, ping), again) =>
      HeartbeatActs(cs, k, n, dst, ping, again, all);
      ActsKeeps(cs, k, n, Local(cs[k].nodes[n], Heartbeat(dst, ping)).1, all);
    case Lose(m) => LossKeeps(cs, k, all);
  }

  lemma {:induction false} GossipKeeps(cs: seq<Cluster>, es: seq<Event>, all: set<Id>, k: nat)
    requires GossipRun(cs, es, all) && k < |cs|
    ensures GossipInv(cs, k, all)
  {
    hide GossipInv, Next, AllMasters, Started;
    if k == 0 {
      StartedInv(cs, all);
    } else {
      GossipKeeps(cs, es, all, k - 1);
      StepKeeps(cs, k - 1, es[k - 1], all);
    }
  }

  // ------------------------------------------------------- it stops

  /** The masters of `all` with an ID greater than `n`. */
  function Greater(all: set<Id>, n: Id): set<Id> { set m | m in all && n < m }

  /** All epochs that masters of `ms` have held. */
  function HeldBy(cs: seq<Cluster>, ms: set<Id>, k: nat): set<nat>
    requires k < |cs|
  {
    set m, v | m in ms && v in Held(cs, m, k) :: v
  }

  lemma Least(ms: set<Id>) returns (n: Id)
    requires ms != {}
    ensures n in ms && forall m | m in ms :: n <= m
  {
    var x :| x in ms;
    n := x;
    if ms != {x} {
      assert x !in ms - {x} && ms - {x} != {};
      n := Least(ms - {x});
      if x < n { n := x; }
      assert forall m | m in ms :: m == x || m in ms - {x};
    }
  }

  lemma SizeOfSubset(a: set<nat>, b: set<nat>)
    requires a <= b
    ensures |a| <= |b|
  {
    assert b == a + (b - a);
  }

  /** What a master has held: its epoch, and epochs that greater ones held. */
  lemma HeldByLeast(cs: seq<Cluster>, all: set<Id>, n: Id, k: nat)
    requires k < |cs| && Inherited(cs, n, k, all)
    ensures Held(cs, n, k) <= HeldBy(cs, Greater(all, n), k) + {Own(cs[k], n)}
  {
    forall v | v in Held(cs, n, k) ensures v in HeldBy(cs, Greater(all, n), k) + {Own(cs[k], n)} {
      if v != Own(cs[k], n) { assert HeldAbove(cs, n, v, k, all); }
    }
  }

  /** No epoch is new to the masters together: they have never held more epochs than they
      are. */
  lemma {:induction false} HeldByUpward(cs: seq<Cluster>, all: set<Id>, ms: set<Id>, k: nat)
    requires k < |cs| && AllInherited(cs, k, all)
    requires ms <= all && forall m, x | m in ms && x in all && m < x :: x in ms
    ensures |HeldBy(cs, ms, k)| <= |ms|
  {
    hide Inherited, Held;
    if ms == {} {
      assert HeldBy(cs, ms, k) == {};
    } else {
      var n := Least(ms);
      var rest := Greater(all, n);
      assert ms == rest + {n};
      HeldByUpward(cs, all, rest, k);
      HeldByLeast(cs, all, n, k);
      assert HeldBy(cs, ms, k) == HeldBy(cs, rest, k) + Held(cs, n, k);
      SizeOfSubset(HeldBy(cs, ms, k), HeldBy(cs, rest, k) + {Own(cs[k], n)});
    }
  }

  /** Collision resolution stops: a master with g greater masters changes its config
      epoch at most g times, in any asynchronous run. */
  lemma CollisionMovesBounded(cs: seq<Cluster>, es: seq<Event>, all: set<Id>, n: Id, k: nat)
    requires GossipRun(cs, es, all) && k < |cs| && n in all
    ensures Moves(cs, n, k) <= |Greater(all, n)|
  {
    hide Next, AllMasters, Started;
    GossipKeeps(cs, es, all, k);
    HeldByUpward(cs, all, Greater(all, n), k);
    assert Inherited(cs, n, k, all);
    HeldByLeast(cs, all, n, k);
    SizeOfSubset(Held(cs, n, k), HeldBy(cs, Greater(all, n), k) + {Own(cs[k], n)});
  }

  // ------------------------------------------------------- where it stops

  /** An up-to-date heartbeat of `m` makes `n` change its config epoch. */
  predicate Triggers(c: Cluster, m: Id, n: Id, env: Env)
    requires m in c.nodes && n in c.nodes
  {
    ProcessPacket(c.nodes[n], Header(c.nodes[m], Ping, n), env).0.view.EpochOf(n) != Own(c, n)
  }

  predicate Distinct(c: Cluster) {
    forall m, n | m in c.nodes && n in c.nodes && m != n :: Own(c, m) != Own(c, n)
  }

  /** A claim under an epoch that is not above this node's own takes no slot from it. */
  lemma EqualEpochKeepsSlots(s: NodeState, sender: Id, e: nat, slots: set<Slot>)
    requires s.view.IsMaster(s.self) && e <= s.view.EpochOf(s.self) && s.alive
    ensures UpdateSlots(s, sender, e, slots).view.nodes == s.view.nodes && UpdateSlots(s, sender, e, slots).alive
    ensures UpdateSlots(s, sender, e, slots).self == s.self
  {
    hide SetMaster;
  }

  lemma HeartbeatHeader(c: Cluster, all: set<Id>, m: Id, n: Id)
    requires AllMasters(c, all) && m in all && n in all && ClusterEpochs.Dominates(c.nodes[m])
    ensures m in c.nodes && n in c.nodes
    ensures var h := Header(c.nodes[m], Ping, n);
            && h.kind == Ping && h.src == m && h.dst == n && h.slaveof == None
            && h.configEpoch == Own(c, m) && ClusterEpochs.Honest(h)
    ensures MasterNode(c.nodes[n], n, all) && c.nodes[n].view.EpochOf(n) == Own(c, n)
  {
    hide ClusterEpochs.Dominates, ClusterEpochs.Honest;
    assert MasterNode(c.nodes[m], m, all);
    ClusterEpochs.HeaderHonest(c.nodes[m], Ping, n);
  }

  /** After the header, the sender's epoch is known exactly. */
  lemma AfterHeader(c: Cluster, all: set<Id>, s: NodeState, h: Msg)
    requires MasterNode(s, s.self, all) && Behind(s, c) && h.configEpoch == Own(c, h.src)
    requires h.src in all && h.src != s.self
    ensures var s1 := LearnHeader(s, h);
            && MasterNode(s1, s.self, all) && s1.self == s.self && s1.view.EpochOf(h.src) == Own(c, h.src)
            && s1.view.EpochOf(s.self) == s.view.EpochOf(s.self)
  {
  }

  /** A packet with this node's own epoch from a greater master makes it move. */
  lemma EqualEpochMoves(s: NodeState, h: Msg, all: set<Id>)
    requires MasterNode(s, s.self, all) && h.src in all && s.self < h.src && h.slaveof == None
    requires ClusterEpochs.Dominates(s)
    requires h.configEpoch == s.view.EpochOf(s.self) == s.view.EpochOf(h.src)
    ensures ProcessPing(s, h).0.view.EpochOf(s.self) == s.currentEpoch + 1
  {
    hide TellSender, UpdateSlots, DirtySlots, LearnRole;
    BeforeCollision(s, h, all);
    assert s.(view := s.view) == s;
    EqualEpochKeepsSlots(s, h.src, h.configEpoch, h.slots);
    var s2 := LearnSlots(s, h);
    assert s2.view.nodes == s.view.nodes && s2.alive && s2.self == s.self;
    assert s2.currentEpoch == s.currentEpoch;
  }

  /** Exactly a greater master with the same epoch triggers a move. */
  lemma TriggersIffEqual(c: Cluster, all: set<Id>, m: Id, n: Id, env: Env)
    requires AllMasters(c, all) && m in all && n in all && m != n && Behind(c.nodes[n], c)
    requires ClusterEpochs.Dominates(c.nodes[n]) && ClusterEpochs.Dominates(c.nodes[m])
    ensures Triggers(c, m, n, env) <==> Own(c, m) == Own(c, n) && n < m
  {
    hide ProcessPing, LearnHeader, Header, Behind, ClusterEpochs.Dominates, ClusterEpochs.Honest, MasterNode,
         AllMasters, ClusterEpochs.Advances;
    HeartbeatHeader(c, all, m, n);
    var s, h := c.nodes[n], Header(c.nodes[m], Ping, n);
    MasterIsSelf(s, n, all);
    AfterHeader(c, all, s, h);
    var s1 := LearnHeader(s, h);
    ClusterEpochs.LearnHeaderKeeps(s, h);
    DominatesOwn(s1, n);
    PingEpochs(s1, h, all);
    if Own(c, m) == Own(c, n) && n < m { EqualEpochMoves(s1, h, all); }
  }

  lemma MasterIsSelf(s: NodeState, n: Id, all: set<Id>)
    requires MasterNode(s, n, all)
    ensures s.self == n
  {
  }

  /** In every reachable state: no up-to-date heartbeat triggers a move exactly when the
      config epochs are pairwise distinct. */
  lemma QuiescentIffDistinct(cs: seq<Cluster>, es: seq<Event>, all: set<Id>, k: nat, env: Env)
    requires GossipRun(cs, es, all) && k < |cs|
    ensures (forall m, n | m in cs[k].nodes && n in cs[k].nodes && m != n :: !Triggers(cs[k], m, n, env))
            <==> Distinct(cs[k])
  {
    hide Next, MasterNode, Started, Triggers, ClusterEpochs.Dominates, Behind, AllReported, AllInherited, Own;
    GossipKeeps(cs, es, all, k);
    var c := cs[k];
    forall m, n | m in c.nodes && n in c.nodes && m != n
      ensures Triggers(c, m, n, env) <==> Own(c, m) == Own(c, n) && n < m
    {
      TriggersIffEqual(c, all, m, n, env);
    }
    if m, n :| m in c.nodes && n in c.nodes && m != n && Own(c, m) == Own(c, n) {
      assert Triggers(c, m, n, env) || Triggers(c, n, m, env);
    }
  }

  // ------------------------------------------------------- the bound is reached

  /** The masters 0 to g. */
  function Ids(g: nat): (ids: set<Id>)
    ensures forall j: Id :: j in ids <==> j <= g
  {
    if g == 0 then {0} else Ids(g - 1) + {g}
  }

  /** Master `n` of 0 to g at epoch `e`; it has heard of the masters up to `heard`, where
      master j has epoch j - 1. */
  function Climber(g: nat, n: Id, e: nat, heard: nat): NodeState {
    NodeState(n, true, e, 0,
      View(map j | j in Ids(g) ::
             NodeInfo(Master, None, if j == n then e else if 1 <= j <= heard then j - 1 else 0, false, false, 0),
           map[], map[]),
      g + 1, Auth(0, 0, false, 0), false, false)
  }

  /** Master 0 has climbed to epoch `k`; master j is at epoch j - 1. */
  function Stairs(g: nat, k: nat): Cluster {
    Cluster(map n | n in Ids(g) :: if n == 0 then Climber(g, 0, k, k) else Climber(g, n, n - 1, 0), {})
  }

  function Report(k: nat): Msg { Msg(Pong, k + 1, 0, k, k, {}, None, false) }

  lemma ClimberReports(g: nat, k: nat)
    requires k < g
    ensures Header(Climber(g, k + 1, k, 0), Pong, 0) == Report(k)
  {
    assert Climber(g, k + 1, k, 0).view.Bits(k + 1) == {};
  }

  /** The report makes master 0 take the next step. */
  lemma ClimberClimbs(g: nat, k: nat, env: Env)
    requires k < g
    ensures ProcessPacket(Climber(g, 0, k, k), Report(k), env) == (Climber(g, 0, k + 1, k + 1), {})
  {
    var s, m := Climber(g, 0, k, k), Report(k);
    var s1 := LearnHeader(s, m);
    assert s1.view.Bits(k + 1) == {};
    assert LearnRole(s1.view, m) == s1.view;
    assert s1.(view := s1.view) == s1;
    assert Climber(g, 0, k + 1, k + 1).view.nodes == SetConfigEpochOf(s1.view, 0, k + 1).nodes;
  }

  lemma StairsAreMasters(g: nat, k: nat)
    ensures AllMasters(Stairs(g, k), Ids(g)) && AllMasters(Stairs(g, k).(net := {Report(k)}), Ids(g))
    ensures k == 0 ==> Started(Stairs(g, k), Ids(g))
    ensures Own(Stairs(g, k), 0) == k
  {
    hide ClusterEpochs.Dominates, Ids, Climber, MasterNode, Behind, Own;
    var c := Stairs(g, k);
    forall n | n in Ids(g)
      ensures MasterNode(c.nodes[n], n, Ids(g))
      ensures k == 0 ==> ClusterEpochs.Dominates(c.nodes[n]) && Behind(c.nodes[n], c)
    {
      var e, heard := if n == 0 then k else n - 1, if n == 0 then k else 0;
      ClimberIsMaster(g, n, e, heard);
      if k == 0 { ClimberStarts(g, n, e, c); }
    }
    ClimberIsMaster(g, 0, k, k);
    OwnIsView(c, 0, Climber(g, 0, k, k));
  }

  lemma ClimberIsMaster(g: nat, n: Id, e: nat, heard: nat)
    requires n in Ids(g)
    ensures MasterNode(Climber(g, n, e, heard), n, Ids(g)) && Climber(g, n, e, heard).view.EpochOf(n) == e
  {
    hide Ids;
  }

  lemma ClimberStarts(g: nat, n: Id, e: nat, c: Cluster)
    requires n in Ids(g) && n in c.nodes && c.nodes[n] == Climber(g, n, e, 0)
    ensures ClusterEpochs.Dominates(c.nodes[n]) && Behind(c.nodes[n], c)
  {
    hide Ids;
  }

  lemma ReportSent(g: nat, k: nat)
    requires k < g
    ensures Next(Stairs(g, k), Stairs(g, k).(net := {Report(k)}), Act(k + 1, Heartbeat(0, false), false))
  {
    hide Header, Climber;
    var c := Stairs(g, k);
    ClimberReports(g, k);
    assert 0 in Climber(g, k + 1, k, 0).view.nodes && Climber(g, k + 1, k, 0).self == k + 1
           && Climber(g, k + 1, k, 0).alive by { ClimberKnows(g, k + 1, k, 0); }
    assert c.nodes == c.nodes[k + 1 := Climber(g, k + 1, k, 0)];
  }

  lemma ClimberKnows(g: nat, n: Id, e: nat, heard: nat)
    ensures var s := Climber(g, n, e, heard); s.self == n && s.alive && 0 in s.view.nodes
  {
  }

  lemma ReportReceived(g: nat, k: nat, env: Env)
    requires k < g
    ensures Next(Stairs(g, k).(net := {Report(k)}), Stairs(g, k + 1), Act(0, Receive(Report(k), env), false))
  {
    hide ProcessPacket, Climber;
    ClimberKnows(g, 0, k, k);
    ClimberClimbs(g, k, env);
    assert Stairs(g, k + 1).nodes == Stairs(g, k).nodes[0 := Climber(g, 0, k + 1, k + 1)];
  }

  lemma {:induction false} MovesOfPrefix(cs: seq<Cluster>, more: seq<Cluster>, n: Id, k: nat)
    requires k < |cs|
    ensures Moves(cs + more, n, k) == Moves(cs, n, k)
  {
    if k > 0 { MovesOfPrefix(cs, more, n, k - 1); }
  }

  lemma GossipOn(cs: seq<Cluster>, es: seq<Event>, all: set<Id>, c: Cluster, e: Event, n: Id)
    requires GossipRun(cs, es, all) && AllMasters(c, all) && GossipEvent(e) && Next(cs[|es|], c, e)
    ensures GossipRun(cs + [c], es + [e], all)
    ensures Moves(cs + [c], n, |cs|) == Moves(cs, n, |es|) + (if Own(c, n) != Own(cs[|es|], n) then 1 else 0)
  {
    hide Next, AllMasters, Started, Own;
    MovesOfPrefix(cs, [c], n, |es|);
  }

  lemma {:induction false} Climbs(g: nat, k: nat, env: Env) returns (cs: seq<Cluster>, es: seq<Event>)
    requires k <= g
    ensures GossipRun(cs, es, Ids(g)) && cs[|es|] == Stairs(g, k) && Moves(cs, 0, |es|) == k
  {
    hide Next, Stairs, Started, AllMasters, Own, Ids;
    StairsAreMasters(g, k);
    if k == 0 {
      cs, es := [Stairs(g, 0)], [];
    } else {
      cs, es := Climbs(g, k - 1, env);
      StairsAreMasters(g, k - 1);
      ReportSent(g, k - 1);
      ReportReceived(g, k - 1, env);
      var c := Stairs(g, k - 1).(net := {Report(k - 1)});
      var send, hear := Act(k, Heartbeat(0, false), false), Act(0, Receive(Report(k - 1), env), false);
      GossipOn(cs, es, Ids(g), c, send, 0);
      assert Own(c, 0) == Own(Stairs(g, k - 1), 0) by { SameOwn(c, Stairs(g, k - 1), 0); }
      GossipOn(cs + [c], es + [send], Ids(g), Stairs(g, k), hear, 0);
      cs, es := cs + [c] + [Stairs(g, k)], es + [send] + [hear];
    }
  }

  lemma SameOwn(c: Cluster, c': Cluster, n: Id)
    requires c.nodes == c'.nodes
    ensures Own(c, n) == Own(c', n)
  {
  }

  lemma {:induction false} CountGreater(g: nat)
    ensures |Greater(Ids(g), 0)| == g
  {
    hide Ids;
    if g == 0 {
      assert Greater(Ids(0), 0) == {};
    } else {
      CountGreater(g - 1);
      assert Greater(Ids(g), 0) == Greater(Ids(g - 1), 0) + {g};
    }
  }

  /** The bound is attained for every g: the least of g + 1 masters whose epochs form a
      staircase moves g times. */
  lemma BoundReached(g: nat, env: Env) returns (cs: seq<Cluster>, es: seq<Event>)
    ensures GossipRun(cs, es, Ids(g)) && |Greater(Ids(g), 0)| == g && Moves(cs, 0, |es|) == g
  {
    hide GossipRun, Stairs;
    cs, es := Climbs(g, g, env);
    assert GossipRun(cs, es, Ids(g));
    CountGreater(g);
  }
}
