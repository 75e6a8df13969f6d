/** A run of a cluster from its start in which two slaves of one master win an election of
    the same epoch: one on a vote, the other on an acknowledgement of an attempt that it
    had given up. The hypotheses of ClusterElection.NoTwoWinners can all be met, and the one
    about late acknowledgements cannot be dropped. */
module ClusterElectionRun {
  import opened ClusterModel
  import opened ClusterElection
  import ClusterEpochs

  // ------------------------------------------------------- building a run

  datatype Track = Track(cs: seq<Cluster>, es: seq<Event>) {
    ghost predicate Good() {
      && Run(cs, es)
      && forall i | 0 <= i < |es| :: ClusterEpochs.FreshNick(es[i], cs[i]) && Agrees({1}, 2, cs[i], es[i])
    }

    ghost function Last(): Cluster
      requires |cs| == |es| + 1
    {
      cs[|cs| - 1]
    }

    ghost function Hist(): ClusterElection.Hist
      requires |cs| == |es| + 1
    {
      History(cs, es, |es|)
    }
  }

  type Tape = t: Track | |t.cs| == |t.es| + 1
    witness Track([Cluster(map[], {})], [])

  /** The cluster after an action that may happen. */
  ghost function After(c: Cluster, n: Id, a: Action): Cluster
    requires n in c.nodes
  {
    var (s, out) := Local(c.nodes[n], a);
    Cluster(c.nodes[n := s], (if a.Receive? then c.net - {a.m} else c.net) + out)
  }

  ghost predicate May(c: Cluster, n: Id, a: Action) {
    && n in c.nodes && c.nodes[n].alive
    && (a.Receive? ==> a.m in c.net && a.m.dst == n)
    && (a.StartHandshake? ==> a.nick !in c.nodes)
    && (a.Failover? ==> c.nodes[n].size == 1)
    && (a.Receive? && a.m.kind.AuthRequest? ==> c.nodes[n].view.Electorate() == {1})
  }

  lemma {:induction false} HistoryPrefix(cs: seq<Cluster>, es: seq<Event>, c: Cluster, e: Event, k: nat)
    requires k <= |es| < |cs|
    ensures History(cs + [c], es + [e], k) == History(cs, es, k)
  {
    hide NextHist;
    if k > 0 { HistoryPrefix(cs, es, c, e, k - 1); }
  }

  lemma Do(t: Tape, n: Id, a: Action) returns (t': Tape)
    requires t.Good() && May(t.Last(), n, a)
    ensures t'.Good() && t'.Last() == After(t.Last(), n, a)
    ensures t'.Hist() == NextHist(t.Hist(), n, t.Last().nodes[n], a)
  {
    hide Local, Init, History, Wins, NextHist;
    var c, e := t.Last(), Act(n, a, false);
    var c' := After(c, n, a);
    t' := Track(t.cs + [c'], t.es + [e]);
    StepsOn(c, n, a);
    forall i | 0 <= i < |t'.es|
      ensures Next(t'.cs[i], t'.cs[i + 1], t'.es[i])
      ensures ClusterEpochs.FreshNick(t'.es[i], t'.cs[i]) && Agrees({1}, 2, t'.cs[i], t'.es[i])
    {
      if i < |t.es| {
        assert t'.es[i] == t.es[i] && t'.cs[i] == t.cs[i] && t'.cs[i + 1] == t.cs[i + 1];
      }
    }
    LastEvent(t.cs, t.es, c', e);
  }

  lemma StepsOn(c: Cluster, n: Id, a: Action)
    requires May(c, n, a)
    ensures Next(c, After(c, n, a), Act(n, a, false))
    ensures ClusterEpochs.FreshNick(Act(n, a, false), c)
    ensures Agrees({1}, 2, c, Act(n, a, false))
  {
    hide Local, Wins, LearnHeader;
  }

  lemma LastEvent(cs: seq<Cluster>, es: seq<Event>, c: Cluster, e: Event)
    requires |cs| == |es| + 1 && e.Act? && e.n in cs[|es|].nodes
    ensures History(cs + [c], es + [e], |es| + 1) == NextHist(History(cs, es, |es|), e.n, cs[|es|].nodes[e.n], e.a)
  {
    hide NextHist;
    HistoryPrefix(cs, es, c, e, |es|);
  }

  // ------------------------------------------------------- the nodes

  function Info(role: Role, slaveof: Option<Id>, handshake: bool, voted: int): NodeInfo {
    NodeInfo(role, slaveof, 0, handshake, false, voted)
  }

  function Node(self: Id, nodes: map<Id, NodeInfo>, owner: map<Slot, Id>, epoch: nat, lastVote: nat, auth: Auth, manual: bool): NodeState {
    NodeState(self, true, epoch, lastVote, View(nodes, owner, map[]), 1, auth, manual, manual)
  }

  const NO_AUTH := Auth(0, 0, false, 0)

  /** Node 1, the master of slot 0; `two` and `three` are the masters of nodes 2 and 3 as far
      as it knows. */
  function Master1(two: Option<Id>, three: Option<Id>, epoch: nat, lastVote: nat, voted: int): NodeState {
    Node(1, map[1 := Info(Master, None, false, voted), 2 := Info(Slave, two, false, 0), 3 := Info(Slave, three, false, 0)],
         map[0 := 1], epoch, lastVote, NO_AUTH, false)
  }

  /** A slave of node 1, before or after it heard who owns slot 0. */
  function Slave1(self: Id, owner: map<Slot, Id>, epoch: nat, auth: Auth, manual: bool): NodeState {
    Node(self, map[self := Info(Slave, Some(1), false, 0), 1 := Info(Master, None, false, 0)], owner, epoch, 0, auth, manual)
  }

  function Clock(now: int): Env {
    Env(now, 1000, false, 0, 0)
  }

  // what the actions of the run do to them

  lemma OwnsSlot(s: NodeState)
    requires Fresh(s, 1)
    ensures Local(s, AddSlots({0})).0 == Node(1, map[1 := Info(Master, None, false, 0)], map[0 := 1], 0, 0, NO_AUTH, false)
  {
  }

  lemma Greets(s: NodeState, nick: Id)
    requires nick !in s.view.nodes
    ensures Local(s, StartHandshake(nick)).0 == s.(view := s.view.SetInfo(nick, Info(Unset, None, true, 0)))
  {
  }

  /** A handshake that ends gives the node its name and role; nobody is its slave yet. */
  lemma Meets(s: NodeState, nick: Id, name: Id, role: Role)
    requires nick !in s.view.nodes && name !in s.view.nodes && nick != s.self && nick != name
    requires forall k | k in s.view.nodes :: s.view.nodes[k].slaveof != Some(nick)
    requires (forall j | j in s.view.owner :: s.view.owner[j] != nick) && s.view.importing == map[]
    ensures var met := s.(view := s.view.SetInfo(nick, Info(Unset, None, true, 0)));
            Local(met, EndHandshake(nick, name, role)).0 == s.(view := s.view.SetInfo(name, Info(role, None, false, 0)))
  {
    hide RenameNode;
    var v := s.view.SetInfo(nick, Info(Unset, None, true, 0));
    Renamed(s.view, nick, name);
    assert RenameNode(v, nick, name).SetInfo(name, Info(role, None, false, 0)) == s.view.SetInfo(name, Info(role, None, false, 0));
  }

  lemma Renamed(v: View, nick: Id, name: Id)
    requires nick !in v.nodes && name !in v.nodes && nick != name
    requires forall k | k in v.nodes :: v.nodes[k].slaveof != Some(nick)
    requires (forall j | j in v.owner :: v.owner[j] != nick) && v.importing == map[]
    ensures RenameNode(v.SetInfo(nick, Info(Unset, None, true, 0)), nick, name) == v.SetInfo(name, Info(Unset, None, true, 0))
  {
    var d := RenameNode(v.SetInfo(nick, Info(Unset, None, true, 0)), nick, name);
    assert d.owner == v.owner && d.importing == v.importing;
    assert d.nodes == v.SetInfo(name, Info(Unset, None, true, 0)).nodes;
  }

  lemma BecomesSlave(n: Id)
    requires n != 1
    ensures Local(Node(n, map[n := Info(Master, None, false, 0), 1 := Info(Master, None, false, 0)], map[], 0, 0, NO_AUTH, false),
                  Replicate(1)).0 == Slave1(n, map[], 0, NO_AUTH, false)
  {
    var s := Node(n, map[n := Info(Master, None, false, 0), 1 := Info(Master, None, false, 0)], map[], 0, 0, NO_AUTH, false);
    assert s.view.Bits(n) == {};
  }

  // the packets

  function PingOf(n: Id): Msg {
    Msg(Ping, n, 1, 0, 0, {}, Some(1), false)
  }

  function PongTo(n: Id, epoch: nat): Msg {
    Msg(Pong, 1, n, epoch, 0, {0}, None, false)
  }

  function RequestOf(n: Id, epoch: nat): Msg {
    Msg(AuthRequest, n, 1, epoch, 0, {0}, Some(1), true)
  }

  function AckTo(n: Id, epoch: nat): Msg {
    Msg(AuthAck, 1, n, epoch, 0, {0}, None, false)
  }

  lemma SlavePings(n: Id)
    requires n != 1
    ensures Local(Slave1(n, map[], 0, NO_AUTH, false), Heartbeat(1, true)) == (Slave1(n, map[], 0, NO_AUTH, false), {PingOf(n)})
  {
    assert Slave1(n, map[], 0, NO_AUTH, false).view.Bits(1) == {};
  }

  lemma MasterBits(two: Option<Id>, three: Option<Id>, epoch: nat, lastVote: nat, voted: int)
    ensures var v := Master1(two, three, epoch, lastVote, voted).view;
            v.Bits(1) == {0} && v.Bits(2) == {} && v.Bits(3) == {} && v.Electorate() == {1}
  {
    var v := Master1(two, three, epoch, lastVote, voted).view;
    assert 0 in v.Bits(1);
  }

  /** The master hears that a node is its slave, and answers. */
  lemma MasterAnswers(n: Id, two: Option<Id>, three: Option<Id>, epoch: nat, lastVote: nat, voted: int, env: Env)
    requires n == 2 || n == 3
    ensures Local(Master1(two, three, epoch, lastVote, voted), Receive(PingOf(n), env)) ==
            (Master1(if n == 2 then Some(1) else two, if n == 3 then Some(1) else three, epoch, lastVote, voted), {PongTo(n, epoch)})
  {
    hide View.Bits, View.Electorate, UpdateSlots, HandleCollision;
    var s, m := Master1(two, three, epoch, lastVote, voted), PingOf(n);
    MasterBits(two, three, epoch, lastVote, voted);
    assert LearnHeader(s, m).view.nodes == s.view.nodes;
    assert Header(s, Pong, n) == PongTo(n, epoch);
    var s1 := Master1(if n == 2 then Some(1) else two, if n == 3 then Some(1) else three, epoch, lastVote, voted);
    assert LearnRole(s.view, m) == s1.view by { assert LearnRole(s.view, m).nodes == s1.view.nodes; }
    assert LearnHeader(s, m) == s;
    assert LearnSlots(s1, m) == s1 && LearnCollision(s1, m) == s1;
    assert TellSender(s1, m, DirtySlots(s1.view, m)) == {};
    assert ProcessPing(s, m) == (s1, {});
    assert {PongTo(n, epoch)} + {} == {PongTo(n, epoch)};
  }

  /** The slave hears who owns slot 0, and the master's epoch. */
  lemma SlaveLearns(n: Id, epoch: nat, env: Env)
    requires n != 1
    ensures Local(Slave1(n, map[], 0, NO_AUTH, false), Receive(PongTo(n, epoch), env)).0
         == Slave1(n, map[0 := 1], epoch, NO_AUTH, false)
  {
    hide HandleCollision;
    var s, m := Slave1(n, map[], 0, NO_AUTH, false), PongTo(n, epoch);
    assert s.view.Bits(1) == {};
    var s1 := LearnHeader(s, m);
    assert s1.view.nodes == s.view.nodes;
    assert Rebound(s1.view, 1, 0, {0}) == {0};
    assert Assign(s1.view, {0}, 1).owner == map[0 := 1];
  }

  // an attempt of a slave whose administrator asked for a failover

  lemma Asked(n: Id, epoch: nat)
    ensures Local(Slave1(n, map[0 := 1], epoch, NO_AUTH, false), ManualFailover(true, true)).0
         == Slave1(n, map[0 := 1], epoch, NO_AUTH, true)
  {
  }

  lemma SlaveBits(n: Id, epoch: nat, auth: Auth)
    requires n != 1
    ensures var s := Slave1(n, map[0 := 1], epoch, auth, true);
            s.view.Bits(1) == {0} && MayFailover(s, Clock(0)) && forall now :: MayFailover(s, Clock(now))
  {
    var s := Slave1(n, map[0 := 1], epoch, auth, true);
    assert 0 in s.view.Bits(1);
  }

  lemma SlaveSchedules(n: Id, epoch: nat, auth: Auth, now: int)
    requires n != 1 && now - auth.time > 4000
    ensures var s := Slave1(n, map[0 := 1], epoch, auth, true);
            && Schedules(s, Clock(now))
            && Local(s, Failover(Clock(now))).0 == Slave1(n, map[0 := 1], epoch, Auth(now, 0, false, auth.epoch), true)
  {
    hide View.Bits, SendTo, MayFailover;
    SlaveBits(n, epoch, auth);
  }

  lemma SlaveAsks(n: Id, epoch: nat, auth: Auth)
    requires n != 1 && !auth.sent
    ensures var s := Slave1(n, map[0 := 1], epoch, auth, true);
            && !Schedules(s, Clock(auth.time)) && !Wins(s, Clock(auth.time))
            && Local(s, Failover(Clock(auth.time))).0
               == Slave1(n, map[0 := 1], epoch + 1, auth.(epoch := epoch + 1, sent := true), true)
            && RequestOf(n, epoch + 1) in Local(s, Failover(Clock(auth.time))).1
  {
    hide View.Bits, MayFailover;
    SlaveBits(n, epoch, auth);
    var t := Slave1(n, map[0 := 1], epoch + 1, auth.(epoch := epoch + 1, sent := true), true);
    SlaveBits(n, epoch + 1, t.auth);
    assert Header(t, AuthRequest, 1) == RequestOf(n, epoch + 1);
    assert 1 in t.view.nodes && RequestOf(n, epoch + 1) in Broadcast(t, AuthRequest);
  }

  lemma SlaveWins(n: Id, epoch: nat, auth: Auth)
    requires n != 1 && auth.sent && auth.count >= 1
    ensures var s := Slave1(n, map[0 := 1], epoch, auth, true);
            Wins(s, Clock(auth.time)) && !Schedules(s, Clock(auth.time))
  {
    hide View.Bits, MayFailover;
    SlaveBits(n, epoch, auth);
  }

  /** A vote of the master for its slave. */
  lemma MasterVotes(n: Id, two: Option<Id>, three: Option<Id>, epoch: nat, voted: int, now: int)
    requires n == 2 || n == 3
    requires (if n == 2 then two else three) == Some(1) && now - voted >= 2000
    ensures var s, m := Master1(two, three, epoch, epoch, voted), RequestOf(n, epoch + 1);
            && CastsVote(s, Receive(m, Clock(now))) && LearnHeader(s, m).currentEpoch == epoch + 1
            && Local(s, Receive(m, Clock(now))) == (Master1(two, three, epoch + 1, epoch + 1, now), {AckTo(n, epoch + 1)})
  {
    hide View.Bits, View.Electorate;
    var s, m := Master1(two, three, epoch, epoch, voted), RequestOf(n, epoch + 1);
    MasterBits(two, three, epoch, epoch, voted);
    var s1 := Master1(two, three, epoch + 1, epoch, voted);
    MasterBits(two, three, epoch + 1, epoch, voted);
    assert LearnHeader(s, m).view.nodes == s.view.nodes;
    assert LearnHeader(s, m) == s1;
    assert Votes(s1, m, Clock(now));
    assert Header(s1, AuthAck, n) == AckTo(n, epoch + 1);
    assert Master1(two, three, epoch + 1, epoch + 1, now).view.nodes == s1.view.nodes[1 := Info(Master, None, false, now)];
  }

  /** The slave counts an acknowledgement of its attempt's epoch, sent or not. */
  lemma SlaveCounts(n: Id, epoch: nat, auth: Auth, env: Env)
    requires n != 1 && auth.epoch <= epoch
    ensures var s, m := Slave1(n, map[0 := 1], epoch, auth, true), AckTo(n, epoch);
            && CountsAck(s, Receive(m, env)) && !CastsVote(s, Receive(m, env))
            && Local(s, Receive(m, env)).0 == Slave1(n, map[0 := 1], epoch, auth.(count := auth.count + 1), true)
  {
    hide View.Bits, MayFailover;
    var s, m := Slave1(n, map[0 := 1], epoch, auth, true), AckTo(n, epoch);
    SlaveBits(n, epoch, auth);
    assert LearnHeader(s, m).view.nodes == s.view.nodes;
    assert LearnHeader(s, m) == s;
  }

  // ------------------------------------------------------- the run

  /** An action that no election takes part in. */
  ghost predicate Aside(a: Action) {
    !a.Failover? && (a.Receive? ==> !a.m.kind.AuthAck? && !a.m.kind.AuthRequest?)
  }

  lemma Quietly(t: Tape, n: Id, a: Action, s: NodeState) returns (t': Tape)
    requires t.Good() && May(t.Last(), n, a) && Aside(a) && Local(t.Last().nodes[n], a).0 == s
    ensures t'.Good() && t'.Hist() == t.Hist() && t'.Last().nodes == t.Last().nodes[n := s]
    ensures Local(t.Last().nodes[n], a).1 <= t'.Last().net
  {
    hide Local, Track.Good, Votes, Counts, LearnHeader, Schedules, Wins;
    t' := Do(t, n, a);
  }

  lemma Introduces(t: Tape, n: Id, nick: Id, name: Id, role: Role) returns (t': Tape)
    requires t.Good() && n in t.Last().nodes && nick !in t.Last().nodes
    requires var s := t.Last().nodes[n];
             && s.alive && nick !in s.view.nodes && name !in s.view.nodes && nick != s.self && nick != name
             && (forall k | k in s.view.nodes :: s.view.nodes[k].slaveof != Some(nick))
             && (forall j | j in s.view.owner :: s.view.owner[j] != nick) && s.view.importing == map[]
    ensures t'.Good() && t'.Hist() == t.Hist()
    ensures var s := t.Last().nodes[n];
            t'.Last().nodes == t.Last().nodes[n := s.(view := s.view.SetInfo(name, Info(role, None, false, 0)))]
  {
    hide Local, Track.Good;
    var s := t.Last().nodes[n];
    Greets(s, nick);
    t' := Quietly(t, n, StartHandshake(nick), s.(view := s.view.SetInfo(nick, Info(Unset, None, true, 0))));
    Meets(s, nick, name, role);
    t' := Quietly(t', n, EndHandshake(nick, name, role), s.(view := s.view.SetInfo(name, Info(role, None, false, 0))));
  }

  /** Node 1 takes slot 0 and meets the other two. */
  lemma MasterStarts(t: Tape) returns (t': Tape)
    requires t.Good() && t.Last().nodes.Keys == {1, 2, 3} && Fresh(t.Last().nodes[1], 1)
    ensures t'.Good() && t'.Hist() == t.Hist()
    ensures t'.Last().nodes == t.Last().nodes[1 := Master1(None, None, 0, 0, 0)]
  {
    hide Local, Track.Good;
    var s := Node(1, map[1 := Info(Master, None, false, 0)], map[0 := 1], 0, 0, NO_AUTH, false);
    OwnsSlot(t.Last().nodes[1]);
    t' := Quietly(t, 1, AddSlots({0}), s);
    t' := Introduces(t', 1, 12, 2, Slave);
    t' := Introduces(t', 1, 13, 3, Slave);
    assert t'.Last().nodes[1].view.nodes == Master1(None, None, 0, 0, 0).view.nodes;
  }

  /** Node `n` meets node 1 and becomes its slave. */
  lemma Enlists(t: Tape, n: Id) returns (t': Tape)
    requires (n == 2 || n == 3) && t.Good() && t.Last().nodes.Keys == {1, 2, 3} && Fresh(t.Last().nodes[n], n)
    ensures t'.Good() && t'.Hist() == t.Hist()
    ensures t'.Last().nodes == t.Last().nodes[n := Slave1(n, map[], 0, NO_AUTH, false)]
  {
    hide Local, Track.Good;
    t' := Introduces(t, n, 11, 1, Master);
    var s := Node(n, map[n := Info(Master, None, false, 0), 1 := Info(Master, None, false, 0)], map[], 0, 0, NO_AUTH, false);
    assert t'.Last().nodes[n].view.nodes == s.view.nodes;
    BecomesSlave(n);
    t' := Quietly(t', n, Replicate(1), Slave1(n, map[], 0, NO_AUTH, false));
  }

  /** It and its master hear of each other. */
  lemma Hears(t: Tape, n: Id, two: Option<Id>, three: Option<Id>, epoch: nat, voted: int) returns (t': Tape)
    requires (n == 2 || n == 3) && t.Good() && t.Last().nodes.Keys == {1, 2, 3}
    requires t.Last().nodes[1] == Master1(two, three, epoch, epoch, voted)
    requires t.Last().nodes[n] == Slave1(n, map[], 0, NO_AUTH, false)
    ensures t'.Good() && t'.Hist() == t.Hist()
    ensures t'.Last().nodes == t.Last().nodes
      [1 := Master1(if n == 2 then Some(1) else two, if n == 3 then Some(1) else three, epoch, epoch, voted)]
      [n := Slave1(n, map[0 := 1], epoch, NO_AUTH, false)]
  {
    hide Local, Track.Good;
    SlavePings(n);
    t' := Quietly(t, n, Heartbeat(1, true), Slave1(n, map[], 0, NO_AUTH, false));
    MasterAnswers(n, two, three, epoch, epoch, voted, Clock(0));
    t' := Quietly(t', 1, Receive(PingOf(n), Clock(0)),
      Master1(if n == 2 then Some(1) else two, if n == 3 then Some(1) else three, epoch, epoch, voted));
    SlaveLearns(n, epoch, Clock(0));
    t' := Quietly(t', n, Receive(PongTo(n, epoch), Clock(0)), Slave1(n, map[0 := 1], epoch, NO_AUTH, false));
  }

  /** All that, and its administrator asks for a failover. */
  lemma Joins(t: Tape, n: Id, two: Option<Id>, three: Option<Id>, epoch: nat, voted: int) returns (t': Tape)
    requires (n == 2 || n == 3) && t.Good() && t.Last().nodes.Keys == {1, 2, 3} && Fresh(t.Last().nodes[n], n)
    requires t.Last().nodes[1] == Master1(two, three, epoch, epoch, voted)
    ensures t'.Good() && t'.Hist() == t.Hist()
    ensures t'.Last().nodes == t.Last().nodes
      [1 := Master1(if n == 2 then Some(1) else two, if n == 3 then Some(1) else three, epoch, epoch, voted)]
      [n := Slave1(n, map[0 := 1], epoch, NO_AUTH, true)]
  {
    hide Local, Track.Good;
    t' := Enlists(t, n);
    t' := Hears(t', n, two, three, epoch, voted);
    Asked(n, epoch);
    t' := Quietly(t', n, ManualFailover(true, true), Slave1(n, map[0 := 1], epoch, NO_AUTH, true));
  }

  /** The slave schedules an attempt and its counts start again. */
  lemma Restarts(t: Tape, n: Id, epoch: nat, auth: Auth, now: int) returns (t': Tape)
    requires n != 1 && now - auth.time > 4000 && t.Good() && n in t.Last().nodes
    requires t.Last().nodes[n] == Slave1(n, map[0 := 1], epoch, auth, true)
    ensures t'.Good() && t'.Hist() == t.Hist().(got := t.Hist().got[n := {}], late := t.Hist().late[n := 0])
    ensures t'.Last().nodes == t.Last().nodes[n := Slave1(n, map[0 := 1], epoch, Auth(now, 0, false, auth.epoch), true)]
    ensures t.Last().net <= t'.Last().net
  {
    hide Local, Track.Good, Votes, Counts, LearnHeader, Schedules, Wins;
    SlaveSchedules(n, epoch, auth, now);
    t' := Do(t, n, Failover(Clock(now)));
  }

  lemma Asks(t: Tape, n: Id, epoch: nat, auth: Auth) returns (t': Tape)
    requires n != 1 && !auth.sent && t.Good() && n in t.Last().nodes
    requires t.Last().nodes[n] == Slave1(n, map[0 := 1], epoch, auth, true)
    ensures t'.Good() && t'.Hist() == t.Hist()
    ensures t'.Last().nodes ==
            t.Last().nodes[n := Slave1(n, map[0 := 1], epoch + 1, auth.(epoch := epoch + 1, sent := true), true)]
    ensures t.Last().net + {RequestOf(n, epoch + 1)} <= t'.Last().net
  {
    hide Local, Track.Good, Votes, Counts, LearnHeader, Schedules, Wins;
    SlaveAsks(n, epoch, auth);
    t' := Do(t, n, Failover(Clock(auth.time)));
  }

  lemma Counted(t: Tape, n: Id, epoch: nat, auth: Auth) returns (t': Tape)
    requires n != 1 && auth.epoch <= epoch && t.Good() && n in t.Last().nodes && AckTo(n, epoch) in t.Last().net
    requires t.Last().nodes[n] == Slave1(n, map[0 := 1], epoch, auth, true)
    ensures t'.Good() && t'.Last().nodes ==
            t.Last().nodes[n := Slave1(n, map[0 := 1], epoch, auth.(count := auth.count + 1), true)]
    ensures var h := t.Hist();
            t'.Hist() == if auth.sent then h.(got := h.got[n := h.Got(n) + {1}])
                         else h.(late := h.late[n := h.Late(n) + 1])
  {
    hide Local, Track.Good, CastsVote, CountsAck;
    SlaveCounts(n, epoch, auth, Clock(0));
    t' := Do(t, n, Receive(AckTo(n, epoch), Clock(0)));
  }

  lemma Elects(t: Tape, n: Id, epoch: nat, auth: Auth) returns (t': Tape)
    requires n != 1 && auth.sent && auth.count >= 1 && t.Good() && n in t.Last().nodes
    requires t.Last().nodes[n] == Slave1(n, map[0 := 1], epoch, auth, true)
    ensures t'.Good() && t'.Hist() == t.Hist().(wins := t.Hist().wins + {Win(n, auth.epoch, 1, t.Hist().Got(n), t.Hist().Late(n))})
    ensures t'.Last().nodes.Keys == t.Last().nodes.Keys
    ensures forall x | x in t.Last().nodes && x != n :: t'.Last().nodes[x] == t.Last().nodes[x]
  {
    hide Local, Track.Good, Votes, Counts, LearnHeader, Schedules, Wins;
    SlaveWins(n, epoch, auth);
    t' := Do(t, n, Failover(Clock(auth.time)));
  }

  /** An attempt up to the master's vote. */
  lemma Campaigns(t: Tape, n: Id, two: Option<Id>, three: Option<Id>, epoch: nat, voted: int, auth: Auth, now: int)
    returns (t': Tape)
    requires (n == 2 || n == 3) && (if n == 2 then two else three) == Some(1)
    requires now - auth.time > 4000 && now - voted >= 2000 && t.Good() && t.Last().nodes.Keys == {1, 2, 3}
    requires t.Last().nodes[1] == Master1(two, three, epoch, epoch, voted)
    requires t.Last().nodes[n] == Slave1(n, map[0 := 1], epoch, auth, true)
    ensures t'.Good() && AckTo(n, epoch + 1) in t'.Last().net
    ensures t'.Last().nodes == t.Last().nodes
      [1 := Master1(two, three, epoch + 1, epoch + 1, now)]
      [n := Slave1(n, map[0 := 1], epoch + 1, Auth(now, 0, true, epoch + 1), true)]
    ensures var h := t.Hist();
            t'.Hist() == h.(got := h.got[n := {}], late := h.late[n := 0], votes := h.votes[(1, epoch + 1) := n])
  {
    hide Local, Track.Good, CastsVote, CountsAck, LearnHeader;
    var t1 := Restarts(t, n, epoch, auth, now);
    var t2 := Asks(t1, n, epoch, Auth(now, 0, false, auth.epoch));
    MasterVotes(n, two, three, epoch, voted, now);
    MasterBits(two, three, epoch, epoch, voted);
    t' := Do(t2, 1, Receive(RequestOf(n, epoch + 1), Clock(now)));
  }

  lemma GoodRun(t: Tape)
    requires t.Good()
    ensures Run(t.cs, t.es)
    ensures forall i | 0 <= i < |t.es| :: ClusterEpochs.FreshNick(t.es[i], t.cs[i]) && Agrees({1}, 2, t.cs[i], t.es[i])
  {
    hide Next, Init, Agrees, ClusterEpochs.FreshNick;
  }

  lemma Start() returns (t: Tape)
    ensures t.Good() && t.Hist() == Hist(map[], map[], map[], {})
    ensures t.Last().nodes.Keys == {1, 2, 3} && forall n | n in {1, 2, 3} :: Fresh(t.Last().nodes[n], n)
  {
    var nodes := map n: Id | n in {1, 2, 3} :: Node(n, map[n := Info(Master, None, false, 0)], map[], 0, 0, NO_AUTH, false);
    t := Track([Cluster(nodes, {})], []);
  }

  /** Node 3 gives an attempt up before the acknowledgement of it arrives, counts it while
      the next attempt waits, and wins that one although nobody voted for it. */
  lemma WinsOnLateAck(t: Tape) returns (t': Tape)
    requires t.Good() && t.Hist() == Hist(map[], map[], map[], {})
    requires t.Last().nodes.Keys == {1, 2, 3} && Fresh(t.Last().nodes[3], 3)
    requires t.Last().nodes[1] == Master1(None, None, 0, 0, 0)
    ensures t'.Good() && t'.Hist().wins == {Win(3, 2, 1, {}, 1)}
    ensures t'.Last().nodes.Keys == {1, 2, 3} && t'.Last().nodes[2] == t.Last().nodes[2]
    ensures t'.Last().nodes[1] == Master1(None, Some(1), 1, 1, 5000)
  {
    hide Track.Good, Fresh, Master1, Slave1;
    t' := Joins(t, 3, None, None, 0, 0);
    t' := Campaigns(t', 3, None, Some(1), 0, 0, NO_AUTH, 5000);
    t' := Restarts(t', 3, 1, Auth(5000, 0, true, 1), 10000);
    t' := Counted(t', 3, 1, Auth(10000, 0, false, 1));
    t' := Asks(t', 3, 1, Auth(10000, 1, false, 1));
    t' := Elects(t', 3, 2, Auth(10000, 1, true, 2));
  }

  /** Node 2 then wins the same epoch on its only vote. */
  lemma WinsOnVote(t: Tape) returns (t': Tape)
    requires t.Good() && t.Last().nodes.Keys == {1, 2, 3} && Fresh(t.Last().nodes[2], 2)
    requires t.Last().nodes[1] == Master1(None, Some(1), 1, 1, 5000)
    ensures t'.Good() && t'.Hist().wins == t.Hist().wins + {Win(2, 2, 1, {1}, 0)}
  {
    hide Track.Good, Fresh, Master1, Slave1;
    t' := Joins(t, 2, None, Some(1), 1, 5000);
    t' := Campaigns(t', 2, Some(1), Some(1), 1, 5000, NO_AUTH, 20000);
    t' := Counted(t', 2, 2, Auth(20000, 0, true, 2));
    assert {} + {1} == {1};
    t' := Elects(t', 2, 2, Auth(20000, 1, true, 2));
  }

  /** Two nodes win epoch 2, although its voters agree. */
  lemma TwoWinners() returns (cs: seq<Cluster>, es: seq<Event>)
    ensures Run(cs, es)
    ensures forall i | 0 <= i < |es| :: ClusterEpochs.FreshNick(es[i], cs[i]) && Agrees({1}, 2, cs[i], es[i])
    ensures History(cs, es, |es|).wins == {Win(3, 2, 1, {}, 1), Win(2, 2, 1, {1}, 0)}
  {
    hide Track.Good, Run, Agrees, ClusterEpochs.FreshNick, Fresh, Master1;
    var t := Start();
    t := MasterStarts(t);
    t := WinsOnLateAck(t);
    t := WinsOnVote(t);
    GoodRun(t);
    cs, es := t.cs, t.es;
  }
}
