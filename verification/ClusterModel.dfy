/** The part of one Redis Cluster node that takes part in the control plane: epochs,
    votes, elections and slot ownership (cluster.c, cluster.h).

    A node's state is a value and every handler of cluster.c is a function on it, so
    that whole runs of many nodes can be quantified over. `ClusterServer` holds the
    imperative handlers and proves that they compute these functions; its invariant and
    `SlotBitmap` say that the two redundant slot tables of the program agree, which is why
    one of them (`owner`) is enough here. */
module ClusterModel {

  datatype Option<T> = None | Some(value: T)

  const SLOTS: nat := 16384

  /** A node ID: the number that the 40 bytes of the name spell, first byte first, so
      that `memcmp` on names is `<` on IDs. */
  type Id = nat

  type Slot = j: nat | j < SLOTS

  datatype Role = Unset | Master | Slave

  /** What a node remembers about one cluster node, itself included (clusterNode). */
  datatype NodeInfo = NodeInfo(
    role: Role, slaveof: Option<Id>, configEpoch: nat,
    handshake: bool, failed: bool, votedTime: int)

  /** The tables of clusterState about the other nodes and the slots. */
  datatype View = View(nodes: map<Id, NodeInfo>, owner: map<Slot, Id>, importing: map<Slot, Id>) {

    predicate IsMaster(n: Id) { n in nodes && nodes[n].role == Master }

    predicate IsSlave(n: Id) { n in nodes && nodes[n].role == Slave }

    function EpochOf(n: Id): nat { if n in nodes then nodes[n].configEpoch else 0 }

    function SlaveOf(n: Id): Option<Id> { if n in nodes then nodes[n].slaveof else None }

    predicate Failed(n: Id) { n in nodes && nodes[n].failed }

    /** The bitmap of the slots served by `n`. */
    function Bits(n: Id): set<Slot> { set j | j in owner && owner[j] == n }

    function OwnerOf(j: Slot): Option<Id> { if j in owner then Some(owner[j]) else None }

    /** The masters serving at least one slot: the nodes that may vote, by this view. */
    function Electorate(): set<Id> {
      set n | n in nodes && nodes[n].role == Master && Bits(n) != {}
    }

    function SetInfo(n: Id, i: NodeInfo): View { this.(nodes := nodes[n := i]) }
  }

  /** The state of this node's own election (the failover_auth fields of clusterState). */
  datatype Auth = Auth(time: int, count: nat, sent: bool, epoch: nat)

  /** clusterState. `alive` turns false when the process aborts. */
  datatype NodeState = NodeState(
    self: Id, alive: bool, currentEpoch: nat, lastVoteEpoch: nat,
    view: View, size: nat, auth: Auth, mfEnd: bool, mfCanStart: bool)

  datatype Kind =
    | Ping | Pong | Meet
    | Fail(failing: Id)
    | AuthRequest
    | AuthAck
    | Update(about: Id, epoch: nat, aboutSlots: set<Slot>)

  /** clusterMsg: the header, and the payload inside `kind`. */
  datatype Msg = Msg(
    kind: Kind, src: Id, dst: Id, currentEpoch: nat, configEpoch: nat,
    slots: set<Slot>, slaveof: Option<Id>, forceAck: bool)

  /** clusterBuildMessageHdr: a slave speaks with its master's slots and configEpoch. */
  function Header(s: NodeState, kind: Kind, dst: Id): Msg {
    var v := s.view;
    var m := if v.IsSlave(s.self) && v.SlaveOf(s.self).Some? then v.SlaveOf(s.self).value else s.self;
    Msg(kind, s.self, dst, s.currentEpoch, v.EpochOf(m), v.Bits(m), v.SlaveOf(s.self),
        kind.AuthRequest? && s.mfEnd)
  }

  function Broadcast(s: NodeState, kind: Kind): set<Msg> {
    set d | d in s.view.nodes && d != s.self && !s.view.nodes[d].handshake :: Header(s, kind, d)
  }

  /** One packet to each of the nodes `ds` that may get one. */
  function SendTo(s: NodeState, ds: set<Id>, kind: Kind): set<Msg> {
    set d | d in ds && d in s.view.nodes && d != s.self && !s.view.nodes[d].handshake :: Header(s, kind, d)
  }

  /** The slaves of this node or of its master: CLUSTER_BROADCAST_LOCAL_SLAVES. */
  function LocalSlaves(s: NodeState): set<Id> {
    set d | d in s.view.nodes && s.view.IsSlave(d) && s.view.SlaveOf(d).Some? &&
            (s.view.SlaveOf(d) == Some(s.self) || s.view.SlaveOf(d) == s.view.SlaveOf(s.self))
  }

  // ---------------------------------------------------------------- roles and slots

  function SetNodeAsMaster(v: View, n: Id): View {
    if n !in v.nodes || v.nodes[n].role == Master then v
    else v.SetInfo(n, v.nodes[n].(role := Master, slaveof := None))
  }

  function DelNodeSlots(v: View, n: Id): View {
    v.(owner := map j | j in v.owner && v.owner[j] != n :: v.owner[j])
  }

  function Assign(v: View, js: set<Slot>, n: Id): View {
    v.(owner := map j | j in v.owner.Keys + js :: if j in js then n else v.owner[j])
  }

  /** What clusterSetMaster writes into the tables of node `self`. */
  function Enslave(v: View, self: Id, n: Id): View
    requires self in v.nodes
  {
    var me := v.nodes[self];
    if me.role == Master
    then v.SetInfo(self, me.(role := Slave, slaveof := Some(n))).(importing := map[])
    else v.SetInfo(self, me.(slaveof := Some(n)))
  }

  /** clusterSetMaster; its two assertions stop the process. */
  function SetMaster(s: NodeState, n: Id): NodeState {
    if n == s.self || s.view.Bits(s.self) != {} || s.self !in s.view.nodes then s.(alive := false)
    else s.(view := Enslave(s.view, s.self, n), mfEnd := false, mfCanStart := false)
  }

  /** The slots that an update rebinds: claimed, not the sender's already, not being
      imported, and unowned or owned under a lower epoch. */
  function Rebound(v: View, sender: Id, e: nat, slots: set<Slot>): set<Slot> {
    set j | j in slots && v.OwnerOf(j) != Some(sender) && j !in v.importing &&
            (j !in v.owner || v.EpochOf(v.owner[j]) < e)
  }

  /** This node, or the master it replicates. */
  function CurMaster(s: NodeState): Option<Id> {
    if s.view.IsMaster(s.self) then Some(s.self) else s.view.SlaveOf(s.self)
  }

  /** clusterUpdateSlotsConfigWith. A slave whose master is unknown dereferences a null
      `curmaster` when an unowned slot is rebound: the process is gone. */
  function UpdateSlots(s: NodeState, sender: Id, e: nat, slots: set<Slot>): NodeState {
    if sender == s.self then s else
    var js := Rebound(s.view, sender, e, slots);
    var s1 := s.(view := Assign(s.view, js, sender));
    if forall j | j in js :: s.view.OwnerOf(j) != CurMaster(s) then s1
    else if CurMaster(s).None? then s1.(alive := false)
    else if s1.view.Bits(CurMaster(s).value) == {} then SetMaster(s1, sender)
    else s1
  }

  /** The tables after this node took over from `former`. */
  function TakeOver(v: View, self: Id, former: Id): View {
    Assign(SetNodeAsMaster(v, self), v.Bits(former), self)
  }

  /** clusterFailoverReplaceYourMaster, with the PONGs it broadcasts. */
  function ReplaceYourMaster(s: NodeState): (NodeState, set<Msg>) {
    if s.view.IsMaster(s.self) || s.view.SlaveOf(s.self).None? then (s, {})
    else
      var s1 := s.(view := TakeOver(s.view, s.self, s.view.SlaveOf(s.self).value),
                   mfEnd := false, mfCanStart := false);
      (s1, Broadcast(s1, Pong))
  }

  // ---------------------------------------------------------------- epochs

  function Max(a: nat, b: nat): nat { if a < b then b else a }

  /** clusterProcessPacket, lines 1605-1619: what every packet teaches about epochs. */
  function LearnHeader(s: NodeState, m: Msg): NodeState {
    if m.src !in s.view.nodes || s.view.nodes[m.src].handshake then s
    else
      var i := s.view.nodes[m.src];
      s.(currentEpoch := Max(s.currentEpoch, m.currentEpoch),
         view := s.view.SetInfo(m.src, i.(configEpoch := Max(i.configEpoch, m.configEpoch))))
  }

  /** The epochs the handlers read from the packet: zero while the sender is in
      handshake. */
  function SenderConfigEpoch(s: NodeState, m: Msg): nat {
    if m.src in s.view.nodes && !s.view.nodes[m.src].handshake then m.configEpoch else 0
  }

  function SenderCurrentEpoch(s: NodeState, m: Msg): nat {
    if m.src in s.view.nodes && !s.view.nodes[m.src].handshake then m.currentEpoch else 0
  }

  function SetConfigEpochOf(v: View, n: Id, e: nat): View
    requires n in v.nodes
  {
    v.SetInfo(n, v.nodes[n].(configEpoch := e))
  }

  /** Give this node the next epoch: `currentEpoch++; myself->configEpoch = currentEpoch`. */
  function NextEpoch(s: NodeState): NodeState
    requires s.self in s.view.nodes
  {
    s.(currentEpoch := s.currentEpoch + 1,
       view := SetConfigEpochOf(s.view, s.self, s.currentEpoch + 1))
  }

  /** The tests at the head of clusterHandleConfigEpochCollision. */
  predicate Collides(s: NodeState, sender: Id) {
    s.view.IsMaster(s.self) && s.view.IsMaster(sender) &&
    s.view.EpochOf(sender) == s.view.EpochOf(s.self) && s.self < sender
  }

  function HandleCollision(s: NodeState, sender: Id): NodeState {
    if Collides(s, sender) then NextEpoch(s) else s
  }

  /** `e` is at least every epoch this node knows (clusterGetMaxEpoch computes the least
      such number). */
  predicate AboveAll(s: NodeState, e: nat) {
    s.currentEpoch <= e && forall n | n in s.view.nodes :: s.view.nodes[n].configEpoch <= e
  }

  /** clusterBumpConfigEpochWithoutConsensus: act unless my epoch is the greatest. */
  function Bump(s: NodeState): NodeState {
    if s.self in s.view.nodes && (s.view.EpochOf(s.self) == 0 || !AboveAll(s, s.view.EpochOf(s.self)))
    then NextEpoch(s) else s
  }

  // ---------------------------------------------------------------- votes

  /** The clock, configuration and delays that the handlers read. */
  datatype Env = Env(now: int, nodeTimeout: nat, dataTooOld: bool, delay: nat, addedDelay: nat)

  /** Every test of clusterSendFailoverAuthIfNeeded passes. */
  predicate Votes(s: NodeState, m: Msg, env: Env) {
    var v := s.view;
    && !v.IsSlave(s.self) && v.Bits(s.self) != {}
    && s.currentEpoch <= m.currentEpoch
    && s.lastVoteEpoch != s.currentEpoch
    && !v.IsMaster(m.src) && v.SlaveOf(m.src).Some?
    && v.SlaveOf(m.src).value in v.nodes
    && (v.Failed(v.SlaveOf(m.src).value) || m.forceAck)
    && env.now - v.nodes[v.SlaveOf(m.src).value].votedTime >= env.nodeTimeout * 2
    && (forall j | j in m.slots && j in v.owner :: v.EpochOf(v.owner[j]) <= m.configEpoch)
  }

  function SendFailoverAuthIfNeeded(s: NodeState, m: Msg, env: Env): (NodeState, set<Msg>) {
    if Votes(s, m, env) then
      var master := s.view.SlaveOf(m.src).value;
      (s.(lastVoteEpoch := s.currentEpoch,
          view := s.view.SetInfo(master, s.view.nodes[master].(votedTime := env.now))),
       {Header(s, AuthAck, m.src)})
    else (s, {})
  }

  /** An AUTH_ACK is counted (lines 1934-1946). */
  predicate Counts(s: NodeState, m: Msg) {
    s.view.IsMaster(m.src) && s.view.Bits(m.src) != {} && SenderCurrentEpoch(s, m) >= s.auth.epoch
  }

  function ProcessAck(s: NodeState, m: Msg): NodeState {
    if Counts(s, m) then s.(auth := s.auth.(count := s.auth.count + 1)) else s
  }

  function AuthTimeout(env: Env): nat { Max(env.nodeTimeout * 2, 2000) }

  /** The tests before any election step of clusterHandleSlaveFailover. */
  predicate MayFailover(s: NodeState, env: Env) {
    var manual := s.mfEnd && s.mfCanStart;
    && !s.view.IsMaster(s.self) && s.view.SlaveOf(s.self).Some?
    && (s.view.Failed(s.view.SlaveOf(s.self).value) || manual)
    && s.view.Bits(s.view.SlaveOf(s.self).value) != {}
    && (env.dataTooOld ==> manual)
  }

  predicate Schedules(s: NodeState, env: Env) {
    MayFailover(s, env) && env.now - s.auth.time > AuthTimeout(env) * 2
  }

  /** The rank-based delay added while the request is not sent. */
  function DelayedTime(s: NodeState, env: Env): int {
    if !s.auth.sent && !s.mfEnd then s.auth.time + env.addedDelay else s.auth.time
  }

  /** The attempt is running: its delay has passed and it has not expired. */
  predicate InAttempt(s: NodeState, env: Env) {
    && MayFailover(s, env) && !Schedules(s, env)
    && DelayedTime(s, env) <= env.now
    && env.now - s.auth.time <= AuthTimeout(env)
  }

  predicate Requests(s: NodeState, env: Env) { InAttempt(s, env) && !s.auth.sent }

  function Quorum(size: nat): nat { size / 2 + 1 }

  predicate Wins(s: NodeState, env: Env) {
    InAttempt(s, env) && s.auth.sent && s.auth.count >= Quorum(s.size) && s.self in s.view.nodes
  }

  /** The state after winning the election, before the master is replaced. */
  function Elected(s: NodeState): NodeState
    requires s.self in s.view.nodes
  {
    s.(view := SetConfigEpochOf(s.view, s.self, Max(s.view.nodes[s.self].configEpoch, s.auth.epoch)))
  }

  /** clusterHandleSlaveFailover. */
  function HandleSlaveFailover(s: NodeState, env: Env): (NodeState, set<Msg>) {
    if !MayFailover(s, env) then (s, {})
    else if Schedules(s, env) then
      var time := if s.mfEnd then env.now else env.now + env.delay;
      var s1 := s.(auth := Auth(time, 0, false, s.auth.epoch));
      (s1, SendTo(s1, LocalSlaves(s1), Pong))
    else
      var s1 := s.(auth := s.auth.(time := DelayedTime(s, env)));
      if Requests(s, env) then
        var e := s.currentEpoch + 1;
        var s2 := s1.(currentEpoch := e, auth := s1.auth.(epoch := e, sent := true));
        (s2, Broadcast(s2, AuthRequest))
      else if Wins(s, env) then ReplaceYourMaster(Elected(s1))
      else (s1, {})
  }

  // ---------------------------------------------------------------- packets

  /** Lines 1774-1785: a master turned into a slave loses its slots. */
  function Demote(v: View, n: Id): View {
    if v.IsMaster(n) then var d := DelNodeSlots(v, n); d.SetInfo(n, d.nodes[n].(role := Slave)) else v
  }

  /** Lines 1771-1805: the sender says whether it is a master or a slave. */
  function LearnRole(v: View, m: Msg): View {
    if m.src !in v.nodes then v
    else if m.slaveof.None? then SetNodeAsMaster(v, m.src)
    else
      var d := Demote(v, m.src);
      if m.slaveof.value in d.nodes && d.nodes[m.src].slaveof != m.slaveof
      then d.SetInfo(m.src, d.nodes[m.src].(slaveof := m.slaveof))
      else d
  }

  /** Does the bitmap in the packet differ from the sender's slots in this view? */
  predicate DirtySlots(v: View, m: Msg) {
    m.src in v.nodes &&
    var master := if v.IsMaster(m.src) then Some(m.src) else v.SlaveOf(m.src);
    master.Some? && v.Bits(master.value) != m.slots
  }

  /** Lines 1831-1832: a master whose claim changed. */
  function LearnSlots(s: NodeState, m: Msg): NodeState {
    if s.view.IsMaster(m.src) && DirtySlots(s.view, m)
    then UpdateSlots(s, m.src, SenderConfigEpoch(s, m), m.slots) else s
  }

  predicate Outdated(s: NodeState, m: Msg, j: Slot) {
    j in m.slots && j in s.view.owner && s.view.owner[j] != m.src &&
    s.view.EpochOf(s.view.owner[j]) > SenderConfigEpoch(s, m)
  }

  /** Lines 1851-1874: tell the sender about the first slot it claims in vain. `dirty` is
      the value computed before the slot update. */
  function TellSender(s: NodeState, m: Msg, dirty: bool): set<Msg> {
    if dirty && exists j: Slot :: Outdated(s, m, j) then
      var n := s.view.owner[FirstOutdated(s, m, 0)];
      {Header(s, Update(n, s.view.EpochOf(n), s.view.Bits(n)), m.src)}
    else {}
  }

  function FirstOutdated(s: NodeState, m: Msg, from: nat): (j: Slot)
    requires from <= SLOTS && exists k: Slot :: from <= k && Outdated(s, m, k)
    ensures Outdated(s, m, j) && forall k: Slot | from <= k < j :: !Outdated(s, m, k)
    decreases SLOTS - from
  {
    if from < SLOTS && Outdated(s, m, from) then from else FirstOutdated(s, m, from + 1)
  }

  /** Lines 1878-1885. */
  function LearnCollision(s: NodeState, m: Msg): NodeState {
    if s.view.IsMaster(s.self) && s.view.IsMaster(m.src) &&
       SenderConfigEpoch(s, m) == s.view.EpochOf(s.self)
    then HandleCollision(s, m.src) else s
  }

  /** PING, PONG and MEET from the role switch to the collision test. */
  function ProcessPing(s: NodeState, m: Msg): (NodeState, set<Msg>) {
    if m.src !in s.view.nodes then (s, {}) else
    var s1 := s.(view := LearnRole(s.view, m));
    var s2 := LearnSlots(s1, m);
    if !s2.alive then (s2, {})
    else (LearnCollision(s2, m), TellSender(s2, m, DirtySlots(s1.view, m)))
  }

  /** Lines 1969-1973: the node an UPDATE is about becomes a master under the new epoch. */
  function Promote(v: View, n: Id, e: nat): View
    requires n in v.nodes
  {
    SetConfigEpochOf(if v.IsSlave(n) then SetNodeAsMaster(v, n) else v, n, e)
  }

  /** Lines 1959-1980. */
  function ProcessUpdate(s: NodeState, m: Msg): NodeState
    requires m.kind.Update?
  {
    if m.src !in s.view.nodes || m.kind.about !in s.view.nodes ||
       s.view.nodes[m.kind.about].configEpoch >= m.kind.epoch
    then s
    else UpdateSlots(s.(view := Promote(s.view, m.kind.about, m.kind.epoch)),
                     m.kind.about, m.kind.epoch, m.kind.aboutSlots)
  }

  function ProcessFail(s: NodeState, m: Msg): NodeState
    requires m.kind.Fail?
  {
    if m.src in s.view.nodes && m.kind.failing in s.view.nodes && m.kind.failing != s.self
    then s.(view := s.view.SetInfo(m.kind.failing, s.view.nodes[m.kind.failing].(failed := true)))
    else s
  }

  /** clusterProcessPacket for a packet of a complete handshake link. */
  function ProcessPacket(s0: NodeState, m: Msg, env: Env): (NodeState, set<Msg>) {
    var s := LearnHeader(s0, m);
    match m.kind
    case Ping | Meet => (ProcessPing(s, m).0, {Header(s, Pong, m.src)} + ProcessPing(s, m).1)
    case Pong => ProcessPing(s, m)
    case Fail(_) => (ProcessFail(s, m), {})
    case AuthRequest =>
      if m.src in s.view.nodes then SendFailoverAuthIfNeeded(s, m, env) else (s, {})
    case AuthAck => (ProcessAck(s, m), {})
    case Update(_, _, _) => (ProcessUpdate(s, m), {})
  }

  // ---------------------------------------------------------------- commands and ticks

  /** What one node may do in one atomic step. */
  datatype Action =
    | Receive(m: Msg, env: Env)
    | Failover(env: Env)
    | Heartbeat(dst: Id, ping: bool)
    | BroadcastFail(failing: Id)
    | UpdateState
    | Takeover
    | SetSlotNode(slot: Slot, node: Id)
    | SetImporting(slot: Slot, from: Option<Id>)
    | AddSlots(slots: set<Slot>)
    | DelSlots(slots: set<Slot>)
    | SetConfigEpoch(epoch: nat)
    | Replicate(node: Id)
    | Forget(node: Id)
    | SoftReset
    | StartHandshake(nick: Id)
    | EndHandshake(nick: Id, name: Id, role: Role)
    | MarkFailed(node: Id, on: bool)
    | ManualFailover(end: bool, canStart: bool)

  function ForgetNode(v: View, n: Id): View {
    var d := DelNodeSlots(v, n);
    d.(importing := map j | j in d.importing && d.importing[j] != n :: d.importing[j],
       nodes := map k | k in d.nodes && k != n ::
         if d.nodes[k].slaveof == Some(n) then d.nodes[k].(slaveof := None) else d.nodes[k])
  }

  /** clusterRenameNode: pointers to the node stay pointers to it. */
  function RenameNode(v: View, nick: Id, name: Id): View
    requires nick in v.nodes
  {
    v.(owner := map j | j in v.owner :: if v.owner[j] == nick then name else v.owner[j],
       importing := map j | j in v.importing :: if v.importing[j] == nick then name else v.importing[j],
       nodes := map k | k in v.nodes.Keys - {nick} + {name} ::
         var i := if k == name then v.nodes[nick] else v.nodes[k];
         if i.slaveof == Some(nick) then i.(slaveof := Some(name)) else i)
  }

  /** The handshake with `nick` ended: it is called `name` and has a role. */
  function EndHandshakeOf(v: View, self: Id, nick: Id, name: Id, role: Role): View {
    if nick in v.nodes && v.nodes[nick].handshake && name !in v.nodes && nick != self
    then
      var d := RenameNode(v, nick, name);
      d.SetInfo(name, d.nodes[name].(handshake := false, role := role))
    else v
  }

  /** Commands and ticks that leave every epoch alone and send nothing. */
  function QuietCommand(s: NodeState, a: Action): NodeState {
    var v := s.view;
    match a
    case UpdateState => s.(size := |v.Electorate()|)
    case SetImporting(j, n) =>
      s.(view := v.(importing := if n.Some? then v.importing[j := n.value] else v.importing - {j}))
    case AddSlots(js) =>
      if js !! v.owner.Keys
      then s.(view := Assign(v, js, s.self).(importing := v.importing - js)) else s
    case DelSlots(js) =>
      if js <= v.owner.Keys
      then s.(view := v.(owner := map j | j in v.owner && j !in js :: v.owner[j],
                         importing := v.importing - js))
      else s
    case Replicate(n) =>
      if n in v.nodes && n != s.self && !v.IsSlave(n) && (v.IsMaster(s.self) ==> v.Bits(s.self) == {})
      then SetMaster(s, n) else s
    case Forget(n) =>
      if n in v.nodes && n != s.self && !(v.IsSlave(s.self) && v.SlaveOf(s.self) == Some(n))
      then s.(view := ForgetNode(v, n)) else s
    case SoftReset =>
      var v1 := SetNodeAsMaster(v, s.self);
      s.(view := View(map k | k in v1.nodes && k == s.self :: v1.nodes[k], map[], map[]),
         mfEnd := false, mfCanStart := false)
    case StartHandshake(n) =>
      if n in v.nodes then s
      else s.(view := v.SetInfo(n, NodeInfo(Unset, None, 0, true, false, 0)))
    case EndHandshake(nick, name, role) => s.(view := EndHandshakeOf(v, s.self, nick, name, role))
    case MarkFailed(n, on) =>
      if n in v.nodes then s.(view := v.SetInfo(n, v.nodes[n].(failed := on))) else s
    case ManualFailover(end, can) => s.(mfEnd := end, mfCanStart := can)
    case _ => s
  }

  function Command(s: NodeState, a: Action): (NodeState, set<Msg>) {
    var v := s.view;
    match a
    case Heartbeat(dst, ping) =>
      (s, if dst in v.nodes && dst != s.self then {Header(s, if ping then Ping else Pong, dst)} else {})
    case BroadcastFail(n) => (s, Broadcast(s, Fail(n)))
    case Takeover =>
      if v.IsMaster(s.self) || v.SlaveOf(s.self).None? then (s, {}) else ReplaceYourMaster(Bump(s))
    case SetSlotNode(j, n) =>
      if n !in v.nodes then (s, {}) else
      var s1 := if n == s.self && j in v.importing then Bump(s) else s;
      (s1.(view := Assign(s1.view, {j}, n).(importing := if n == s.self then v.importing - {j} else v.importing)), {})
    case SetConfigEpoch(e) =>
      if v.nodes.Keys == {s.self} && v.EpochOf(s.self) == 0
      then (s.(view := SetConfigEpochOf(v, s.self, e), currentEpoch := Max(s.currentEpoch, e)), {})
      else (s, {})
    case _ => (QuietCommand(s, a), {})
  }

  function Local(s: NodeState, a: Action): (NodeState, set<Msg>) {
    match a
    case Receive(m, env) => ProcessPacket(s, m, env)
    case Failover(env) => HandleSlaveFailover(s, env)
    case _ => Command(s, a)
  }

  // ---------------------------------------------------------------- the cluster

  /** All nodes and the packets in flight. */
  datatype Cluster = Cluster(nodes: map<Id, NodeState>, net: set<Msg>)

  /** Node `n` takes action `a`. A packet is taken off its TCP link when it is received;
      `again` lets a packet that is not a vote stay, so that identical packets sent
      twice, which the set merges, can be received twice. */
  predicate NodeStep(c: Cluster, c': Cluster, n: Id, a: Action, again: bool) {
    && n in c.nodes && c.nodes[n].alive
    && (a.Receive? ==> a.m in c.net && a.m.dst == n && (again ==> !a.m.kind.AuthAck?))
    && var (s', out) := Local(c.nodes[n], a);
    && c'.nodes == c.nodes[n := s']
    && c'.net == (if a.Receive? && !again then c.net - {a.m} else c.net) + out
  }

  /** A packet is lost with its link. */
  predicate Loses(c: Cluster, c': Cluster, m: Msg) {
    m in c.net && c' == c.(net := c.net - {m})
  }

  /** A freshly started cluster: each node knows itself only and all epochs are zero. */
  predicate Init(c: Cluster) {
    c.net == {} && forall n | n in c.nodes :: Fresh(c.nodes[n], n)
  }

  predicate Fresh(s: NodeState, n: Id) {
    s == NodeState(n, true, 0, 0, View(map[n := NodeInfo(Master, None, 0, false, false, 0)], map[], map[]),
                   1, Auth(0, 0, false, 0), false, false)
  }

  datatype Event = Act(n: Id, a: Action, again: bool) | Lose(m: Msg)

  predicate Next(c: Cluster, c': Cluster, e: Event) {
    match e
    case Act(n, a, again) => NodeStep(c, c', n, a, again)
    case Lose(m) => Loses(c, c', m)
  }

  /** A run: each event leads from one state to the next. No event restarts a node or
      resets its epochs. */
  predicate Run(cs: seq<Cluster>, es: seq<Event>) {
    && |cs| == |es| + 1 && Init(cs[0])
    && forall i | 0 <= i < |es| :: Next(cs[i], cs[i + 1], es[i])
  }
}
