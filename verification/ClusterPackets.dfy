/** clusterProcessPacket on the heap: the branches in the order of the source, each proved
    against the function of `ClusterModel` that the whole-run theorems are about. */
module ClusterPackets {
  import opened ClusterModel
  import opened ClusterServer
  import opened SlotBitmap

  /** The bitmap of a packet shares no memory with the server's. */
  ghost predicate Apart(st: ClusterState, claimed: array<bv8>)
    reads st
  {
    claimed.Length == SLOTS / 8 && claimed !in st.Bitmaps() && claimed as object != st.slots as object
  }

  // ---------------------------------------------------------------- PING, PONG and MEET

  /** Lines 1771-1805: the sender says whether it is a master or a slave. */
  method LearnRole(st: ClusterState, sender: ClusterNode, m: Msg)
    requires st.Valid() && st.Has(sender) && m.src == sender.name
    modifies sender`role, sender`slaveof, st.slots, st.nodes.Values`numslots, st.Bitmaps()
    ensures st.Valid() && st.Tables() == ClusterModel.LearnRole(old(st.Tables()), m)
    ensures m.slaveof.None? ==> sender.role == Master && (old(sender.role) != Master ==> sender.slaveof == null)
    ensures m.slaveof.Some? ==> sender.role != Master
    ensures m.slaveof.Some? ==>
              sender.slaveof == if m.slaveof.value in st.nodes then st.nodes[m.slaveof.value] else old(sender.slaveof)
    ensures forall j | 0 <= j < SLOTS ::
              st.slots[j] == if m.slaveof.Some? && old(sender.role) == Master && old(st.slots[j]) == sender then null
                             else old(st.slots[j])
  {
    hide BitsOf, Owned, OwnerMap, ImportMap, ClusterState.Agree, ClusterState.Shape, ClusterState.MastersKnown,
         ClusterState.ImportsKnown, ClusterState.Infos, ClusterModel.SetNodeAsMaster, ClusterModel.DelNodeSlots;
    st.Reads(sender);
    if m.slaveof.None? {
      st.SetNodeAsMaster(sender);
      return;
    }
    DemoteNode(st, sender);
    st.Reads(sender);
    st.InfosAll();
    if m.slaveof.value in st.nodes {
      var master := st.nodes[m.slaveof.value];
      st.KeyIsName(m.slaveof.value);
      SameMaster(st, sender, master);
      if sender.slaveof != master { SetSlaveOf(st, sender, master); }
    }
  }

  lemma SameMaster(st: ClusterState, n: ClusterNode, master: ClusterNode)
    requires st.Valid() && st.Has(n) && st.Has(master)
    ensures n.slaveof == master <==> n.slaveof != null && n.slaveof.name == master.name
  {
    hide BitsOf, Owned, OwnerMap, ImportMap, ClusterState.Agree, ClusterState.Shape, ClusterState.ImportsKnown;
    st.About(n);
    if n.slaveof != null { st.SameName(n.slaveof, master); }
  }

  /** A master that turned into a slave loses its slots. */
  method DemoteNode(st: ClusterState, n: ClusterNode)
    requires st.Valid() && st.Has(n)
    modifies n`role, st.slots, st.nodes.Values`numslots, st.Bitmaps()
    ensures st.Valid() && st.Tables() == Demote(old(st.Tables()), n.name) && st.Has(n)
    ensures n.role == (if old(n.role) == Master then Slave else old(n.role)) && n.slaveof == old(n.slaveof)
    ensures forall j | 0 <= j < SLOTS ::
              st.slots[j] == if old(n.role) == Master && old(st.slots[j]) == n then null else old(st.slots[j])
  {
    hide BitsOf, Owned, OwnerMap, ImportMap, ClusterState.Agree, ClusterState.Shape, ClusterState.MastersKnown,
         ClusterState.ImportsKnown, ClusterState.Infos, ClusterModel.DelNodeSlots, Rewritten;
    st.Reads(n);
    if n.role != Master { return; }
    OwnedRewritten(st.slots[..], n, null);
    st.DelNodeSlots(n);
    st.About(n);
    st.InfosAll();
    ghost var was := st.Infos();
    n.role := Slave;
    st.InfosUpdate(was, n);
  }

  method SetSlaveOf(st: ClusterState, n: ClusterNode, master: ClusterNode)
    requires st.Valid() && st.Has(n) && st.Has(master)
    modifies n`slaveof
    ensures st.Valid() && n.slaveof == master
    ensures st.Tables() == old(st.Tables()).SetInfo(n.name, old(n.Info()).(slaveof := Some(master.name)))
  {
    hide BitsOf, Owned, OwnerMap, ImportMap, ClusterState.Agree, ClusterState.Shape, ClusterState.ImportsKnown,
         ClusterState.Infos;
    st.About(n);
    st.InfosAll();
    ghost var was := st.Infos();
    n.slaveof := master;
    st.InfosUpdate(was, n);
  }

  /** memcmp of two bitmaps compares the sets they stand for. */
  lemma {:induction false} SameBitsSameBytes(a: seq<bv8>, b: seq<bv8>)
    requires |a| == |b| && BitsOf(a) == BitsOf(b)
    ensures a == b
  {
    forall i | 0 <= i < |a| ensures a[i] == b[i] {
      forall r | 0 <= r < 8 ensures BitAt(a, i, r) == BitAt(b, i, r) {
        assert (8 * i + r) / 8 == i && (8 * i + r) % 8 == r;
        assert 8 * i + r in BitsOf(a) <==> 8 * i + r in BitsOf(b);
      }
      SameByte(a[i], b[i], a, b, i);
    }
  }

  lemma SameByte(x: bv8, y: bv8, a: seq<bv8>, b: seq<bv8>, i: nat)
    requires i < |a| == |b| && a[i] == x && b[i] == y
    requires forall r | 0 <= r < 8 :: BitAt(a, i, r) == BitAt(b, i, r)
    ensures x == y
  {
    assert BitAt(a, i, 0) == BitAt(b, i, 0) && BitAt(a, i, 1) == BitAt(b, i, 1) && BitAt(a, i, 2) == BitAt(b, i, 2)
      && BitAt(a, i, 3) == BitAt(b, i, 3) && BitAt(a, i, 4) == BitAt(b, i, 4) && BitAt(a, i, 5) == BitAt(b, i, 5)
      && BitAt(a, i, 6) == BitAt(b, i, 6) && BitAt(a, i, 7) == BitAt(b, i, 7);
  }

  /** Does the claim differ from the sender's slots, or its master's? */
  method IsDirty(st: ClusterState, sender: ClusterNode, m: Msg, claimed: array<bv8>) returns (dirty: bool)
    requires st.Valid() && st.Has(sender) && m.src == sender.name && Apart(st, claimed) && Claims(claimed[..]) == m.slots
    ensures dirty == DirtySlots(st.Tables(), m)
  {
    hide BitsOf, Owned, OwnerMap, ImportMap, ClusterState.Agree, ClusterState.Shape, ClusterState.MastersKnown,
         ClusterState.ImportsKnown, ClusterState.Infos, View.Bits;
    st.Reads(sender);
    st.About(sender);
    var master := if sender.role == Master then sender else sender.slaveof;
    if master == null { return false; }
    st.About(master);
    OwnedIsBits(st.slots[..], master, st.Tables());
    dirty := master.slots[..] != claimed[..];
    if !dirty { return; }
    ClaimsDiffer(master.slots[..], claimed[..]);
  }

  lemma ClaimsDiffer(a: seq<bv8>, b: seq<bv8>)
    requires |a| == |b| == SLOTS / 8 && a != b
    ensures BitsOf(a) != Claims(b)
  {
    if BitsOf(a) == Claims(b) {
      assert BitsOf(b) == Claims(b);
      SameBitsSameBytes(a, b);
    }
  }

  /** Lines 1831-1832: a master whose claim changed. */
  method LearnSlots(st: ClusterState, sender: ClusterNode, m: Msg, claimed: array<bv8>, dirty: bool)
    requires st.Valid() && st.Has(sender) && m.src == sender.name && Apart(st, claimed) && Claims(claimed[..]) == m.slots
    requires dirty == DirtySlots(st.Tables(), m)
    modifies st`alive, st`mfEnd, st`mfCanStart, st.myself`role, st.myself`slaveof
    modifies st.slots, st.importing, st.nodes.Values`numslots, st.Bitmaps()
    ensures st.Valid() && st.Abs() == ClusterModel.LearnSlots(old(st.Abs()), m)
  {
    hide BitsOf, Owned, OwnerMap, ImportMap, ClusterState.Agree, ClusterState.Shape, ClusterState.MastersKnown,
         ClusterState.ImportsKnown, ClusterState.Infos, View.Bits, UpdateSlots, DirtySlots;
    st.Reads(sender);
    var e := if sender.handshake then 0 else m.configEpoch;
    if sender.role == Master && dirty { st.UpdateSlotsConfigWith(sender, e, claimed); }
  }

  /** The sender claims a slot that another node serves under a greater epoch. */
  ghost predicate InVain(st: ClusterState, sender: ClusterNode, m: Msg, j: Slot)
    requires st.slots.Length == SLOTS
    reads st, st.slots, sender, st.slots[j]
  {
    j in m.slots && st.slots[j] != null && st.slots[j] != sender &&
    st.slots[j].configEpoch > if sender.handshake then 0 else m.configEpoch
  }

  /** The packet is an UPDATE to the sender with the owner of slot j, which the sender claims
      in vain, its epoch and its slots. */
  ghost predicate Tells(st: ClusterState, sender: ClusterNode, m: Msg, j: Slot, x: Msg)
    requires st.slots.Length == SLOTS
    reads st, st.slots, sender, st.slots[j]
  {
    && InVain(st, sender, m, j)
    && x.dst == sender.name && x.kind.Update?
    && x.kind.about == st.slots[j].name && x.kind.epoch == st.slots[j].configEpoch
    && forall i: Slot :: i in x.kind.aboutSlots <==> st.slots[i] == st.slots[j]
  }

  /** Lines 1851-1874: the first slot claimed in vain. */
  method TellSender(st: ClusterState, sender: ClusterNode, m: Msg, dirty: bool) returns (sent: set<Msg>)
    requires st.Valid() && st.Has(sender) && m.src == sender.name
    ensures sent == ClusterModel.TellSender(st.Abs(), m, dirty)
    ensures sent == {} <==> !dirty || forall j: Slot :: !InVain(st, sender, m, j)
    ensures forall x | x in sent ::
              exists j: Slot :: Tells(st, sender, m, j, x) && forall i: Slot | i < j :: !InVain(st, sender, m, i)
  {
    hide BitsOf, Owned, OwnerMap, ImportMap, ClusterState.Agree, ClusterState.MastersKnown,
         ClusterState.ImportsKnown, ClusterState.Infos, View.Bits, Header, Outdated;
    if !dirty { return {}; }
    st.Reads(sender);
    var e := if sender.handshake then 0 else m.configEpoch;
    for j := 0 to SLOTS
      invariant forall i: Slot | i < j :: !Outdated(st.Abs(), m, i)
      invariant forall i: Slot | i < j :: !InVain(st, sender, m, i)
    {
      OutdatedIs(st, sender, m, j);
      if j in m.slots && st.slots[j] != null && st.slots[j] != sender && st.slots[j].configEpoch > e {
        var n := st.slots[j];
        FirstIs(st.Abs(), m, j);
        st.About(n);
        st.Reads(n);
        OwnedIsBits(st.slots[..], n, st.Tables());
        var bits := BitmapBits(n.slots);
        OwnedAll(st.slots[..], n);
        assert InVain(st, sender, m, j);
        var update := st.BuildMessageHdr(Update(n.name, n.configEpoch, bits), m.src);
        assert Tells(st, sender, m, j, update);
        return {update};
      }
    }
    return {};
  }

  lemma OutdatedIs(st: ClusterState, sender: ClusterNode, m: Msg, j: Slot)
    requires st.Valid() && st.Has(sender) && m.src == sender.name
    ensures st.slots.Length == SLOTS
    ensures Outdated(st.Abs(), m, j) <==>
              j in m.slots && st.slots[j] != null && st.slots[j] != sender
              && st.slots[j].configEpoch > (if sender.handshake then 0 else m.configEpoch)
    ensures st.slots[j] != null ==> st.Has(st.slots[j]) && st.Abs().view.owner[j] == st.slots[j].name
  {
    hide BitsOf, Owned, ImportMap, ClusterState.Agree, ClusterState.MastersKnown, ClusterState.ImportsKnown,
         ClusterState.Infos, View.Bits;
    st.Reads(sender);
    if st.slots[j] != null {
      st.Reads(st.slots[j]);
      st.SameName(st.slots[j], sender);
      assert st.Tables().owner[j] == st.slots[j].name;
    }
  }

  lemma FirstIs(s: NodeState, m: Msg, j: Slot)
    requires Outdated(s, m, j) && forall i: Slot | i < j :: !Outdated(s, m, i)
    ensures FirstOutdated(s, m, 0) == j
  {
    hide Outdated, FirstOutdated;
    var k := FirstOutdated(s, m, 0);
    assert k <= j;
  }

  /** Lines 1878-1885. */
  method LearnCollision(st: ClusterState, sender: ClusterNode, m: Msg)
    requires st.Valid() && st.Has(sender) && m.src == sender.name
    modifies st`currentEpoch, st.myself`configEpoch
    ensures st.Valid() && st.Abs() == ClusterModel.LearnCollision(old(st.Abs()), m)
  {
    hide BitsOf, Owned, OwnerMap, ImportMap, ClusterState.Agree, ClusterState.Shape, ClusterState.MastersKnown,
         ClusterState.ImportsKnown, ClusterState.Infos, View.Bits, HandleCollision;
    st.MyselfKnown();
    st.Reads(st.myself);
    st.Reads(sender);
    var e := if sender.handshake then 0 else m.configEpoch;
    if st.myself.role == Master && sender.role == Master && e == st.myself.configEpoch {
      st.HandleConfigEpochCollision(sender);
    }
  }

  /** A PING, PONG or MEET from a known node, from the role switch to the collision test. */
  method ProcessPing(st: ClusterState, sender: ClusterNode, m: Msg, claimed: array<bv8>) returns (sent: set<Msg>)
    requires st.Valid() && st.Has(sender) && m.src == sender.name && Apart(st, claimed) && Claims(claimed[..]) == m.slots
    modifies st`alive, st`mfEnd, st`mfCanStart, st`currentEpoch
    modifies st.nodes.Values`role, st.nodes.Values`slaveof, st.nodes.Values`configEpoch
    modifies st.slots, st.importing, st.nodes.Values`numslots, st.Bitmaps()
    ensures st.Valid() && (st.Abs(), sent) == ClusterModel.ProcessPing(old(st.Abs()), m)
  {
    hide BitsOf, Owned, OwnerMap, ImportMap, ClusterState.Agree, ClusterState.Shape, ClusterState.MastersKnown,
         ClusterState.ImportsKnown, ClusterState.Infos, View.Bits, ClusterModel.LearnRole,
         ClusterModel.LearnSlots, ClusterModel.LearnCollision, ClusterModel.TellSender, DirtySlots;
    st.MyselfKnown();
    st.Reads(sender);
    st.About(sender);
    st.About(st.myself);
    sent := {};
    LearnRole(st, sender, m);
    var dirty := IsDirty(st, sender, m, claimed);
    LearnSlots(st, sender, m, claimed, dirty);
    if !st.alive { return; }
    sent := TellSender(st, sender, m, dirty);
    LearnCollision(st, sender, m);
  }

  // ---------------------------------------------------------------- every packet

  /** FAIL */
  method ProcessFail(st: ClusterState, m: Msg)
    requires st.Valid() && m.kind.Fail? && m.src in st.nodes
    modifies st.nodes.Values`failed
    ensures st.Valid() && st.Abs() == ClusterModel.ProcessFail(old(st.Abs()), m)
    ensures forall k | k in st.nodes ::
              st.nodes[k].failed == (old(st.nodes[k].failed) || (k == m.kind.failing && k != st.myself.name))
  {
    hide BitsOf, Owned, OwnerMap, ImportMap, ClusterState.Agree, ClusterState.Shape, ClusterState.MastersKnown,
         ClusterState.ImportsKnown, ClusterState.Infos;
    st.InfosAll();
    if m.kind.failing !in st.nodes { return; }
    var failing := st.nodes[m.kind.failing];
    st.KeyIsName(m.kind.failing);
    st.MyselfKnown();
    st.SameName(failing, st.myself);
    if failing == st.myself { return; }
    st.About(failing);
    ghost var was := st.Infos();
    failing.failed := true;
    st.InfosUpdate(was, failing);
  }

  /** clusterProcessPacket, for a packet that passed the length checks; `claimed` is the
      bitmap of the header, or of an UPDATE's payload. Nodes that are not known are
      answered and otherwise ignored. */
  method ProcessPacket(st: ClusterState, m: Msg, claimed: array<bv8>, env: Env) returns (sent: set<Msg>)
    requires st.Valid() && Apart(st, claimed)
    requires Claims(claimed[..]) == if m.kind.Update? then m.kind.aboutSlots else m.slots
    modifies st`alive, st`mfEnd, st`mfCanStart, st`currentEpoch, st`lastVoteEpoch, st`authCount
    modifies st.nodes.Values`role, st.nodes.Values`slaveof, st.nodes.Values`configEpoch, st.nodes.Values`failed
    modifies st.slots, st.importing, st.nodes.Values`numslots, st.nodes.Values`votedTime, st.Bitmaps()
    ensures st.Valid() && (st.Abs(), sent) == ClusterModel.ProcessPacket(old(st.Abs()), m, env)
  {
    hide BitsOf, Owned, OwnerMap, ImportMap, ClusterState.Agree, ClusterState.Shape, ClusterState.MastersKnown,
         ClusterState.ImportsKnown, ClusterState.Infos, View.Bits, Header, ClusterModel.ProcessPacket;
    st.InfosAll();
    StrangerIgnored(st.Abs(), m, env);
    if m.src in st.nodes {
      st.KnownKey(m.src);
      sent := ProcessPacketFrom(st, st.nodes[m.src], m, claimed, env);
    } else if m.kind.Ping? || m.kind.Meet? {
      var pong := st.BuildMessageHdr(Pong, m.src);
      sent := {pong};
    } else {
      sent := {};
    }
  }

  /** A packet of an unknown node changes nothing. */
  lemma StrangerIgnored(s: NodeState, m: Msg, env: Env)
    ensures m.src !in s.view.nodes ==>
              ClusterModel.ProcessPacket(s, m, env) == (s, if m.kind.Ping? || m.kind.Meet? then {Header(s, Pong, m.src)} else {})
  {
    hide Header;
    assert {Header(s, Pong, m.src)} + {} == {Header(s, Pong, m.src)};
  }

  /** A packet of a known node. */
  method ProcessPacketFrom(st: ClusterState, sender: ClusterNode, m: Msg, claimed: array<bv8>, env: Env) returns (sent: set<Msg>)
    requires st.Valid() && st.Has(sender) && m.src == sender.name && Apart(st, claimed)
    requires Claims(claimed[..]) == if m.kind.Update? then m.kind.aboutSlots else m.slots
    modifies st`alive, st`mfEnd, st`mfCanStart, st`currentEpoch, st`lastVoteEpoch, st`authCount
    modifies st.nodes.Values`role, st.nodes.Values`slaveof, st.nodes.Values`configEpoch, st.nodes.Values`failed
    modifies st.slots, st.importing, st.nodes.Values`numslots, st.nodes.Values`votedTime, st.Bitmaps()
    ensures st.Valid() && (st.Abs(), sent) == ClusterModel.ProcessPacket(old(st.Abs()), m, env)
  {
    hide BitsOf, Owned, OwnerMap, ImportMap, ClusterState.Agree, ClusterState.Shape, ClusterState.MastersKnown,
         ClusterState.ImportsKnown, ClusterState.Infos, View.Bits, Header, ClusterModel.ProcessPing,
         ClusterModel.ProcessFail, ClusterModel.SendFailoverAuthIfNeeded, ProcessAck, ProcessUpdate, LearnHeader;
    st.About(sender);
    st.ReceiveHeader(sender, m);
    st.Reads(sender);
    sent := {};
    match m.kind
    case Ping | Meet =>
      var pong := st.BuildMessageHdr(Pong, m.src);
      sent := ProcessPing(st, sender, m, claimed);
      sent := {pong} + sent;
    case Pong => sent := ProcessPing(st, sender, m, claimed);
    case Fail(_) => ProcessFail(st, m);
    case AuthRequest => sent := st.SendFailoverAuthIfNeeded(sender, m, env);
    case AuthAck => st.ReceiveAck(sender, m);
    case Update(_, _, _) => st.ReceiveUpdate(sender, m, claimed);
  }
}
