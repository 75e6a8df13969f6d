/** What a packet may do to slot ownership, read off the model's handlers. */
module ClusterSlots {
  import opened ClusterModel
  import ClusterEpochs

  /** A config update moves exactly the claimed slots that are not being imported and were
      free or held under a lower epoch; nothing else changes hands. */
  lemma UpdateRebindsExactly(s: NodeState, sender: Id, e: nat, slots: set<Slot>, j: Slot)
    requires sender != s.self
    ensures var r := UpdateSlots(s, sender, e, slots);
            r.view.OwnerOf(j) != s.view.OwnerOf(j) <==>
              && j in slots && j !in s.view.importing && s.view.OwnerOf(j) != Some(sender)
              && (j !in s.view.owner || s.view.EpochOf(s.view.owner[j]) < e)
    ensures var r := UpdateSlots(s, sender, e, slots);
            r.view.OwnerOf(j) != s.view.OwnerOf(j) ==> r.view.OwnerOf(j) == Some(sender)
  {
    hide CurMaster;
  }

  /** The recorded epoch of an owned slot's owner strictly rises when a packet from a known
      node moves the slot to another owner. */
  predicate RisesIfMoved(s: NodeState, s': NodeState, j: Slot) {
    j in s.view.owner && j in s'.view.owner && s'.view.owner[j] != s.view.owner[j] ==>
      s'.view.EpochOf(s'.view.owner[j]) > s.view.EpochOf(s.view.owner[j])
  }

  lemma UpdateRises(s: NodeState, sender: Id, e: nat, slots: set<Slot>, j: Slot)
    requires sender in s.view.nodes && e <= s.view.EpochOf(sender)
    ensures RisesIfMoved(s, UpdateSlots(s, sender, e, slots), j)
    ensures var r := UpdateSlots(s, sender, e, slots);
            j in r.view.owner && (j !in s.view.owner || r.view.owner[j] != s.view.owner[j]) ==> r.view.owner[j] == sender
  {
    hide SetMaster, UpdateSlots;
    if sender != s.self { UpdateRebindsExactly(s, sender, e, slots, j); } else { SelfUpdate(s, e, slots); }
    ClusterEpochs.UpdateSlotsOnlySlots(s, sender, e, slots);
  }

  lemma SelfUpdate(s: NodeState, e: nat, slots: set<Slot>)
    ensures UpdateSlots(s, s.self, e, slots) == s
  {
  }

  /** A node that is known and not in handshake. */
  predicate KnownSender(s: NodeState, m: Msg) {
    m.src in s.view.nodes && !s.view.nodes[m.src].handshake
  }

  /** Epochs only rise from `s` to `s'`. */
  predicate EpochsRise(s: NodeState, s': NodeState) {
    forall n | n in s.view.nodes :: n in s'.view.nodes && s.view.nodes[n].configEpoch <= s'.view.nodes[n].configEpoch
  }

  lemma HeaderRises(s: NodeState, m: Msg)
    requires KnownSender(s, m)
    ensures var s1 := LearnHeader(s, m);
            && s1.view.owner == s.view.owner && KnownSender(s1, m) && EpochsRise(s, s1)
            && m.configEpoch <= s1.view.EpochOf(m.src) && s1.self == s.self
            && SenderConfigEpoch(s1, m) == m.configEpoch
  {
  }

  lemma RoleRises(s: NodeState, m: Msg, j: Slot)
    requires KnownSender(s, m)
    ensures var v := LearnRole(s.view, m);
            && (j in v.owner ==> j in s.view.owner && v.owner[j] == s.view.owner[j])
            && (j in s.view.owner && j !in v.owner ==> !v.IsMaster(m.src))
            && KnownSender(s.(view := v), m) && EpochsRise(s, s.(view := v))
            && v.EpochOf(m.src) == s.view.EpochOf(m.src)
  {
  }

  lemma CollisionRises(s: NodeState, m: Msg)
    requires s.view.EpochOf(s.self) <= s.currentEpoch
    ensures LearnCollision(s, m).view.owner == s.view.owner && EpochsRise(s, LearnCollision(s, m))
  {
  }

  lemma RisesThen(s0: NodeState, s1: NodeState, s2: NodeState, s3: NodeState, j: Slot)
    requires EpochsRise(s0, s1) && RisesIfMoved(s1, s2, j) && EpochsRise(s2, s3)
    requires j in s1.view.owner ==> j in s0.view.owner && s1.view.owner[j] == s0.view.owner[j]
    requires j in s0.view.owner && j !in s1.view.owner ==> j !in s2.view.owner
    requires s3.view.owner == s2.view.owner
    requires j in s0.view.owner ==> s0.view.owner[j] in s0.view.nodes
    ensures RisesIfMoved(s0, s3, j)
  {
    if j in s2.view.owner && j in s1.view.owner && s2.view.owner[j] != s1.view.owner[j] {
      assert s2.view.owner[j] in s2.view.nodes;
    }
  }

  lemma LearnSlotsRises(s: NodeState, m: Msg, j: Slot)
    requires KnownSender(s, m) && m.configEpoch <= s.view.EpochOf(m.src)
    ensures RisesIfMoved(s, LearnSlots(s, m), j)
    ensures j in LearnSlots(s, m).view.owner && j !in s.view.owner ==> s.view.IsMaster(m.src)
  {
    hide UpdateSlots, DirtySlots;
    UpdateRises(s, m.src, m.configEpoch, m.slots, j);
  }

  lemma OwnBelow(s: NodeState, s2: NodeState)
    requires ClusterEpochs.Dominates(s) && ClusterEpochs.OnlySlots(s, s2)
    ensures s2.view.EpochOf(s2.self) <= s2.currentEpoch
  {
  }

  lemma PingRises(s: NodeState, m: Msg, j: Slot)
    requires KnownSender(s, m) && ClusterEpochs.Dominates(s) && m.configEpoch <= s.view.EpochOf(m.src)
    requires j in s.view.owner ==> s.view.owner[j] in s.view.nodes
    ensures RisesIfMoved(s, ProcessPing(s, m).0, j)
  {
    hide LearnRole, LearnSlots, DirtySlots, TellSender, LearnCollision, ClusterEpochs.Dominates,
         ClusterEpochs.OnlySlots, EpochsRise, RisesIfMoved;
    var s1 := s.(view := LearnRole(s.view, m));
    var s2 := LearnSlots(s1, m);
    RoleRises(s, m, j);
    LearnSlotsRises(s1, m, j);
    ClusterEpochs.LearnRoleOnlySlots(s, m);
    ClusterEpochs.LearnSlotsOnlySlots(s1, m);
    OnlySlotsThen(s, s1, s2);
    OwnBelow(s, s2);
    CollisionRises(s2, m);
    RiseRefl(s2);
    RisesThen(s, s1, s2, ProcessPing(s, m).0, j);
  }

  lemma OnlySlotsThen(s: NodeState, s1: NodeState, s2: NodeState)
    requires ClusterEpochs.OnlySlots(s, s1) && ClusterEpochs.OnlySlots(s1, s2)
    ensures ClusterEpochs.OnlySlots(s, s2)
  {
  }

  lemma RiseRefl(s: NodeState)
    ensures EpochsRise(s, s)
  {
  }

  lemma UpdatePacketRises(s: NodeState, m: Msg, j: Slot)
    requires m.kind.Update? && (j in s.view.owner ==> s.view.owner[j] in s.view.nodes)
    ensures RisesIfMoved(s, ProcessUpdate(s, m), j)
  {
    hide UpdateSlots, EpochsRise, RisesIfMoved;
    var n := m.kind.about;
    if m.src in s.view.nodes && n in s.view.nodes && s.view.nodes[n].configEpoch < m.kind.epoch {
      var s1 := s.(view := Promote(s.view, n, m.kind.epoch));
      PromoteRises(s, n, m.kind.epoch);
      UpdateRises(s1, n, m.kind.epoch, m.kind.aboutSlots, j);
      var s2 := UpdateSlots(s1, n, m.kind.epoch, m.kind.aboutSlots);
      RiseRefl(s2);
      RisesThen(s, s1, s2, s2, j);
    } else {
      NotMoved(s, j);
    }
  }

  lemma PromoteRises(s: NodeState, n: Id, e: nat)
    requires n in s.view.nodes && s.view.nodes[n].configEpoch < e
    ensures EpochsRise(s, s.(view := Promote(s.view, n, e)))
  {
  }

  lemma NotMoved(s: NodeState, j: Slot)
    ensures RisesIfMoved(s, s, j)
  {
  }

  /** Whatever packet a known node sends: if it moves a slot from one owner to another, the
      recorded epoch of the slot's owner strictly rises. */
  lemma PacketRaisesOwnerEpoch(s: NodeState, m: Msg, env: Env, j: Slot)
    requires KnownSender(s, m) && ClusterEpochs.Dominates(s) && ClusterEpochs.Honest(m)
    requires j in s.view.owner ==> s.view.owner[j] in s.view.nodes
    ensures RisesIfMoved(s, ProcessPacket(s, m, env).0, j)
  {
    hide ProcessPing, ProcessUpdate, SendFailoverAuthIfNeeded, LearnHeader, EpochsRise, ClusterEpochs.Dominates,
         ClusterEpochs.Honest, SenderConfigEpoch, RisesIfMoved, KnownSender;
    var s1 := LearnHeader(s, m);
    HeaderRises(s, m);
    ClusterEpochs.LearnHeaderKeeps(s, m);
    HeaderKnows(s, m, j);
    var s2 := ProcessPacket(s, m, env).0;
    match m.kind
    case Ping => PingRises(s1, m, j); RiseRefl(s2); RisesThen(s, s1, s2, s2, j);
    case Pong => PingRises(s1, m, j); RiseRefl(s2); RisesThen(s, s1, s2, s2, j);
    case Meet => PingRises(s1, m, j); RiseRefl(s2); RisesThen(s, s1, s2, s2, j);
    case Update(_, _, _) => UpdatePacketRises(s1, m, j); RiseRefl(s2); RisesThen(s, s1, s2, s2, j);
    case Fail(_) => SameOwner(s, s2, j);
    case AuthRequest => VoteOwner(s1, m, env); SameOwner(s, s2, j);
    case AuthAck => SameOwner(s, s2, j);
  }

  lemma HeaderKnows(s: NodeState, m: Msg, j: Slot)
    requires KnownSender(s, m)
    ensures LearnHeader(s, m).view.nodes.Keys == s.view.nodes.Keys
  {
  }

  lemma VoteOwner(s: NodeState, m: Msg, env: Env)
    ensures SendFailoverAuthIfNeeded(s, m, env).0.view.owner == s.view.owner
  {
  }

  lemma SameOwner(s: NodeState, s': NodeState, j: Slot)
    requires s'.view.owner == s.view.owner
    ensures RisesIfMoved(s, s', j)
  {
  }
}
