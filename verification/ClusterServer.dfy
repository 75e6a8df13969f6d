/** The imperative side of cluster.c: node records and slot tables on the heap, updated in
    place. Every method is proved against the function of `ClusterModel` that the whole
    run theorems are about, and keeps the two slot tables in agreement. */
module ClusterServer {
  import opened ClusterModel
  import opened SlotBitmap

  /** clusterNode */
  class ClusterNode {
    const name: Id
    var role: Role
    var slaveof: ClusterNode?
    var configEpoch: nat
    var handshake: bool
    var failed: bool
    var votedTime: int
    const slots: array<bv8>
    var numslots: int

    /** createClusterNode: no slots, epoch zero. */
    constructor (name: Id, handshake: bool)
      ensures this.name == name && this.handshake == handshake && slaveof == null && role == Unset
      ensures configEpoch == 0 && !failed && votedTime == 0 && numslots == 0
      ensures fresh(slots) && slots.Length == SLOTS / 8 && BitsOf(slots[..]) == {}
    {
      this.name, this.handshake := name, handshake;
      role, slaveof, configEpoch, failed, votedTime, numslots := Unset, null, 0, false, 0, 0;
      slots := new bv8[SLOTS / 8](_ => 0);
      new;
      assert forall j | 0 <= j < SLOTS :: !TestBit(slots[..], j);
    }

    ghost function Info(): NodeInfo
      reads this`role, this`slaveof, this`configEpoch, this`handshake, this`failed, this`votedTime
    {
      NodeInfo(role, if slaveof == null then None else Some(slaveof.name), configEpoch, handshake, failed, votedTime)
    }

    /** The bitmap and its population count describe the set `js`. */
    ghost predicate Serves(js: set<nat>)
      reads this`numslots, slots
    {
      BitsOf(slots[..]) == js && numslots == |js|
    }
  }

  /** The slots that the table `t` gives to `n`. */
  ghost function Owned(t: seq<ClusterNode?>, n: ClusterNode?): set<nat> {
    set j | 0 <= j < |t| && t[j] == n
  }

  lemma OwnedUpdate(t: seq<ClusterNode?>, slot: nat, n: ClusterNode?, m: ClusterNode?)
    requires slot < |t|
    ensures Owned(t[slot := n], m) == if m == n then Owned(t, m) + {slot} else Owned(t, m) - {slot}
  {
  }

  lemma NotOwned(t: seq<ClusterNode?>, slot: nat, m: ClusterNode?)
    requires slot < |t| && t[slot] != m
    ensures Owned(t, m) - {slot} == Owned(t, m)
  {
  }

  lemma IsOwned(t: seq<ClusterNode?>, slot: nat, n: ClusterNode?)
    requires slot < |t|
    ensures slot in Owned(t, n) <==> t[slot] == n
  {
  }

  lemma OwnedAll(t: seq<ClusterNode?>, n: ClusterNode?)
    ensures forall j: nat :: j in Owned(t, n) <==> j < |t| && t[j] == n
  {
  }

  ghost function OwnerMap(t: seq<ClusterNode?>): map<Slot, Id> {
    map j: Slot | j < |t| && t[j] != null :: t[j].name
  }

  ghost function ImportMap(t: seq<ClusterNode?>): map<Slot, Id> { OwnerMap(t) }

  lemma OwnedInRange(t: seq<ClusterNode?>, n: ClusterNode?)
    ensures forall j | j in Owned(t, n) :: j < |t|
  {
  }

  /** Every pointer of `t` with the name of `n` is `n`. */
  ghost predicate Unambiguous(t: seq<ClusterNode?>, n: ClusterNode) {
    forall j | 0 <= j < |t| && t[j] != null :: t[j].name == n.name ==> t[j] == n
  }

  /** `t` with the slots `js` given to `n`, or taken from everybody. */
  ghost function Rewritten(t: seq<ClusterNode?>, js: set<nat>, n: ClusterNode?): seq<ClusterNode?> {
    seq(|t|, i requires 0 <= i < |t| => if i in js then n else t[i])
  }

  /** `Rewritten` for the slots of `js` below `j`: where a scan of the table has got to. */
  ghost function Upto(t: seq<ClusterNode?>, js: set<nat>, n: ClusterNode?, j: nat): seq<ClusterNode?> {
    Rewritten(t, (set i | i in js && i < j), n)
  }

  lemma OwnedRewritten(t: seq<ClusterNode?>, m: ClusterNode?, n: ClusterNode?)
    ensures forall j | 0 <= j < |t| :: Rewritten(t, Owned(t, m), n)[j] == if t[j] == m then n else t[j]
  {
  }

  lemma RewrittenAt(t: seq<ClusterNode?>, js: set<nat>, n: ClusterNode?)
    ensures |Rewritten(t, js, n)| == |t|
    ensures forall j | 0 <= j < |t| :: Rewritten(t, js, n)[j] == if j in js then n else t[j]
  {
  }

  lemma UptoStep(t: seq<ClusterNode?>, js: set<nat>, n: ClusterNode?, j: nat)
    requires j < |t|
    ensures |Upto(t, js, n, j)| == |t| && Upto(t, js, n, j)[j] == t[j]
    ensures Upto(t, js, n, j + 1) == if j in js then Upto(t, js, n, j)[j := n] else Upto(t, js, n, j)
  {
  }

  lemma UptoEnds(t: seq<ClusterNode?>, js: set<nat>, n: ClusterNode?)
    requires forall j | j in js :: j < |t|
    ensures Upto(t, js, n, 0) == t && Upto(t, js, n, |t|) == Rewritten(t, js, n)
  {
    assert (set i | i in js && i < |t|) == js;
  }

  lemma OwnerMapAssigned(t: seq<ClusterNode?>, js: set<nat>, n: ClusterNode, v: View)
    requires |t| == SLOTS && (forall j | j in js :: j < SLOTS) && v.owner == OwnerMap(t)
    ensures OwnerMap(Rewritten(t, js, n)) == Assign(v, js, n.name).owner
  {
  }

  lemma AssignedView(t: seq<ClusterNode?>, js: set<nat>, n: ClusterNode, v: View)
    requires |t| == SLOTS && (forall j | j in js :: j < SLOTS) && v.owner == OwnerMap(t)
    ensures Assign(v, js, n.name) == v.(owner := OwnerMap(Rewritten(t, js, n)))
  {
  }

  lemma OwnerMapCleared(t: seq<ClusterNode?>, n: ClusterNode, v: View)
    requires |t| == SLOTS && Unambiguous(t, n) && v.owner == OwnerMap(t)
    ensures OwnerMap(Rewritten(t, Owned(t, n), null)) == ClusterModel.DelNodeSlots(v, n.name).owner
  {
  }

  lemma OwnedIsBits(t: seq<ClusterNode?>, n: ClusterNode, v: View)
    requires |t| == SLOTS && Unambiguous(t, n) && v.owner == OwnerMap(t)
    ensures Owned(t, n) == v.Bits(n.name)
  {
  }

  /** The slots claimed by the bitmap of a packet. */
  ghost function Claims(b: seq<bv8>): set<Slot> { set j: Slot | j in BitsOf(b) }

  /** The table entry `owner` of slot j goes to a sender that claims j under epoch `e`. */
  ghost predicate Yields(owner: ClusterNode?, importing: ClusterNode?, sender: ClusterNode, e: nat)
    reads if owner == null then {} else {owner}
  {
    owner != sender && importing == null && (owner == null || owner.configEpoch < e)
  }

  /** clusterNodeSetSlotBit: returns the old value of the bit. */
  method SetSlotBit(n: ClusterNode, slot: nat) returns (was: bool)
    requires slot < SLOTS && n.slots.Length == SLOTS / 8 && n.Serves(BitsOf(n.slots[..]))
    modifies n`numslots, n.slots
    ensures was == (slot in old(BitsOf(n.slots[..])))
    ensures n.Serves(old(BitsOf(n.slots[..])) + {slot})
  {
    hide BitsOf;
    was := BitmapTestBit(n.slots, slot);
    BitmapSetBit(n.slots, slot);
    if !was { n.numslots := n.numslots + 1; }
  }

  /** clusterNodeClearSlotBit: returns the old value of the bit. */
  method ClearSlotBit(n: ClusterNode, slot: nat) returns (was: bool)
    requires slot < SLOTS && n.slots.Length == SLOTS / 8 && n.Serves(BitsOf(n.slots[..]))
    modifies n`numslots, n.slots
    ensures was == (slot in old(BitsOf(n.slots[..])))
    ensures n.Serves(old(BitsOf(n.slots[..])) - {slot})
  {
    hide BitsOf;
    was := BitmapTestBit(n.slots, slot);
    BitmapClearBit(n.slots, slot);
    if was { n.numslots := n.numslots - 1; }
  }

  /** clusterState */
  class ClusterState {
    var myself: ClusterNode
    var alive: bool
    var currentEpoch: nat
    var lastVoteEpoch: nat
    var nodes: map<Id, ClusterNode>
    const slots: array<ClusterNode?>
    const importing: array<ClusterNode?>
    var size: nat
    var authTime: int
    var authCount: nat
    var authSent: bool
    var authEpoch: nat
    var mfEnd: bool
    var mfCanStart: bool

    ghost predicate Has(n: ClusterNode?)
      reads this`nodes
    {
      n != null && n.name in nodes && nodes[n.name] == n
    }

    ghost function Bitmaps(): set<array<bv8>>
      reads this`nodes
    {
      set k | k in nodes :: nodes[k].slots
    }

    /** The pointers of the dictionary and of the slot table are consistent. */
    ghost predicate Shape()
      reads this`nodes, this`myself, slots
    {
      && slots.Length == SLOTS && importing.Length == SLOTS && slots != importing
      && Has(myself)
      && (forall k | k in nodes :: nodes[k].name == k && nodes[k].slots.Length == SLOTS / 8)
      && (forall k, l | k in nodes && l in nodes && k != l :: nodes[k].slots != nodes[l].slots)
      && (forall b | b in Bitmaps() :: b as object != slots as object && b as object != importing as object)
      && (forall j | 0 <= j < SLOTS && slots[j] != null :: Has(slots[j]))
    }

    ghost predicate MastersKnown()
      reads this`nodes, nodes.Values`slaveof
    {
      forall k | k in nodes && nodes[k].slaveof != null :: Has(nodes[k].slaveof)
    }

    ghost predicate ImportsKnown()
      reads this`nodes, importing
    {
      forall j | 0 <= j < importing.Length && importing[j] != null :: Has(importing[j])
    }

    /** The two redundant tables agree: `slots[j] == n` exactly when bit j of the bitmap
        of n is set, and `numslots` is the bitmap's population. */
    ghost predicate Agree()
      reads this`nodes, slots, nodes.Values`numslots, Bitmaps()
    {
      forall k | k in nodes :: nodes[k].Serves(Owned(slots[..], nodes[k]))
    }

    ghost predicate Valid()
      reads this`nodes, this`myself, slots, importing, nodes.Values`slaveof, nodes.Values`numslots, Bitmaps()
    {
      Shape() && MastersKnown() && ImportsKnown() && Agree()
    }

    ghost function Infos(): map<Id, NodeInfo>
      reads this`nodes, nodes.Values`role, nodes.Values`slaveof, nodes.Values`configEpoch,
            nodes.Values`handshake, nodes.Values`failed, nodes.Values`votedTime
    {
      map k | k in nodes :: nodes[k].Info()
    }

    ghost function Tables(): View
      reads this`nodes, nodes.Values`role, nodes.Values`slaveof, nodes.Values`configEpoch,
            nodes.Values`handshake, nodes.Values`failed, nodes.Values`votedTime, slots, importing
    {
      View(Infos(), OwnerMap(slots[..]), ImportMap(importing[..]))
    }

    ghost function AuthState(): Auth
      reads this`authTime, this`authCount, this`authSent, this`authEpoch
    {
      Auth(authTime, authCount, authSent, authEpoch)
    }

    ghost function Abs(): NodeState
      reads this, slots, importing, nodes.Values, myself
    {
      NodeState(myself.name, alive, currentEpoch, lastVoteEpoch, Tables(), size, AuthState(), mfEnd, mfCanStart)
    }

    /** clusterInit without a saved configuration. */
    constructor (name: Id)
      ensures Valid() && Fresh(Abs(), name)
      ensures fresh(slots) && fresh(importing) && fresh(myself) && fresh(myself.slots)
    {
      hide BitsOf, Owned, Shape, Agree, MastersKnown, ImportsKnown, Tables;
      var me := new ClusterNode(name, false);
      me.role := Master;
      myself, alive, currentEpoch, lastVoteEpoch, nodes := me, true, 0, 0, map[name := me];
      slots := new ClusterNode?[SLOTS](_ => null);
      importing := new ClusterNode?[SLOTS](_ => null);
      size, authTime, authCount, authSent, authEpoch, mfEnd, mfCanStart := 1, 0, 0, false, 0, false, false;
      new;
      FreshTables(me);
      assert AuthState() == Auth(0, 0, false, 0);
    }

    lemma FreshTables(me: ClusterNode)
      requires slots.Length == SLOTS && importing.Length == SLOTS && slots != importing && nodes == map[me.name := me]
      requires forall j | 0 <= j < SLOTS :: slots[j] == null && importing[j] == null
      requires me == myself && me.slots.Length == SLOTS / 8 && BitsOf(me.slots[..]) == {} && me.numslots == 0
      requires me.slots as object != slots as object && me.slots as object != importing as object
      requires me.Info() == NodeInfo(Master, None, 0, false, false, 0) && me.slaveof == null
      ensures Valid() && Tables() == View(map[me.name := NodeInfo(Master, None, 0, false, false, 0)], map[], map[])
    {
      hide BitsOf;
      assert Owned(slots[..], me) == {};
    }

    // ---------------------------------------------------------------- slots

    /** Bitmaps share no memory with anything else. */
    lemma Apart()
      requires Shape()
      ensures forall b | b in Bitmaps() :: b as object != slots as object && b as object != importing as object
      ensures forall b | b in Bitmaps() :: b as object != this as object
      ensures forall b, k | b in Bitmaps() && k in nodes :: b as object != nodes[k] as object
    {
    }

    /** What the invariant says about one node. */
    lemma About(n: ClusterNode)
      requires Valid() && Has(n)
      ensures slots.Length == SLOTS && n.slots.Length == SLOTS / 8 && importing.Length == SLOTS && slots != importing
      ensures n.slots in Bitmaps() && n in nodes.Values && nodes[n.name] == n
      ensures forall k | k in nodes && k != n.name :: nodes[k] != n && nodes[k].slots != n.slots
      ensures n.Serves(Owned(slots[..], n)) && Unambiguous(slots[..], n)
      ensures n.slaveof != null ==> Has(n.slaveof)
    {
      hide BitsOf, Owned;
    }

    /** The table was `before`; slot `slot` went to `n`, and the bitmaps of its old and new
        owner followed: the tables agree again. */
    lemma Rebind(before: seq<ClusterNode?>, slot: nat, n: ClusterNode?)
      requires slot < |before| && slots[..] == before[slot := n]
      requires forall k | k in nodes && nodes[k] != before[slot] && nodes[k] != n ::
                 nodes[k].Serves(Owned(before, nodes[k]))
      requires before[slot] != null && before[slot] != n ==>
                 before[slot].Serves(Owned(before, before[slot]) - {slot})
      requires n != null ==> n.Serves(Owned(before, n) + {slot})
      ensures Agree()
    {
      hide Owned, BitsOf;
      forall k | k in nodes ensures nodes[k].Serves(Owned(slots[..], nodes[k])) {
        OwnedUpdate(before, slot, n, nodes[k]);
        if before[slot] != nodes[k] { NotOwned(before, slot, nodes[k]); }
      }
    }

    /** clusterAddSlot: refuses a slot that is taken. */
    method AddSlot(n: ClusterNode, slot: nat) returns (ok: bool)
      requires Valid() && Has(n) && slot < SLOTS
      modifies slots, n`numslots, n.slots
      ensures Valid() && ok == (old(slots[slot]) == null) && importing[..] == old(importing[..])
      ensures slots[..] == if ok then old(slots[..])[slot := n] else old(slots[..])
    {
      hide Owned, BitsOf;
      Apart();
      if slots[slot] != null { return false; }
      ghost var before := slots[..];
      assert n.Serves(Owned(before, n));
      var was := SetSlotBit(n, slot);
      slots[slot] := n;
      Rebind(before, slot, n);
      ok := true;
    }

    /** clusterDelSlot: refuses a slot that is free. Its assertion, that the owner's bit was
        set, cannot fail. */
    method DelSlot(slot: nat) returns (ok: bool)
      requires Valid() && slot < SLOTS
      modifies slots, nodes.Values`numslots, Bitmaps()
      ensures Valid() && ok == (old(slots[slot]) != null)
      ensures slots[..] == old(slots[..])[slot := null] && importing[..] == old(importing[..])
    {
      hide Owned, BitsOf;
      var n := slots[slot];
      ghost var before := slots[..];
      if n == null { return false; }
      assert n.Serves(Owned(before, n));
      IsOwned(before, slot, n);
      var was := ClearSlotBit(n, slot);
      assert was;
      slots[slot] := null;
      Rebind(before, slot, null);
      ok := true;
    }

    /** clusterDelNodeSlots */
    method DelNodeSlots(n: ClusterNode)
      requires Valid() && Has(n)
      modifies slots, nodes.Values`numslots, Bitmaps()
      ensures Valid()
      ensures slots[..] == Rewritten(old(slots[..]), Owned(old(slots[..]), n), null)
      ensures Tables() == ClusterModel.DelNodeSlots(old(Tables()), n.name)
    {
      hide BitsOf, Owned, Upto, Rewritten, OwnerMap, Shape, Agree, Infos, Unambiguous;
      About(n);
      ghost var before, mine, view := slots[..], Owned(slots[..], n), Tables();
      OwnedInRange(before, n);
      UptoEnds(before, mine, null);
      OwnerMapCleared(before, n, view);
      for j := 0 to SLOTS
        invariant Valid() && Has(n)
        invariant slots[..] == Upto(before, mine, null, j) && importing[..] == old(importing[..])
      {
        UptoStep(before, mine, null, j);
        About(n);
        IsOwned(slots[..], j, n);
        IsOwned(before, j, n);
        var mineStill := BitmapTestBit(n.slots, j);
        if mineStill {
          var ok := DelSlot(j);
        }
      }
    }

    // ---------------------------------------------------------------- roles

    lemma InfosAll()
      ensures Infos().Keys == nodes.Keys
      ensures forall k | k in nodes :: Infos()[k] == nodes[k].Info()
    {
    }

    /** One record changed. */
    lemma InfosUpdate(was: map<Id, NodeInfo>, n: ClusterNode)
      requires Has(n) && was.Keys == nodes.Keys
      requires forall k | k in nodes && k != n.name :: nodes[k].Info() == was[k]
      ensures Infos() == was[n.name := n.Info()]
    {
      assert Infos().Keys == nodes.Keys;
      assert forall k | k in nodes :: Infos()[k] == nodes[k].Info();
    }

    /** clusterSetNodeAsMaster */
    method SetNodeAsMaster(n: ClusterNode)
      requires Valid() && Has(n)
      modifies n`role, n`slaveof
      ensures Valid() && Tables() == ClusterModel.SetNodeAsMaster(old(Tables()), n.name)
      ensures n.role == Master && n.slaveof == if old(n.role) == Master then old(n.slaveof) else null
    {
      hide BitsOf, Owned, OwnerMap, Agree, Infos, Shape;
      About(n);
      ghost var was := Infos();
      InfosAll();
      if n.role == Master { return; }
      n.role := Master;
      n.slaveof := null;
      InfosUpdate(was, n);
    }

    /** clusterCloseAllSlots, for the importing table. */
    method CloseAllSlots()
      requires importing.Length == SLOTS
      modifies importing
      ensures ImportMap(importing[..]) == map[] && forall j | 0 <= j < SLOTS :: importing[j] == null
    {
      forall j | 0 <= j < SLOTS { importing[j] := null; }
    }

    lemma CountOf(n: ClusterNode)
      requires Valid() && Has(n)
      ensures n.numslots == |Tables().Bits(n.name)|
      ensures n.numslots == 0 <==> Tables().Bits(n.name) == {}
    {
      hide BitsOf, Owned, OwnerMap, View.Bits, Infos, ImportMap;
      About(n);
      OwnedIsBits(slots[..], n, Tables());
    }

    /** The flags, the closed slots and the master of clusterSetMaster. */
    method Enslave(n: ClusterNode)
      requires Valid() && Has(n)
      modifies importing, myself`role, myself`slaveof
      ensures Valid() && Tables() == ClusterModel.Enslave(old(Tables()), myself.name, n.name)
      ensures myself.slaveof == n && myself.role == if old(myself.role) == Master then Slave else old(myself.role)
      ensures if old(myself.role) == Master then forall j | 0 <= j < SLOTS :: importing[j] == null
              else importing[..] == old(importing[..])
    {
      hide BitsOf, Owned, OwnerMap, ImportMap, Shape, Agree, Infos, Unambiguous;
      MyselfKnown();
      Apart();
      About(myself);
      InfosAll();
      ghost var was := Infos();
      if myself.role == Master {
        CloseAllSlots();
        myself.role := Slave;
      }
      myself.slaveof := n;
      InfosUpdate(was, myself);
    }

    /** This node, alive as before, is a replica of `n` and, if it was a master, imports no
        slots. */
    ghost predicate Follows(lived: bool, was: Role, imports: seq<ClusterNode?>, n: ClusterNode)
      reads this`alive, this`mfEnd, this`mfCanStart, this`myself, myself`role, myself`slaveof, importing
    {
      && alive == lived && myself.role != Master && myself.slaveof == n && !mfEnd && !mfCanStart
      && if was == Master then forall j | 0 <= j < importing.Length :: importing[j] == null else importing[..] == imports
    }

    /** clusterSetMaster; a failed assertion ends the process. */
    method SetMaster(n: ClusterNode)
      requires Valid() && Has(n)
      modifies this`alive, this`mfEnd, this`mfCanStart, importing, myself`role, myself`slaveof
      ensures Valid() && Abs() == ClusterModel.SetMaster(old(Abs()), n.name)
      ensures if n == myself || myself.numslots != 0
              then !alive && myself.role == old(myself.role) && myself.slaveof == old(myself.slaveof)
                   && importing[..] == old(importing[..])
              else Follows(old(alive), old(myself.role), old(importing[..]), n)
    {
      hide BitsOf, Owned, OwnerMap, ImportMap, Shape, Agree, Infos, View.Bits, Unambiguous, ClusterModel.Enslave,
           MastersKnown, ImportsKnown;
      MyselfKnown();
      Apart();
      CountOf(myself);
      About(myself);
      SameName(n, myself);
      InfosAll();
      if n == myself || myself.numslots != 0 {
        alive := false;
      } else {
        Enslave(n);
        mfEnd, mfCanStart := false, false;
      }
    }

    lemma MyselfKnown()
      requires Shape()
      ensures Has(myself)
    {
    }

    lemma SameName(n: ClusterNode, m: ClusterNode)
      requires Has(n) && Has(m)
      ensures n == m <==> n.name == m.name
    {
    }

    // ---------------------------------------------------------------- configuration updates

    /** One slot of the loop of clusterUpdateSlotsConfigWith. */
    lemma ReboundAt(js: set<Slot>, sender: ClusterNode, e: nat, j: nat)
      requires Valid() && Has(sender) && j < SLOTS
      ensures j in Rebound(Tables(), sender.name, e, js) <==>
                j in js && Yields(slots[j], importing[j], sender, e)
      ensures slots[j] != null ==> Has(slots[j])
    {
      hide BitsOf, Owned, Agree;
      if slots[j] != null {
        assert Tables().owner[j] == slots[j].name;
        assert Tables().nodes[slots[j].name] == slots[j].Info();
      }
    }

    lemma ReboundAll(js: set<Slot>, sender: ClusterNode, e: nat)
      requires Valid() && Has(sender)
      ensures slots.Length == SLOTS
      ensures forall j | 0 <= j < SLOTS ::
                && (j in Rebound(Tables(), sender.name, e, js) <==>
                      j in js && Yields(slots[j], importing[j], sender, e))
                && (slots[j] != null ==> Has(slots[j]))
    {
      hide BitsOf, Owned, Agree, Shape, MastersKnown, ImportsKnown, Tables, Yields;
      About(sender);
      forall j | 0 <= j < SLOTS
        ensures j in Rebound(Tables(), sender.name, e, js) <==> j in js && Yields(slots[j], importing[j], sender, e)
        ensures slots[j] != null ==> Has(slots[j])
      {
        ReboundAt(js, sender, e, j);
      }
    }

    lemma OwnerAt(cur: ClusterNode?, j: nat)
      requires Valid() && j < SLOTS && (cur != null ==> Has(cur))
      ensures slots[j] == cur <==> Tables().OwnerOf(j) == (if cur == null then None else Some(cur.name))
    {
      hide BitsOf, Owned, Agree, Infos;
    }

    lemma CurMasterIs(cur: ClusterNode?)
      requires Valid() && cur == if myself.role == Master then myself else myself.slaveof
      ensures CurMaster(Abs()) == (if cur == null then None else Some(cur.name))
      ensures cur != null ==> Has(cur)
    {
      hide BitsOf, Owned, Agree;
    }

    /** The loop of clusterUpdateSlotsConfigWith: did `cur` lose a slot? */
    method ScanClaims(sender: ClusterNode, e: nat, claimed: array<bv8>, cur: ClusterNode?) returns (newmaster: bool)
      requires Valid() && Has(sender) && (cur != null ==> Has(cur))
      requires claimed.Length == SLOTS / 8 && claimed !in Bitmaps() && claimed as object != slots as object
      modifies slots, nodes.Values`numslots, Bitmaps()
      ensures Valid() && importing[..] == old(importing[..])
      ensures slots[..] ==
                Rewritten(old(slots[..]), Rebound(old(Tables()), sender.name, e, Claims(old(claimed[..]))), sender)
      ensures newmaster <==>
                exists j | j in Rebound(old(Tables()), sender.name, e, Claims(old(claimed[..]))) :: old(slots[..])[j] == cur
      ensures forall j | 0 <= j < SLOTS ::
                slots[j] == if j in Claims(old(claimed[..])) && old(slots[j]) != sender && importing[j] == null &&
                               (old(slots[j]) == null || old(slots[j].configEpoch) < e)
                            then sender else old(slots[j])
      ensures newmaster <==> exists j :: 0 <= j < SLOTS && old(slots[..])[j] == cur && slots[j] != old(slots[..])[j]
    {
      hide BitsOf, Owned, OwnerMap, ImportMap, Shape, Agree, MastersKnown, ImportsKnown, Infos, Upto, Rewritten,
           Rebound;
      Apart();
      About(sender);
      ghost var before, js := slots[..], Rebound(Tables(), sender.name, e, Claims(claimed[..]));
      UptoEnds(before, js, sender);
      RewrittenAt(before, js, sender);
      ReboundAll(Claims(claimed[..]), sender, e);
      newmaster := false;
      for j := 0 to SLOTS
        invariant Valid() && importing[..] == old(importing[..]) && claimed[..] == old(claimed[..])
        invariant forall k | k in nodes :: nodes[k].configEpoch == old(nodes[k].configEpoch)
        invariant slots[..] == Upto(before, js, sender, j)
        invariant newmaster <==> exists i | i in js && i < j :: before[i] == cur
      {
        UptoStep(before, js, sender, j);
        Apart();
        var claims := BitmapTestBit(claimed, j);
        if claims && slots[j] != sender && importing[j] == null {
          if slots[j] == null || slots[j].configEpoch < e {
            assert j in js;
            if slots[j] == cur { newmaster := true; }
            var ok := DelSlot(j);
            ok := AddSlot(sender, j);
          }
        }
      }
    }

    /** How the table after the loop reads in the model. */
    lemma ScanIsModel(t: seq<ClusterNode?>, s: NodeState, sender: ClusterNode, e: nat, js: set<Slot>, cur: ClusterNode?,
                      newmaster: bool)
      requires |t| == SLOTS && s.view.owner == OwnerMap(t)
      requires forall j | 0 <= j < SLOTS :: t[j] == cur <==> s.view.OwnerOf(j) == CurMaster(s)
      requires newmaster <==> exists j | j in Rebound(s.view, sender.name, e, js) :: t[j] == cur
      ensures Assign(s.view, Rebound(s.view, sender.name, e, js), sender.name) ==
              s.view.(owner := OwnerMap(Rewritten(t, Rebound(s.view, sender.name, e, js), sender)))
      ensures newmaster <==> !(forall j | j in Rebound(s.view, sender.name, e, js) :: s.view.OwnerOf(j) != CurMaster(s))
    {
      hide Rebound, CurMaster, OwnerMap, Rewritten, s.view.OwnerOf;
      OwnerMapAssigned(t, Rebound(s.view, sender.name, e, js), sender, s.view);
    }

    /** clusterUpdateSlotsConfigWith. The keys of lost slots are not part of this model. */
    method UpdateSlotsConfigWith(sender: ClusterNode, e: nat, claimed: array<bv8>)
      requires Valid() && Has(sender)
      requires claimed.Length == SLOTS / 8 && claimed !in Bitmaps() && claimed as object != slots as object
      modifies this`alive, this`mfEnd, this`mfCanStart, myself`role, myself`slaveof
      modifies slots, importing, nodes.Values`numslots, Bitmaps()
      ensures Valid()
      ensures Abs() == UpdateSlots(old(Abs()), sender.name, e, Claims(old(claimed[..])))
      ensures forall j | 0 <= j < SLOTS ::
                slots[j] == if sender != myself && j in Claims(old(claimed[..])) && old(slots[j]) != sender &&
                               old(importing[j]) == null && (old(slots[j]) == null || old(slots[j].configEpoch) < e)
                            then sender else old(slots[j])
      ensures var cur := if old(myself.role) == Master then myself else old(myself.slaveof);
              var lost := exists j :: 0 <= j < SLOTS && old(slots[..])[j] == cur && slots[j] != old(slots[..])[j];
              if !lost || (cur != null && exists j :: 0 <= j < SLOTS && slots[j] == cur)
              then Stays(old(alive), old(myself.role), old(myself.slaveof), old(importing[..]))
              else if cur == null || exists j :: 0 <= j < SLOTS && slots[j] == myself
              then !alive && Stays(alive, old(myself.role), old(myself.slaveof), old(importing[..]))
              else Follows(old(alive), old(myself.role), old(importing[..]), sender)
    {
      hide BitsOf, Owned, OwnerMap, ImportMap, Shape, Agree, MastersKnown, ImportsKnown, Infos, Rewritten,
           Rebound, CurMaster, Assign, ClusterModel.SetMaster, View.Bits, View.OwnerOf, Follows, Stays;
      Apart();
      MyselfKnown();
      SameName(sender, myself);
      About(sender);
      StaysPut();
      if sender == myself { return; }
      var cur := if myself.role == Master then myself else myself.slaveof;
      CurMasterIs(cur);
      ghost var s, before := Abs(), slots[..];
      forall j | 0 <= j < SLOTS ensures before[j] == cur <==> s.view.OwnerOf(j) == CurMaster(s) { OwnerAt(cur, j); }
      var newmaster := ScanClaims(sender, e, claimed, cur);
      ScanIsModel(before, s, sender, e, Claims(old(claimed[..])), cur, newmaster);
      if newmaster { FollowNewOwner(sender, cur); } else { StaysPut(); }
    }

    /** What follows the loss of a slot of `cur`, the server or its master. */
    method FollowNewOwner(sender: ClusterNode, cur: ClusterNode?)
      requires Valid() && Has(sender) && sender != myself && (cur != null ==> Has(cur))
      modifies this`alive, this`mfEnd, this`mfCanStart, importing, myself`role, myself`slaveof
      ensures Valid()
      ensures Abs() == if cur == null then old(Abs()).(alive := false)
                       else if old(Abs()).view.Bits(cur.name) == {} then ClusterModel.SetMaster(old(Abs()), sender.name)
                       else old(Abs())
      ensures if cur != null && exists j :: 0 <= j < SLOTS && slots[j] == cur
              then Stays(old(alive), old(myself.role), old(myself.slaveof), old(importing[..]))
              else if cur == null || exists j :: 0 <= j < SLOTS && slots[j] == myself
              then !alive && Stays(alive, old(myself.role), old(myself.slaveof), old(importing[..]))
              else Follows(old(alive), old(myself.role), old(importing[..]), sender)
    {
      hide BitsOf, Owned, OwnerMap, ImportMap, Shape, Agree, MastersKnown, ImportsKnown, Infos,
           ClusterModel.SetMaster, View.Bits;
      MyselfKnown();
      Apart();
      NumslotsTells(myself);
      if cur == null {
        alive := false;
      } else {
        CountOf(cur);
        NumslotsTells(cur);
        if cur.numslots == 0 { SetMaster(sender); }
      }
    }

    /** Role, master and imports are what they were. */
    ghost predicate Stays(lived: bool, was: Role, master: ClusterNode?, imports: seq<ClusterNode?>)
      reads this`alive, this`myself, myself`role, myself`slaveof, importing
    {
      alive == lived && myself.role == was && myself.slaveof == master && importing[..] == imports
    }

    lemma StaysPut()
      ensures Stays(alive, myself.role, myself.slaveof, importing[..])
    {
    }

    lemma NumslotsTells(n: ClusterNode)
      requires Valid() && Has(n)
      ensures slots.Length == SLOTS
      ensures n.numslots != 0 <==> exists j :: 0 <= j < SLOTS && slots[j] == n
    {
      hide BitsOf;
      About(n);
      if j :| 0 <= j < SLOTS && slots[j] == n { assert j in Owned(slots[..], n); }
    }

    // ---------------------------------------------------------------- removing a node

    /** Step 1 of clusterDelNode: no entry of either table points to `n` any more. */
    method UnassignNode(n: ClusterNode)
      requires Valid() && Has(n)
      modifies slots, importing, nodes.Values`numslots, Bitmaps()
      ensures Valid()
      ensures slots[..] == Rewritten(old(slots[..]), Owned(old(slots[..]), n), null)
      ensures importing[..] == Rewritten(old(importing[..]), Owned(old(importing[..]), n), null)
    {
      hide BitsOf, Owned, OwnerMap, Upto, Rewritten, Shape, Agree, MastersKnown, Infos, Unambiguous;
      About(n);
      ghost var before, mine := slots[..], Owned(slots[..], n);
      ghost var imports, theirs := importing[..], Owned(importing[..], n);
      OwnedInRange(before, n);
      OwnedInRange(imports, n);
      UptoEnds(before, mine, null);
      UptoEnds(imports, theirs, null);
      for j := 0 to SLOTS
        invariant Valid() && Has(n)
        invariant slots[..] == Upto(before, mine, null, j) && importing[..] == Upto(imports, theirs, null, j)
      {
        UptoStep(before, mine, null, j);
        UptoStep(imports, theirs, null, j);
        IsOwned(before, j, n);
        IsOwned(imports, j, n);
        Apart();
        if importing[j] == n { importing[j] := null; }
        About(n);
        if slots[j] == n { var ok := DelSlot(j); }
      }
    }

    lemma RecordsDistinct()
      requires Shape()
      ensures forall k, l | k in nodes && l in nodes && k != l :: nodes[k] != nodes[l]
    {
    }

    /** The slaves of a freed node have no master any more (freeClusterNode). */
    method OrphanSlaves(n: ClusterNode)
      requires Valid() && Has(n)
      modifies nodes.Values`slaveof
      ensures Valid()
      ensures forall k | k in nodes ::
                nodes[k].slaveof == (if old(nodes[k].slaveof) == n then null else old(nodes[k].slaveof))
    {
      hide BitsOf, Owned, OwnerMap, Agree, Infos, ImportsKnown, Shape;
      Apart();
      RecordsDistinct();
      var rest := nodes.Keys;
      while rest != {}
        invariant rest <= nodes.Keys && Shape() && Agree() && ImportsKnown()
        invariant forall k | k in nodes ::
                    nodes[k].slaveof == (if k !in rest && old(nodes[k].slaveof) == n then null else old(nodes[k].slaveof))
        decreases |rest|
      {
        var k :| k in rest;
        rest := rest - {k};
        if nodes[k].slaveof == n { nodes[k].slaveof := null; }
      }
    }

    /** The same, as the records read. */
    method Orphan(n: ClusterNode)
      requires Valid() && Has(n)
      modifies nodes.Values`slaveof
      ensures Valid() && forall k | k in nodes :: nodes[k].slaveof != n
      ensures forall k | k in nodes ::
                nodes[k].slaveof == (if old(nodes[k].slaveof) == n then null else old(nodes[k].slaveof))
      ensures forall k | k in nodes ::
                nodes[k].Info() == var i := old(nodes[k].Info()); if i.slaveof == Some(n.name) then i.(slaveof := None) else i
    {
      hide BitsOf, Owned, OwnerMap, ImportMap, Agree, Infos, Shape, ImportsKnown, MastersKnown;
      MasterNames(n);
      OrphanSlaves(n);
    }

    /** The dictionary entry goes last, when nothing points to the node. */
    method Unlink(n: ClusterNode)
      requires Valid() && Has(n) && n != myself
      requires forall k | k in nodes :: nodes[k].slaveof != n
      requires forall j | 0 <= j < SLOTS :: slots[j] != n && importing[j] != n
      modifies this`nodes
      ensures Valid() && nodes == old(nodes) - {n.name}
    {
      hide BitsOf, Owned;
      nodes := nodes - {n.name};
    }

    lemma ImportMapCleared(n: ClusterNode)
      requires Valid() && Has(n)
      ensures ImportMap(Rewritten(importing[..], Owned(importing[..], n), null)) ==
              map j | j in Tables().importing && Tables().importing[j] != n.name :: Tables().importing[j]
    {
      hide Infos, BitsOf, Agree;
    }

    lemma NoneLeft(t: seq<ClusterNode?>, n: ClusterNode)
      ensures forall j | 0 <= j < |t| :: Rewritten(t, Owned(t, n), null)[j] != n
    {
    }

    /** How the records read after the node is gone. */
    lemma InfosForget(v: View, n: ClusterNode, before: map<Id, ClusterNode>)
      requires nodes == before - {n.name} && v.nodes.Keys == before.Keys && n.name in before
      requires forall k | k in nodes ::
                 nodes[k].Info() == if v.nodes[k].slaveof == Some(n.name) then v.nodes[k].(slaveof := None) else v.nodes[k]
      ensures Infos() == ForgetNode(v, n.name).nodes
    {
      assert Infos().Keys == ForgetNode(v, n.name).nodes.Keys;
    }

    lemma MasterNames(n: ClusterNode)
      requires Valid() && Has(n)
      ensures forall k | k in nodes :: nodes[k].slaveof == n <==> nodes[k].Info().slaveof == Some(n.name)
    {
      hide BitsOf, Owned, Agree, ImportsKnown;
    }

    /** Step 3 of clusterDelNode, once the tables do not name the node. */
    method FreeNode(n: ClusterNode)
      requires Valid() && Has(n) && n != myself
      requires forall j | 0 <= j < SLOTS :: slots[j] != n && importing[j] != n
      modifies this`nodes, nodes.Values`slaveof
      ensures Valid() && Infos() == ForgetNode(old(Tables()), n.name).nodes && nodes == old(nodes) - {n.name}
      ensures forall k | k in nodes ::
                nodes[k].slaveof == (if old(nodes[k].slaveof) == n then null else old(nodes[k].slaveof))
    {
      hide BitsOf, Owned, OwnerMap, ImportMap, Agree, Infos, Shape, ImportsKnown, MastersKnown, ForgetNode,
           Unambiguous, ClusterNode.Serves;
      About(n);
      Apart();
      InfosAll();
      ghost var v, before := Tables(), nodes;
      Orphan(n);
      Unlink(n);
      InfosForget(v, n, before);
    }

    /** clusterDelNode. Failure reports are not part of these tables. */
    method DelNode(n: ClusterNode)
      requires Valid() && Has(n) && n != myself
      modifies this`nodes, slots, importing, nodes.Values`numslots, nodes.Values`slaveof, Bitmaps()
      ensures Valid() && Tables() == ForgetNode(old(Tables()), n.name)
      ensures nodes == old(nodes) - {n.name}
      ensures forall j | 0 <= j < SLOTS :: slots[j] == if old(slots[j]) == n then null else old(slots[j])
      ensures forall j | 0 <= j < SLOTS :: importing[j] == if old(importing[j]) == n then null else old(importing[j])
      ensures forall k | k in nodes ::
                nodes[k].slaveof == (if old(nodes[k].slaveof) == n then null else old(nodes[k].slaveof))
    {
      hide BitsOf, Owned, OwnerMap, ImportMap, Agree, Infos, Unambiguous, Rewritten, Shape, ImportsKnown,
           MastersKnown, ClusterModel.DelNodeSlots;
      About(n);
      Apart();
      ghost var v := Tables();
      OwnerMapCleared(slots[..], n, v);
      ImportMapCleared(n);
      NoneLeft(slots[..], n);
      NoneLeft(importing[..], n);
      OwnedRewritten(slots[..], n, null);
      OwnedRewritten(importing[..], n, null);
      UnassignNode(n);
      Apart();
      ForgetParts(v, Tables(), n.name);
      FreeNode(n);
    }

    lemma ForgetParts(v: View, v1: View, n: Id)
      requires v1.nodes == v.nodes && v1.owner == ClusterModel.DelNodeSlots(v, n).owner
      requires v1.importing == map j | j in v.importing && v.importing[j] != n :: v.importing[j]
      ensures ForgetNode(v, n) == v1.(nodes := ForgetNode(v1, n).nodes)
    {
    }

    // ---------------------------------------------------------------- taking over a master

    /** The loop of clusterFailoverReplaceYourMaster: this node gets the slots of `from`. */
    method ClaimSlotsOf(from: ClusterNode)
      requires Valid() && Has(from)
      modifies slots, nodes.Values`numslots, Bitmaps()
      ensures Valid() && importing[..] == old(importing[..])
      ensures slots[..] == Rewritten(old(slots[..]), Owned(old(slots[..]), from), myself)
    {
      hide BitsOf, Owned, OwnerMap, ImportMap, Shape, Agree, MastersKnown, ImportsKnown, Infos, Upto, Rewritten;
      MyselfKnown();
      ghost var before, js := slots[..], Owned(slots[..], from);
      OwnedInRange(before, from);
      UptoEnds(before, js, myself);
      About(from);
      for j := 0 to SLOTS
        invariant Valid() && importing[..] == old(importing[..])
        invariant slots[..] == Upto(before, js, myself, j)
      {
        UptoStep(before, js, myself, j);
        Apart();
        About(from);
        IsOwned(slots[..], j, from);
        IsOwned(before, j, from);
        var theirs := BitmapTestBit(from.slots, j);
        if theirs {
          var ok := DelSlot(j);
          ok := AddSlot(myself, j);
        }
      }
    }

    /** Steps 1 and 2 of clusterFailoverReplaceYourMaster. */
    method ReplaceMaster(oldmaster: ClusterNode)
      requires Valid() && Has(oldmaster)
      modifies myself`role, myself`slaveof, slots, nodes.Values`numslots, Bitmaps()
      ensures Valid() && Tables() == TakeOver(old(Tables()), myself.name, oldmaster.name)
      ensures myself.role == Master && (old(myself.role) != Master ==> myself.slaveof == null)
      ensures importing[..] == old(importing[..])
      ensures forall j | 0 <= j < SLOTS :: slots[j] == if old(slots[j]) == oldmaster then myself else old(slots[j])
    {
      hide BitsOf, Owned, OwnerMap, ImportMap, Shape, Agree, MastersKnown, ImportsKnown, Infos, Rewritten, Assign,
           ClusterModel.SetNodeAsMaster, View.Bits, Unambiguous;
      Apart();
      MyselfKnown();
      About(oldmaster);
      ghost var v, js := Tables(), Owned(slots[..], oldmaster);
      OwnedIsBits(slots[..], oldmaster, v);
      OwnedInRange(slots[..], oldmaster);
      SetNodeAsMaster(myself);
      AssignedView(slots[..], js, myself, Tables());
      OwnedRewritten(slots[..], oldmaster, myself);
      ClaimSlotsOf(oldmaster);
    }

    /** clusterFailoverReplaceYourMaster, up to the packets it sends. */
    method FailoverReplaceYourMaster()
      requires Valid()
      modifies this`mfEnd, this`mfCanStart, myself`role, myself`slaveof, slots, nodes.Values`numslots, Bitmaps()
      ensures Valid() && Abs() == ReplaceYourMaster(old(Abs())).0
      ensures var former := old(myself.slaveof);
              if old(myself.role) == Master || former == null
              then myself.role == old(myself.role) && myself.slaveof == former && slots[..] == old(slots[..])
              else && myself.role == Master && myself.slaveof == null && !mfEnd && !mfCanStart
                   && forall j | 0 <= j < SLOTS :: slots[j] == if old(slots[j]) == former then myself else old(slots[j])
    {
      hide BitsOf, Owned, OwnerMap, ImportMap, Shape, Agree, MastersKnown, ImportsKnown, Infos, TakeOver,
           Broadcast, Unambiguous;
      Apart();
      MyselfKnown();
      var oldmaster := myself.slaveof;
      IsSlaveIs(myself.role != Master && oldmaster != null);
      if myself.role == Master || oldmaster == null { return; }
      About(myself);
      Reads(myself);
      ReplaceMaster(oldmaster);
      mfEnd, mfCanStart := false, false;
    }

    // ---------------------------------------------------------------- epochs and votes

    /** What the model reads in the record of `n`. */
    lemma Reads(n: ClusterNode)
      requires Valid() && Has(n)
      ensures var v := Tables();
              && n.name in v.nodes && v.nodes[n.name] == n.Info()
              && (v.IsMaster(n.name) <==> n.role == Master) && (v.IsSlave(n.name) <==> n.role == Slave)
              && v.EpochOf(n.name) == n.configEpoch && (v.Failed(n.name) <==> n.failed)
              && v.SlaveOf(n.name) == (if n.slaveof == null then None else Some(n.slaveof.name))
    {
      hide BitsOf, Owned, OwnerMap, ImportMap, Agree, Shape, MastersKnown, ImportsKnown;
    }

    /** clusterGetMaxEpoch: the greatest epoch in view. */
    method GetMaxEpoch() returns (max: nat)
      requires Valid()
      ensures AboveAll(Abs(), max)
      ensures max == currentEpoch || exists k :: k in nodes && nodes[k].configEpoch == max
    {
      hide BitsOf, Owned, OwnerMap, ImportMap, Agree, Shape, MastersKnown, ImportsKnown;
      max := 0;
      var rest := nodes.Keys;
      while rest != {}
        invariant rest <= nodes.Keys
        invariant forall k | k in nodes.Keys - rest :: nodes[k].configEpoch <= max
        invariant max == 0 || exists k :: k in nodes && nodes[k].configEpoch == max
        decreases |rest|
      {
        var k :| k in rest;
        rest := rest - {k};
        if nodes[k].configEpoch > max { max := nodes[k].configEpoch; }
      }
      if max < currentEpoch { max := currentEpoch; }
    }

    /** `currentEpoch++; myself->configEpoch = currentEpoch`, which three handlers do. */
    method TakeNextEpoch()
      requires Valid()
      modifies this`currentEpoch, myself`configEpoch
      ensures Valid() && Abs() == NextEpoch(old(Abs()))
      ensures myself.configEpoch == currentEpoch == old(currentEpoch) + 1
    {
      hide BitsOf, Owned, OwnerMap, ImportMap, Agree, Shape, MastersKnown, ImportsKnown, Infos;
      MyselfKnown();
      Apart();
      About(myself);
      InfosAll();
      ghost var was := Infos();
      currentEpoch := currentEpoch + 1;
      myself.configEpoch := currentEpoch;
      InfosUpdate(was, myself);
    }

    /** clusterBumpConfigEpochWithoutConsensus */
    method BumpConfigEpochWithoutConsensus() returns (bumped: bool)
      requires Valid()
      modifies this`currentEpoch, myself`configEpoch
      ensures Valid() && Abs() == Bump(old(Abs()))
      ensures bumped <==> Abs() != old(Abs())
      ensures !bumped <==> && old(myself.configEpoch) > 0 && old(currentEpoch) <= old(myself.configEpoch)
                           && forall k | k in nodes :: old(nodes[k].configEpoch) <= old(myself.configEpoch)
      ensures if bumped then myself.configEpoch == currentEpoch == old(currentEpoch) + 1
              else myself.configEpoch == old(myself.configEpoch) && currentEpoch == old(currentEpoch)
    {
      hide BitsOf, Owned, OwnerMap, ImportMap, Agree, Shape, MastersKnown, ImportsKnown, AboveAll, Infos, NextEpoch;
      MyselfKnown();
      Apart();
      Reads(myself);
      var maxEpoch := GetMaxEpoch();
      MaxIffAbove(maxEpoch);
      NextEpochDiffers(Abs());
      bumped := myself.configEpoch == 0 || myself.configEpoch != maxEpoch;
      if bumped { TakeNextEpoch(); }
    }

    lemma MaxIffAbove(max: nat)
      requires Valid() && AboveAll(Abs(), max)
      requires max == currentEpoch || exists k :: k in nodes && nodes[k].configEpoch == max
      ensures myself.configEpoch == max <==> AboveAll(Abs(), myself.configEpoch)
      ensures myself.configEpoch == max <==>
                currentEpoch <= myself.configEpoch && forall k | k in nodes :: nodes[k].configEpoch <= myself.configEpoch
    {
      hide BitsOf, Owned, OwnerMap, ImportMap, Agree, MastersKnown, ImportsKnown;
      InfosAll();
      assert myself.name in nodes;
    }

    /** clusterHandleConfigEpochCollision */
    method HandleConfigEpochCollision(sender: ClusterNode)
      requires Valid() && Has(sender)
      modifies this`currentEpoch, myself`configEpoch
      ensures Valid() && Abs() == HandleCollision(old(Abs()), sender.name)
      ensures if old(myself.role) == Master && sender.role == Master && old(sender.configEpoch) == old(myself.configEpoch)
                 && myself.name < sender.name
              then myself.configEpoch == currentEpoch == old(currentEpoch) + 1
              else myself.configEpoch == old(myself.configEpoch) && currentEpoch == old(currentEpoch)
    {
      hide BitsOf, Owned, OwnerMap, ImportMap, Agree, Shape, MastersKnown, ImportsKnown, Infos, NextEpoch;
      MyselfKnown();
      Reads(myself);
      Reads(sender);
      if sender.configEpoch != myself.configEpoch || sender.role != Master || myself.role != Master { return; }
      if sender.name <= myself.name { return; }
      TakeNextEpoch();
    }

    /** clusterBuildMessageHdr */
    method BuildMessageHdr(kind: Kind, dst: Id) returns (m: Msg)
      requires Valid()
      ensures m == Header(Abs(), kind, dst)
      ensures m.kind == kind && m.src == myself.name && m.dst == dst && m.currentEpoch == currentEpoch
      ensures var speaksFor := if myself.role == Slave && myself.slaveof != null then myself.slaveof else myself;
              m.configEpoch == speaksFor.configEpoch && forall j: Slot :: j in m.slots <==> slots[j] == speaksFor
      ensures m.slaveof == if myself.slaveof == null then None else Some(myself.slaveof.name)
      ensures m.forceAck <==> kind.AuthRequest? && mfEnd
    {
      hide BitsOf, Owned, OwnerMap, ImportMap, Agree, Shape, MastersKnown, ImportsKnown, Infos, View.Bits;
      MyselfKnown();
      Reads(myself);
      About(myself);
      var master := if myself.role == Slave && myself.slaveof != null then myself.slaveof else myself;
      About(master);
      Reads(master);
      OwnedIsBits(slots[..], master, Tables());
      var bits := BitmapBits(master.slots);
      OwnedAll(slots[..], master);
      m := Msg(kind, myself.name, dst, currentEpoch, master.configEpoch, bits,
               if myself.slaveof == null then None else Some(myself.slaveof.name), kind.AuthRequest? && mfEnd);
    }

    /** The last test of clusterSendFailoverAuthIfNeeded: no claimed slot is served under a
        greater epoch than the claim. */
    method ClaimIsCurrent(m: Msg) returns (ok: bool)
      requires Valid()
      ensures ok <==> forall j | j in m.slots && j in Tables().owner ::
                        Tables().EpochOf(Tables().owner[j]) <= m.configEpoch
      ensures ok <==> forall j | j in m.slots && slots[j] != null :: slots[j].configEpoch <= m.configEpoch
    {
      hide BitsOf, Owned, ImportMap, Agree, MastersKnown, ImportsKnown, Infos, View.EpochOf;
      for j := 0 to SLOTS
        invariant forall i: Slot | i < j && i in m.slots && i in Tables().owner ::
                    Tables().EpochOf(Tables().owner[i]) <= m.configEpoch
        invariant forall i: Slot | i < j && i in m.slots && slots[i] != null :: slots[i].configEpoch <= m.configEpoch
      {
        if slots[j] != null {
          Reads(slots[j]);
          assert Tables().owner[j] == slots[j].name;
          if j in m.slots && slots[j].configEpoch > m.configEpoch { return false; }
        }
      }
      ok := true;
    }

    /** The tests of clusterSendFailoverAuthIfNeeded. */
    method DeservesVote(node: ClusterNode, m: Msg, env: Env) returns (granted: bool)
      requires Valid() && Has(node) && m.src == node.name
      ensures granted == Votes(Abs(), m, env)
      ensures granted <==>
                && myself.role != Slave && myself.numslots != 0
                && m.currentEpoch >= currentEpoch && lastVoteEpoch != currentEpoch
                && node.role != Master && node.slaveof != null
                && (node.slaveof.failed || m.forceAck)
                && env.now - node.slaveof.votedTime >= 2 * env.nodeTimeout
                && forall j | j in m.slots && slots[j] != null :: slots[j].configEpoch <= m.configEpoch
    {
      hide BitsOf, Owned, OwnerMap, ImportMap, Agree, Shape, MastersKnown, ImportsKnown, Infos, View.Bits,
           View.EpochOf;
      MyselfKnown();
      Reads(myself);
      Reads(node);
      CountOf(myself);
      About(node);
      var master := node.slaveof;
      if myself.role == Slave || myself.numslots == 0 { return false; }
      if m.currentEpoch < currentEpoch { return false; }
      if lastVoteEpoch == currentEpoch { return false; }
      if node.role == Master || master == null { return false; }
      Reads(master);
      if !master.failed && !m.forceAck { return false; }
      if env.now - master.votedTime < env.nodeTimeout * 2 { return false; }
      granted := ClaimIsCurrent(m);
    }

    /** clusterSendFailoverAuthIfNeeded: the acknowledgement sent, if any. */
    method SendFailoverAuthIfNeeded(node: ClusterNode, m: Msg, env: Env) returns (sent: set<Msg>)
      requires Valid() && Has(node) && m.src == node.name
      modifies this`lastVoteEpoch, nodes.Values`votedTime
      ensures Valid() && (Abs(), sent) == ClusterModel.SendFailoverAuthIfNeeded(old(Abs()), m, env)
      ensures sent != {} <==>
                && myself.role != Slave && myself.numslots != 0
                && m.currentEpoch >= currentEpoch && old(lastVoteEpoch) != currentEpoch
                && node.role != Master && node.slaveof != null
                && (node.slaveof.failed || m.forceAck)
                && env.now - old(if node.slaveof == null then 0 else node.slaveof.votedTime) >= 2 * env.nodeTimeout
                && forall j | j in m.slots && slots[j] != null :: slots[j].configEpoch <= m.configEpoch
      ensures sent != {} ==> lastVoteEpoch == currentEpoch && node.slaveof != null && node.slaveof.votedTime == env.now
      ensures forall x | x in sent :: x.kind == AuthAck && x.dst == node.name && x.currentEpoch == currentEpoch
      ensures sent == {} ==> lastVoteEpoch == old(lastVoteEpoch)
      ensures forall k | k in nodes && (sent == {} || nodes[k] != node.slaveof) :: nodes[k].votedTime == old(nodes[k].votedTime)
    {
      hide BitsOf, Owned, OwnerMap, ImportMap, Agree, Shape, MastersKnown, ImportsKnown, Infos, Header, Votes;
      About(node);
      var master := node.slaveof;
      var granted := DeservesVote(node, m, env);
      if !granted { return {}; }
      Reads(node);
      Reads(master);
      var ack := BuildMessageHdr(AuthAck, node.name);
      HeaderFields(Abs(), AuthAck, node.name);
      GrantVote(master, env.now);
      sent := {ack};
    }

    /** The two writes of a granted vote. */
    method GrantVote(master: ClusterNode, now: int)
      requires Valid() && Has(master)
      modifies this`lastVoteEpoch, master`votedTime
      ensures Valid() && lastVoteEpoch == currentEpoch && master.votedTime == now
      ensures Tables() == old(Tables()).SetInfo(master.name, old(master.Info()).(votedTime := now))
    {
      hide BitsOf, Owned, OwnerMap, ImportMap, Agree, Shape, MastersKnown, ImportsKnown, Infos;
      Apart();
      About(master);
      InfosAll();
      ghost var was := Infos();
      lastVoteEpoch := currentEpoch;
      master.votedTime := now;
      InfosUpdate(was, master);
    }

    /** clusterBroadcastMessage, and clusterBroadcastPong with CLUSTER_BROADCAST_ALL. */
    method BroadcastMessage(kind: Kind) returns (sent: set<Msg>)
      requires Valid()
      ensures sent == Broadcast(Abs(), kind)
      ensures forall x | x in sent :: x.kind == kind && x.src == myself.name && x.currentEpoch == currentEpoch
      ensures forall d :: d in Receivers(sent) <==> d in nodes && d != myself.name && !nodes[d].handshake
    {
      hide BitsOf, Owned, OwnerMap, ImportMap, Agree, Shape, MastersKnown, ImportsKnown, Header, Infos, SendTo,
           Abs, Broadcast, Receivers, SendAmong;
      var packet := BuildMessageHdr(kind, myself.name);
      ghost var s := Abs();
      ghost var targets := s.view.nodes.Keys;
      BroadcastEnds(s, kind);
      SelectiveEnds(s, targets, kind);
      ReceiversOfSend(s, targets, kind);
      Targets();
      sent := {};
      var rest := nodes.Keys;
      ghost var done: set<Id> := {};
      while rest != {}
        invariant done + rest == nodes.Keys
        invariant sent == SendAmong(s, done, targets, kind)
        decreases |rest|
      {
        var d :| d in rest;
        SelectiveStep(s, done, targets, d, kind);
        done, rest := done + {d}, rest - {d};
        if d != myself.name && !nodes[d].handshake { sent := sent + {packet.(dst := d)}; }
      }
      assert done == nodes.Keys;
    }

    /** clusterBroadcastPong with CLUSTER_BROADCAST_LOCAL_SLAVES. */
    method BroadcastPongToLocalSlaves() returns (sent: set<Msg>)
      requires Valid()
      ensures sent == SendTo(Abs(), LocalSlaves(Abs()), Pong)
      ensures forall x | x in sent :: x.kind == Pong && x.src == myself.name
      ensures forall d :: d in Receivers(sent) <==>
                && d in nodes && d != myself.name && !nodes[d].handshake && nodes[d].role == Slave
                && nodes[d].slaveof != null && (nodes[d].slaveof == myself || nodes[d].slaveof == myself.slaveof)
    {
      hide BitsOf, Owned, OwnerMap, ImportMap, Agree, Shape, MastersKnown, ImportsKnown, Header, Infos, SendTo,
           Abs, LocalSlaves, SendAmong, Receivers;
      Apart();
      var packet := BuildMessageHdr(Pong, myself.name);
      ghost var s := Abs();
      ghost var targets := LocalSlaves(s);
      LocalSlavesKnown(s);
      SelectiveEnds(s, targets, Pong);
      ReceiversOfSend(s, targets, Pong);
      Targets();
      LocalSlavesAre();
      sent := {};
      var rest := nodes.Keys;
      ghost var done: set<Id> := {};
      while rest != {}
        invariant done + rest == nodes.Keys
        invariant sent == SendAmong(s, done, targets, Pong)
        decreases |rest|
      {
        var d :| d in rest;
        SelectiveStep(s, done, targets, d, Pong);
        done, rest := done + {d}, rest - {d};
        if d != myself.name && !nodes[d].handshake && IsLocalSlave(nodes[d]) { sent := sent + {packet.(dst := d)}; }
      }
      assert done == nodes.Keys;
    }

    predicate IsLocalSlave(n: ClusterNode)
      reads this, myself, n
    {
      n.role == Slave && n.slaveof != null && (n.slaveof == myself || n.slaveof == myself.slaveof)
    }

    lemma LocalSlavesAre()
      requires Valid()
      ensures forall d | d in nodes :: IsLocalSlave(nodes[d]) == (d in LocalSlaves(Abs()))
    {
      hide Valid, IsLocalSlave, LocalSlaves, Abs;
      forall d | d in nodes ensures IsLocalSlave(nodes[d]) == (d in LocalSlaves(Abs())) { LocalSlaveIs(d); }
    }

    lemma LocalSlaveIs(d: Id)
      requires Valid() && d in nodes
      ensures IsLocalSlave(nodes[d]) == (d in LocalSlaves(Abs()))
    {
      hide BitsOf, Owned, OwnerMap, ImportMap, Agree, MastersKnown, ImportsKnown, Infos, Tables;
      MyselfKnown();
      KeyIsName(d);
      var node := nodes[d];
      Reads(node);
      Reads(myself);
      About(node);
      About(myself);
      if node.slaveof != null {
        SameName(node.slaveof, myself);
        if myself.slaveof != null { SameName(node.slaveof, myself.slaveof); }
      }
    }

    lemma Targets()
      ensures Abs().self == myself.name && Abs().view.nodes.Keys == nodes.Keys && Abs().currentEpoch == currentEpoch
      ensures forall d | d in nodes :: Abs().view.nodes[d].handshake == nodes[d].handshake
    {
    }

    /** The votes of clusterProcessPacket: an AUTH_ACK from `sender`. */
    method ReceiveAck(sender: ClusterNode, m: Msg)
      requires Valid() && Has(sender) && m.src == sender.name
      modifies this`authCount
      ensures Valid() && Abs() == ProcessAck(old(Abs()), m)
      ensures authCount == old(authCount) +
                if sender.role == Master && sender.numslots != 0 && (if sender.handshake then 0 else m.currentEpoch) >= authEpoch
                then 1 else 0
    {
      hide BitsOf, Owned, OwnerMap, ImportMap, Agree, Shape, MastersKnown, ImportsKnown, Infos, View.Bits;
      Apart();
      Reads(sender);
      CountOf(sender);
      var senderCurrentEpoch := if sender.handshake then 0 else m.currentEpoch;
      if sender.role == Master && sender.numslots > 0 && senderCurrentEpoch >= authEpoch {
        authCount := authCount + 1;
      }
    }

    /** What clusterProcessPacket learns from the header. */
    method ReceiveHeader(sender: ClusterNode, m: Msg)
      requires Valid() && Has(sender) && m.src == sender.name
      modifies this`currentEpoch, sender`configEpoch
      ensures Valid() && Abs() == LearnHeader(old(Abs()), m)
      ensures currentEpoch == if sender.handshake then old(currentEpoch) else Max(old(currentEpoch), m.currentEpoch)
      ensures sender.configEpoch ==
                if sender.handshake then old(sender.configEpoch) else Max(old(sender.configEpoch), m.configEpoch)
    {
      hide BitsOf, Owned, OwnerMap, ImportMap, Agree, Shape, MastersKnown, ImportsKnown, Infos;
      Apart();
      About(sender);
      Reads(sender);
      InfosAll();
      ghost var was := Infos();
      if sender.handshake { return; }
      if m.currentEpoch > currentEpoch { currentEpoch := m.currentEpoch; }
      if m.configEpoch > sender.configEpoch { sender.configEpoch := m.configEpoch; }
      InfosUpdate(was, sender);
    }

    /** The UPDATE branch of clusterProcessPacket; `claimed` is the bitmap in the packet. */
    method ReceiveUpdate(sender: ClusterNode, m: Msg, claimed: array<bv8>)
      requires Valid() && Has(sender) && m.src == sender.name && m.kind.Update?
      requires claimed.Length == SLOTS / 8 && claimed !in Bitmaps() && claimed as object != slots as object
      requires Claims(claimed[..]) == m.kind.aboutSlots
      modifies this`alive, this`mfEnd, this`mfCanStart, nodes.Values`role, nodes.Values`slaveof, nodes.Values`configEpoch
      modifies slots, importing, nodes.Values`numslots, Bitmaps()
      ensures Valid() && Abs() == ProcessUpdate(old(Abs()), m)
      ensures if m.kind.about in nodes && old(nodes[m.kind.about].configEpoch) < m.kind.epoch
              then var n := nodes[m.kind.about];
                && n.configEpoch == m.kind.epoch && (n != myself ==> n.role != Slave)
                && forall j | 0 <= j < SLOTS && j in m.kind.aboutSlots && old(importing[j]) == null && n != myself &&
                     (old(slots[j]) == null || old(slots[j].configEpoch) < m.kind.epoch) :: slots[j] == n
              else Abs() == old(Abs()) && slots[..] == old(slots[..])
    {
      hide BitsOf, Owned, OwnerMap, ImportMap, Agree, Shape, MastersKnown, ImportsKnown, Infos, UpdateSlots,
           ClusterModel.SetNodeAsMaster;
      Reads(sender);
      InfosAll();
      MyselfKnown();
      About(myself);
      if m.kind.about !in nodes { return; }
      var n := nodes[m.kind.about];
      KeyIsName(m.kind.about);
      Reads(n);
      if n.configEpoch >= m.kind.epoch { return; }
      PromoteNode(n, m.kind.epoch);
      UpdateSlotsConfigWith(n, m.kind.epoch, claimed);
    }

    method PromoteNode(n: ClusterNode, e: nat)
      requires Valid() && Has(n)
      modifies n`role, n`slaveof, n`configEpoch
      ensures Valid() && Tables() == Promote(old(Tables()), n.name, e)
      ensures n.configEpoch == e && n.role == (if old(n.role) == Slave then Master else old(n.role))
      ensures n.slaveof == if old(n.role) == Slave then null else old(n.slaveof)
    {
      hide BitsOf, Owned, OwnerMap, ImportMap, Agree, Shape, MastersKnown, ImportsKnown, Infos;
      Apart();
      About(n);
      Reads(n);
      if n.role == Slave { SetNodeAsMaster(n); }
      InfosAll();
      ghost var was := Infos();
      n.configEpoch := e;
      InfosUpdate(was, n);
    }

    lemma KeyIsName(k: Id)
      requires Shape() && k in nodes
      ensures Has(nodes[k]) && nodes[k].name == k
    {
    }

    lemma KnownKey(k: Id)
      requires Valid() && k in nodes
      ensures Has(nodes[k]) && nodes[k].name == k
    {
      hide BitsOf, Owned, OwnerMap, ImportMap, Agree, MastersKnown, ImportsKnown;
    }

    /** A replica of a master that failed, or whose administrator asked for a failover, and
        that has slots; its data is not too old, unless it was asked. */
    ghost predicate MayTakeOver(env: Env)
      reads this, myself, myself.slaveof
    {
      var manual := mfEnd && mfCanStart;
      && myself.role != Master && myself.slaveof != null
      && (myself.slaveof.failed || manual) && myself.slaveof.numslots != 0 && (manual || !env.dataTooOld)
    }

    /** The tests at the head of clusterHandleSlaveFailover. */
    method FailoverAllowed(env: Env) returns (ok: bool)
      requires Valid()
      ensures ok == MayFailover(Abs(), env)
      ensures ok == MayTakeOver(env)
    {
      hide BitsOf, Owned, OwnerMap, ImportMap, Agree, Shape, MastersKnown, ImportsKnown, Infos, View.Bits;
      MyselfKnown();
      Reads(myself);
      About(myself);
      var manual := mfEnd && mfCanStart;
      var master := myself.slaveof;
      if myself.role == Master || master == null { return false; }
      Reads(master);
      CountOf(master);
      if (!master.failed && !manual) || master.numslots == 0 { return false; }
      ok := env.dataTooOld ==> manual;
    }

    /** The config epoch of the election just won. */
    method RaiseMyEpoch()
      requires Valid()
      modifies myself`configEpoch
      ensures Valid() && myself.name in old(Tables()).nodes && Abs() == Elected(old(Abs()))
      ensures myself.configEpoch == if old(myself.configEpoch) < authEpoch then authEpoch else old(myself.configEpoch)
    {
      hide BitsOf, Owned, OwnerMap, ImportMap, Agree, Shape, MastersKnown, ImportsKnown, Infos;
      MyselfKnown();
      Apart();
      Reads(myself);
      About(myself);
      InfosAll();
      ghost var was := Infos();
      if myself.configEpoch < authEpoch { myself.configEpoch := authEpoch; }
      InfosUpdate(was, myself);
    }

    /** The quorum was reached: a new config epoch and the master's slots. */
    method WinElection() returns (sent: set<Msg>)
      requires Valid()
      modifies this`mfEnd, this`mfCanStart, myself`role, myself`slaveof, myself`configEpoch
      modifies slots, nodes.Values`numslots, Bitmaps()
      ensures Valid() && myself.name in old(Tables()).nodes
      ensures (Abs(), sent) == ReplaceYourMaster(Elected(old(Abs())))
      ensures forall x | x in sent :: x.kind == Pong
      ensures myself.configEpoch >= authEpoch && (myself.configEpoch == authEpoch || myself.configEpoch == old(myself.configEpoch))
      ensures var former := old(myself.slaveof);
              old(myself.role) != Master && former != null ==>
                && myself.role == Master && myself.slaveof == null && !mfEnd && !mfCanStart
                && forall j | 0 <= j < SLOTS :: slots[j] == if old(slots[j]) == former then myself else old(slots[j])
    {
      hide BitsOf, Owned, OwnerMap, ImportMap, Agree, Shape, MastersKnown, ImportsKnown, Infos, TakeOver,
           Broadcast, Elected, Abs;
      RaiseMyEpoch();
      MyselfKnown();
      Reads(myself);
      var isSlave := myself.role != Master && myself.slaveof != null;
      IsSlaveIs(isSlave);
      FailoverReplaceYourMaster();
      sent := {};
      if isSlave { sent := BroadcastMessage(Pong); }
    }

    lemma IsSlaveIs(isSlave: bool)
      requires Valid() && isSlave == (myself.role != Master && myself.slaveof != null)
      ensures isSlave == !(Abs().view.IsMaster(Abs().self) || Abs().view.SlaveOf(Abs().self).None?)
    {
      hide BitsOf, Owned, OwnerMap, ImportMap, Agree, MastersKnown, ImportsKnown, Infos;
      Reads(myself);
    }

    /** A new attempt is scheduled; the counter starts again here. */
    method ScheduleAttempt(env: Env) returns (sent: set<Msg>)
      requires Valid()
      modifies this`authTime, this`authCount, this`authSent
      ensures Valid()
      ensures var s1 := old(Abs()).(auth := Auth(if old(mfEnd) then env.now else env.now + env.delay, 0, false,
                                                 old(authEpoch)));
              Abs() == s1 && sent == SendTo(s1, LocalSlaves(s1), Pong)
      ensures authCount == 0 && !authSent && authTime == if mfEnd then env.now else env.now + env.delay
      ensures forall x | x in sent :: x.kind == Pong
    {
      hide BitsOf, Owned, OwnerMap, ImportMap, Agree, Shape, MastersKnown, ImportsKnown, Infos, SendTo, LocalSlaves;
      Apart();
      authTime := if mfEnd then env.now else env.now + env.delay;
      authCount, authSent := 0, false;
      sent := BroadcastPongToLocalSlaves();
    }

    /** Votes are asked for under a new epoch. */
    method AskForVotes() returns (sent: set<Msg>)
      requires Valid()
      modifies this`currentEpoch, this`authSent, this`authEpoch
      ensures Valid()
      ensures var s := old(Abs());
              var s2 := s.(currentEpoch := s.currentEpoch + 1,
                           auth := s.auth.(epoch := s.currentEpoch + 1, sent := true));
              Abs() == s2 && sent == Broadcast(s2, AuthRequest)
      ensures authSent && authEpoch == currentEpoch == old(currentEpoch) + 1
      ensures forall x | x in sent :: x.kind == AuthRequest && x.currentEpoch == currentEpoch
      ensures forall d :: d in Receivers(sent) <==> d in nodes && d != myself.name && !nodes[d].handshake
    {
      hide BitsOf, Owned, OwnerMap, ImportMap, Agree, Shape, MastersKnown, ImportsKnown, Infos, Broadcast;
      Apart();
      currentEpoch := currentEpoch + 1;
      authEpoch := currentEpoch;
      authSent := true;
      sent := BroadcastMessage(AuthRequest);
    }

    /** clusterHandleSlaveFailover */
    method HandleSlaveFailover(env: Env) returns (sent: set<Msg>)
      requires Valid()
      modifies this`mfEnd, this`mfCanStart, this`currentEpoch
      modifies this`authTime, this`authCount, this`authSent, this`authEpoch
      modifies myself`role, myself`slaveof, myself`configEpoch, slots, nodes.Values`numslots, Bitmaps()
      ensures Valid() && (Abs(), sent) == ClusterModel.HandleSlaveFailover(old(Abs()), env)
      ensures var age, window := env.now - old(authTime), Max(2 * env.nodeTimeout, 2000);
              var due := old(authTime) + if old(authSent) || old(mfEnd) then 0 else env.addedDelay;
              var open := old(MayTakeOver(env)) && age <= window && due <= env.now;
              var asks, wins := open && !old(authSent), open && old(authSent) && old(authCount) >= size / 2 + 1;
              && (!old(MayTakeOver(env)) ==> Abs() == old(Abs()) && sent == {})
              && (old(MayTakeOver(env)) && age > 2 * window ==> authCount == 0 && !authSent && authEpoch == old(authEpoch))
              && (asks ==> authSent && authEpoch == currentEpoch == old(currentEpoch) + 1)
              && (asks ==> forall d :: d in Receivers(sent) <==> d in nodes && d != myself.name && !nodes[d].handshake)
              && (!asks ==> currentEpoch == old(currentEpoch) && forall x | x in sent :: x.kind == Pong)
              && (wins ==> myself.role == Master && myself.slaveof == null && myself.configEpoch >= authEpoch)
              && (wins ==> forall j | 0 <= j < SLOTS ::
                             slots[j] == if old(slots[j]) == old(myself.slaveof) then myself else old(slots[j]))
              && (!wins ==> myself.role == old(myself.role) && myself.slaveof == old(myself.slaveof))
              && (!wins ==> myself.configEpoch == old(myself.configEpoch) && slots[..] == old(slots[..]))
    {
      hide BitsOf, Owned, OwnerMap, ImportMap, Agree, Shape, MastersKnown, ImportsKnown, Tables, MayFailover,
           ReplaceYourMaster, Elected, Broadcast;
      MyselfKnown();
      Apart();
      Reads(myself);
      sent := {};
      var authAge := env.now - authTime;
      var allowed := FailoverAllowed(env);
      if !allowed { return; }
      if authAge > AuthTimeout(env) * 2 {
        sent := ScheduleAttempt(env);
        return;
      }
      if !authSent && !mfEnd { authTime := authTime + env.addedDelay; }
      if env.now < authTime || authAge > AuthTimeout(env) { return; }
      if !authSent {
        sent := AskForVotes();
      } else if authCount >= size / 2 + 1 {
        sent := WinElection();
      }
    }
  }

  lemma BroadcastStep(s: NodeState, ks: set<Id>, d: Id, kind: Kind)
    requires d in s.view.nodes
    ensures SendTo(s, ks + {d}, kind) == SendTo(s, ks, kind) +
              (if d != s.self && !s.view.nodes[d].handshake then {Header(s, kind, s.self).(dst := d)} else {})
  {
    HeaderTo(s, kind, d);
    hide Header;
  }

  lemma HeaderTo(s: NodeState, kind: Kind, d: Id)
    ensures Header(s, kind, d) == Header(s, kind, s.self).(dst := d)
  {
  }

  /** What goes to those of the nodes `ks` that are targets. */
  ghost function SendAmong(s: NodeState, ks: set<Id>, targets: set<Id>, kind: Kind): set<Msg> {
    SendTo(s, ks * targets, kind)
  }

  lemma SelectiveStep(s: NodeState, ks: set<Id>, targets: set<Id>, d: Id, kind: Kind)
    requires d in s.view.nodes
    ensures SendAmong(s, ks + {d}, targets, kind) == SendAmong(s, ks, targets, kind) +
              (if d != s.self && !s.view.nodes[d].handshake && d in targets then {Header(s, kind, s.self).(dst := d)} else {})
  {
    hide SendTo, Header;
    if d in targets {
      assert (ks + {d}) * targets == ks * targets + {d};
      BroadcastStep(s, ks * targets, d, kind);
    } else {
      assert (ks + {d}) * targets == ks * targets;
    }
  }

  lemma SelectiveEnds(s: NodeState, targets: set<Id>, kind: Kind)
    requires targets <= s.view.nodes.Keys
    ensures SendAmong(s, {}, targets, kind) == {}
    ensures SendAmong(s, s.view.nodes.Keys, targets, kind) == SendTo(s, targets, kind)
  {
    hide Header;
    assert s.view.nodes.Keys * targets == targets;
  }

  ghost function Receivers(sent: set<Msg>): set<Id> { set x | x in sent :: x.dst }

  lemma ReceiversOfSend(s: NodeState, ds: set<Id>, kind: Kind)
    ensures forall x | x in SendTo(s, ds, kind) :: x.kind == kind && x.src == s.self && x.currentEpoch == s.currentEpoch
    ensures forall d :: d in Receivers(SendTo(s, ds, kind)) <==>
              d in ds && d in s.view.nodes && d != s.self && !s.view.nodes[d].handshake
  {
    forall d | d in ds && d in s.view.nodes && d != s.self && !s.view.nodes[d].handshake
      ensures d in Receivers(SendTo(s, ds, kind))
    {
      HeaderFields(s, kind, d);
      assert Header(s, kind, d) in SendTo(s, ds, kind);
    }
  }

  lemma HeaderFields(s: NodeState, kind: Kind, dst: Id)
    ensures var m := Header(s, kind, dst);
            m.kind == kind && m.src == s.self && m.dst == dst && m.currentEpoch == s.currentEpoch
  {
  }

  lemma LocalSlavesKnown(s: NodeState)
    ensures LocalSlaves(s) <= s.view.nodes.Keys
  {
  }

  lemma BroadcastEnds(s: NodeState, kind: Kind)
    ensures SendTo(s, {}, kind) == {} && SendTo(s, s.view.nodes.Keys, kind) == Broadcast(s, kind)
  {
    hide Header;
  }

  /** The set a bitmap stands for, read out bit by bit. */
  method BitmapBits(bitmap: array<bv8>) returns (bits: set<Slot>)
    requires bitmap.Length == SLOTS / 8
    ensures bits == BitsOf(bitmap[..])
  {
    hide TestBit;
    bits := {};
    for j := 0 to SLOTS
      invariant bits == set i: nat | i in BitsOf(bitmap[..]) && i < j
    {
      var on := BitmapTestBit(bitmap, j);
      if on { bits := bits + {j}; }
    }
  }

  lemma NextEpochDiffers(s: NodeState)
    requires s.self in s.view.nodes
    ensures NextEpoch(s) != s
  {
  }
}
