/** The failure reports about a node: a linked list of records, one for each reporting
    master, cleaned up while it is iterated over. */
module FailReports {
  import opened AdList
  import ClusterModel

  const VALIDITY_MULT := 2

  /** clusterNodeFailReport */
  class FailReport {
    const node: ClusterModel.Id
    var time: int

    constructor (node: ClusterModel.Id, time: int)
      ensures this.node == node && this.time == time
    {
      this.node, this.time := node, time;
    }
  }

  datatype Report = Report(node: ClusterModel.Id, time: int)

  ghost function ReportsOf(records: seq<FailReport>): (reports: seq<Report>)
    reads records`time
    ensures |reports| == |records|
    ensures forall i | 0 <= i < |records| :: reports[i] == Report(records[i].node, records[i].time)
  {
    if records == [] then []
    else
      var last := records[|records| - 1];
      ReportsOf(records[..|records| - 1]) + [Report(last.node, last.time)]
  }

  /** The list, no two nodes of which share a record. */
  ghost predicate Valid(list: List<FailReport>)
    reads list, list.nodes
  {
    list.Valid() && OwnRecords(list.nodes)
  }

  ghost predicate OwnRecords(nodes: seq<ListNode<FailReport>>)
    reads nodes`value
  {
    forall m, n | m in nodes && n in nodes && m != n :: m.value != n.value
  }

  lemma RecordsDistinct(list: List<FailReport>)
    requires Valid(list)
    ensures forall i, j | 0 <= i < j < |list.nodes| :: list.Contents()[i] != list.Contents()[j]
  {
  }

  predicate Recent(report: Report, now: int, timeout: int) {
    now - report.time <= timeout * VALIDITY_MULT
  }

  /** The reports that are not too old, in order. */
  function Kept(reports: seq<Report>, now: int, timeout: int): seq<Report> {
    if reports == [] then []
    else
      var front := Kept(reports[..|reports| - 1], now, timeout);
      var last := reports[|reports| - 1];
      if Recent(last, now, timeout) then front + [last] else front
  }

  /** The first report by `sender`, or the number of reports. */
  function First(reports: seq<Report>, sender: ClusterModel.Id): (i: nat)
    ensures i <= |reports| && (i < |reports| ==> reports[i].node == sender)
    ensures forall k | 0 <= k < i :: reports[k].node != sender
  {
    if reports == [] || reports[0].node == sender then 0 else 1 + First(reports[1..], sender)
  }

  function Added(reports: seq<Report>, sender: ClusterModel.Id, now: int): seq<Report> {
    var i := First(reports, sender);
    if i < |reports| then reports[i := Report(sender, now)] else reports + [Report(sender, now)]
  }

  function Deleted(reports: seq<Report>, sender: ClusterModel.Id, now: int, timeout: int): seq<Report> {
    var i := First(reports, sender);
    if i < |reports| then Kept(reports[..i] + reports[i + 1..], now, timeout) else reports
  }

  // what the list is for: one report for each reporting node

  ghost predicate OneEach(reports: seq<Report>) {
    forall i, j | 0 <= i < j < |reports| :: reports[i].node != reports[j].node
  }

  ghost function Reporters(reports: seq<Report>): set<ClusterModel.Id> {
    set i | 0 <= i < |reports| :: reports[i].node
  }

  lemma {:induction false} KeptExactly(reports: seq<Report>, now: int, timeout: int)
    ensures forall r :: r in Kept(reports, now, timeout) <==> r in reports && now - r.time <= 2 * timeout
    ensures OneEach(reports) ==> OneEach(Kept(reports, now, timeout))
  {
    if reports != [] {
      var front, last := reports[..|reports| - 1], reports[|reports| - 1];
      KeptExactly(front, now, timeout);
      assert reports == front + [last];
      if OneEach(reports) {
        assert OneEach(front);
        var kept := Kept(front, now, timeout);
        forall i | 0 <= i < |kept| ensures kept[i].node != last.node {
          assert kept[i] in front;
        }
      }
    }
  }

  /** The reports that stay keep their order. */
  lemma {:induction false} KeptInOrder(first: seq<Report>, second: seq<Report>, now: int, timeout: int)
    ensures Kept(first + second, now, timeout) == Kept(first, now, timeout) + Kept(second, now, timeout)
  {
    if second == [] {
      assert first + second == first;
    } else {
      var front, last := second[..|second| - 1], second[|second| - 1];
      assert first + second == (first + front) + [last];
      KeptNext(first + front, last, now, timeout);
      KeptInOrder(first, front, now, timeout);
    }
  }

  /** The report of the sender has the new time, wherever it stands; all others are where
      they were. */
  lemma AddRefreshes(reports: seq<Report>, sender: ClusterModel.Id, now: int)
    requires OneEach(reports)
    ensures var added := Added(reports, sender, now);
            && (forall r :: r in added <==> r == Report(sender, now) || (r in reports && r.node != sender))
            && |added| == |Reporters(reports) + {sender}|
            && forall i | 0 <= i < |reports| && reports[i].node != sender :: added[i] == reports[i]
  {
    var added, k := Added(reports, sender, now), First(reports, sender);
    assert added[k] == Report(sender, now);
    forall r | r in reports && r.node != sender ensures r in added {
      var i :| 0 <= i < |reports| && reports[i] == r;
      assert added[i] == r;
    }
    AddKeepsOneEach(reports, sender, now);
    ReportersCount(added);
  }

  /** A cleanup does not drop a node that has reported again in time. */
  lemma RefreshedIsKept(reports: seq<Report>, sender: ClusterModel.Id, now: int, later: int, timeout: int)
    requires OneEach(reports) && later - now <= 2 * timeout
    ensures sender in Reporters(Kept(Added(reports, sender, now), later, timeout))
  {
    AddRefreshes(reports, sender, now);
    var added := Added(reports, sender, now);
    KeptExactly(added, later, timeout);
    var kept := Kept(added, later, timeout);
    assert Report(sender, now) in kept;
    var i :| 0 <= i < |kept| && kept[i] == Report(sender, now);
    assert kept[i].node == sender;
  }

  /** A report by a node that already reported replaces the old one. */
  lemma AddKeepsOneEach(reports: seq<Report>, sender: ClusterModel.Id, now: int)
    requires OneEach(reports)
    ensures OneEach(Added(reports, sender, now))
    ensures Reporters(Added(reports, sender, now)) == Reporters(reports) + {sender}
  {
    var added := Added(reports, sender, now);
    forall n | n in Reporters(reports) + {sender} ensures n in Reporters(added) {
      if n == sender {
        assert added[First(reports, sender)].node == sender;
      } else {
        var i :| 0 <= i < |reports| && reports[i].node == n;
        assert added[i].node == n;
      }
    }
  }

  /** A deletion that finds its report drops it and the old ones, another one nothing. */
  lemma DeletedExactly(reports: seq<Report>, sender: ClusterModel.Id, now: int, timeout: int)
    requires OneEach(reports)
    ensures forall r :: r in Deleted(reports, sender, now, timeout) <==>
              r in reports && (sender in Reporters(reports) ==> r.node != sender && now - r.time <= 2 * timeout)
  {
    var i := First(reports, sender);
    if i < |reports| {
      assert reports[i].node == sender;
      var rest := reports[..i] + reports[i + 1..];
      KeptExactly(rest, now, timeout);
      forall r ensures r in rest <==> r in reports && r.node != sender {
        if r in reports && r.node != sender {
          var k :| 0 <= k < |reports| && reports[k] == r;
          assert r == if k < i then rest[k] else rest[k - 1];
        }
      }
    }
  }

  /** After a deletion nothing by that node is left. */
  lemma DeleteKeepsOneEach(reports: seq<Report>, sender: ClusterModel.Id, now: int, timeout: int)
    requires OneEach(reports)
    ensures OneEach(Deleted(reports, sender, now, timeout))
    ensures sender !in Reporters(Deleted(reports, sender, now, timeout))
  {
    var i := First(reports, sender);
    if i < |reports| {
      var rest := reports[..i] + reports[i + 1..];
      KeptExactly(rest, now, timeout);
      var kept := Kept(rest, now, timeout);
      forall k | 0 <= k < |kept| ensures kept[k].node != sender {
        assert kept[k] in rest;
      }
    }
  }

  lemma ReportersAppend(reports: seq<Report>, last: Report)
    ensures Reporters(reports + [last]) == Reporters(reports) + {last.node}
    ensures OneEach(reports + [last]) ==> OneEach(reports) && last.node !in Reporters(reports)
  {
    var all := reports + [last];
    forall i | 0 <= i < |reports| ensures all[i] == reports[i] {
    }
    assert all[|reports|] == last;
    forall n | n in Reporters(reports) ensures n in Reporters(all) {
      var i :| 0 <= i < |reports| && reports[i].node == n;
      assert all[i].node == n;
    }
  }

  lemma {:induction false} ReportersCount(reports: seq<Report>)
    requires OneEach(reports)
    ensures |Reporters(reports)| == |reports|
  {
    if reports == [] {
      assert Reporters(reports) == {};
    } else {
      CountFront(reports[..|reports| - 1], reports[|reports| - 1]);
      assert reports == reports[..|reports| - 1] + [reports[|reports| - 1]];
      ReportersCount(reports[..|reports| - 1]);
    }
  }

  lemma CountFront(front: seq<Report>, last: Report)
    requires OneEach(front + [last])
    ensures OneEach(front) && |Reporters(front + [last])| == |Reporters(front)| + 1
  {
    hide OneEach, Reporters;
    ReportersAppend(front, last);
  }

  // the functions of cluster.c

  lemma FirstIs(reports: seq<Report>, sender: ClusterModel.Id, k: nat)
    requires k <= |reports| && (k < |reports| ==> reports[k].node == sender)
    requires forall i | 0 <= i < k :: reports[i].node != sender
    ensures First(reports, sender) == k
    ensures k < |reports| <==> sender in Reporters(reports)
  {
  }

  /** The loop that looks for the report of a node. */
  method FindReport(list: List<FailReport>, sender: ClusterModel.Id) returns (found: ListNode?<FailReport>, ghost at: nat)
    requires list.Valid()
    ensures at == First(ReportsOf(list.Contents()), sender) && found == NodeAt(list.nodes, at)
    ensures found != null <==> sender in Reporters(ReportsOf(list.Contents()))
  {
    hide ReportsOf, Values, Chain, AdList.Distinct, Linked, First, List.Valid;
    ghost var reports := ReportsOf(list.Contents());
    var iter := new ListIter<FailReport>(list, true);
    at := 0;
    while true
      invariant 0 <= at <= |list.nodes| && iter.next == NodeAt(list.nodes, at)
      invariant fresh(iter) && iter.fromHead
      invariant forall i | 0 <= i < at :: reports[i].node != sender
      decreases |list.nodes| - at
    {
      found := iter.Next(list, at);
      if found == null || found.value.node == sender { break; }
      assert reports[at].node == list.Contents()[at].node;
      at := at + 1;
    }
    assert found != null ==> reports[at].node == list.Contents()[at].node;
    FirstIs(reports, sender, at);
  }

  /** clusterNodeAddFailureReport */
  method AddFailureReport(list: List<FailReport>, sender: ClusterModel.Id, now: int) returns (created: bool)
    requires Valid(list)
    modifies list`head, list`tail, list`len, list`nodes, list.nodes`prev, list.nodes`next, list.Contents()`time
    ensures Valid(list)
    ensures ReportsOf(list.Contents()) == Added(old(ReportsOf(list.Contents())), sender, now)
    ensures created == (sender !in Reporters(old(ReportsOf(list.Contents()))))
  {
    hide ReportsOf, Values, Chain, AdList.Distinct, Linked, First, List.Valid, Reporters;
    ghost var records, reports := list.Contents(), ReportsOf(list.Contents());
    RecordsDistinct(list);
    var found, k := FindReport(list, sender);
    if found != null {
      assert found.value == records[k];
      found.value.time := now;
      Retimed(records, reports, k);
      return false;
    }
    var record := new FailReport(sender, now);
    list.AddNodeTail(record);
    Retold(list.Contents(), records, record);
    return true;
  }

  lemma Retimed(records: seq<FailReport>, reports: seq<Report>, k: nat)
    requires k < |records| == |reports| && records[k].node == reports[k].node
    requires forall i | 0 <= i < |records| && i != k :: reports[i] == Report(records[i].node, records[i].time)
    ensures ReportsOf(records) == reports[k := Report(records[k].node, records[k].time)]
  {
    hide ReportsOf;
  }

  lemma Retold(after: seq<FailReport>, records: seq<FailReport>, record: FailReport)
    requires after == records + [record]
    ensures ReportsOf(after) == ReportsOf(records) + [Report(record.node, record.time)]
  {
    assert after[..|records|] == records;
  }

  // where a cleanup has got to, with the contents of the nodes looked up in `told`

  ghost predicate Progress(nodes: seq<ListNode<FailReport>>, k: nat, all: seq<ListNode<FailReport>>, seen: nat,
                           told: map<ListNode<FailReport>, Report>, now: int, timeout: int)
  {
    && seen <= |all| && k <= |nodes| && nodes[k..] == all[seen..]
    && (forall n | n in all :: n in told) && (forall n | n in nodes :: n in all)
    && Look(nodes[..k], told) == Kept(Look(all[..seen], told), now, timeout)
  }

  ghost function Look(nodes: seq<ListNode<FailReport>>, told: map<ListNode<FailReport>, Report>): seq<Report>
    requires forall n | n in nodes :: n in told
  {
    seq(|nodes|, i requires 0 <= i < |nodes| => told[nodes[i]])
  }

  lemma LookNext(nodes: seq<ListNode<FailReport>>, told: map<ListNode<FailReport>, Report>, k: nat)
    requires k < |nodes| && forall n | n in nodes :: n in told
    ensures Look(nodes[..k + 1], told) == Look(nodes[..k], told) + [told[nodes[k]]]
  {
  }

  lemma KeptNext(reports: seq<Report>, report: Report, now: int, timeout: int)
    ensures Kept(reports + [report], now, timeout)
         == Kept(reports, now, timeout) + if Recent(report, now, timeout) then [report] else []
  {
  }

  lemma ProgressKeeps(nodes: seq<ListNode<FailReport>>, k: nat, all: seq<ListNode<FailReport>>, seen: nat,
                      told: map<ListNode<FailReport>, Report>, now: int, timeout: int)
    requires Progress(nodes, k, all, seen, told, now, timeout) && k < |nodes|
    ensures nodes[k] in told && seen < |all|
    ensures Recent(told[nodes[k]], now, timeout) ==> Progress(nodes, k + 1, all, seen + 1, told, now, timeout)
    ensures !Recent(told[nodes[k]], now, timeout) ==>
              Progress(nodes[..k] + nodes[k + 1..], k, all, seen + 1, told, now, timeout)
  {
    hide Kept, Recent, Look;
    assert nodes[k..][0] == all[seen..][0];
    assert nodes[k..][1..] == nodes[k + 1..] && all[seen..][1..] == all[seen + 1..];
    LookNext(nodes, told, k);
    LookNext(all, told, seen);
    KeptNext(Look(all[..seen], told), told[all[seen]], now, timeout);
    var rest := nodes[..k] + nodes[k + 1..];
    assert rest[..k] == nodes[..k] && rest[k..] == nodes[k + 1..];
    forall n | n in rest ensures n in all {
      assert n in nodes;
    }
  }

  lemma LookIsReports(nodes: seq<ListNode<FailReport>>, told: map<ListNode<FailReport>, Report>)
    requires forall n | n in nodes :: n in told && told[n] == Report(n.value.node, n.value.time)
    ensures Look(nodes, told) == ReportsOf(Values(nodes))
  {
    hide ReportsOf, Values;
  }

  ghost predicate Told(told: map<ListNode<FailReport>, Report>)
    reads set n | n in told, set n | n in told :: n.value
  {
    forall n | n in told :: told[n] == Report(n.value.node, n.value.time)
  }

  /** One round of the cleanup. */
  method VisitNext(list: List<FailReport>, iter: ListIter<FailReport>, ghost k: nat, ghost all: seq<ListNode<FailReport>>,
                   ghost seen: nat, ghost told: map<ListNode<FailReport>, Report>, now: int, timeout: int)
    returns (more: bool, ghost next: nat)
    requires list.Valid() && Progress(list.nodes, k, all, seen, told, now, timeout) && Told(told)
    requires iter.fromHead && iter.next == NodeAt(list.nodes, k) && k <= |list.nodes|
    modifies iter`next, list`head, list`tail, list`len, list`nodes, list.nodes`prev, list.nodes`next
    ensures list.Valid() && (more ==> iter.next == NodeAt(list.nodes, next))
    ensures if more then seen < |all| && next <= |list.nodes| && Progress(list.nodes, next, all, seen + 1, told, now, timeout)
            else list.nodes == old(list.nodes) && k == |list.nodes|
    ensures forall i | 0 <= i < |list.nodes| :: list.nodes[i] in old(list.nodes)
  {
    hide ReportsOf, Values, Chain, AdList.Distinct, Linked, Kept, List.Valid, Progress, Look;
    ghost var nodes := list.nodes;
    var maxtime := timeout * VALIDITY_MULT;
    var node := iter.Next(list, k);
    next := k;
    if node == null { return false, k; }
    ProgressKeeps(nodes, k, all, seen, told, now, timeout);
    assert told[node] == Report(node.value.node, node.value.time);
    if now - node.value.time > maxtime {
      list.DelNode(node, k);
    } else {
      next := k + 1;
    }
    more := true;
  }

  /** clusterNodeCleanupFailureReports: the iteration goes on from the node after the deleted
      one, so each report is looked at once. */
  method CleanupFailureReports(list: List<FailReport>, now: int, timeout: int)
    requires list.Valid()
    modifies list`head, list`tail, list`len, list`nodes, list.nodes`prev, list.nodes`next
    ensures list.Valid()
    ensures ReportsOf(list.Contents()) == Kept(old(ReportsOf(list.Contents())), now, timeout)
    ensures old(OwnRecords(list.nodes)) ==> OwnRecords(list.nodes)
  {
    hide ReportsOf, Values, Chain, AdList.Distinct, Linked, Kept, List.Valid, Progress, Look, OwnRecords;
    ghost var all := list.nodes;
    ghost var seen: nat, k: nat := 0, 0;
    ghost var told := map n | n in all :: Report(n.value.node, n.value.time);
    var iter := new ListIter<FailReport>(list, true);
    ProgressStarts(all, told, now, timeout);
    while true
      invariant list.Valid() && Progress(list.nodes, k, all, seen, told, now, timeout)
      invariant k <= |list.nodes| && iter.next == NodeAt(list.nodes, k) && fresh(iter) && iter.fromHead
      invariant Told(told) && forall i | 0 <= i < |list.nodes| :: list.nodes[i] in all
      decreases |all| - seen
    {
      var more, next := VisitNext(list, iter, k, all, seen, told, now, timeout);
      if !more { break; }
      seen, k := seen + 1, next;
    }
    ProgressEnds(list.nodes, k, all, seen, told, now, timeout);
    LookIsReports(list.nodes, told);
    FewerRecords(list.nodes, all);
  }

  lemma FewerRecords(nodes: seq<ListNode<FailReport>>, all: seq<ListNode<FailReport>>)
    requires forall n | n in nodes :: n in all
    ensures OwnRecords(all) ==> OwnRecords(nodes)
  {
  }

  lemma ProgressStarts(all: seq<ListNode<FailReport>>, told: map<ListNode<FailReport>, Report>, now: int, timeout: int)
    requires forall n | n in all :: n in told && told[n] == Report(n.value.node, n.value.time)
    ensures Progress(all, 0, all, 0, told, now, timeout)
    ensures Look(all, told) == ReportsOf(Values(all))
  {
    LookIsReports(all, told);
  }

  lemma ProgressEnds(nodes: seq<ListNode<FailReport>>, k: nat, all: seq<ListNode<FailReport>>, seen: nat,
                     told: map<ListNode<FailReport>, Report>, now: int, timeout: int)
    requires Progress(nodes, k, all, seen, told, now, timeout) && k == |nodes|
    ensures (forall n | n in all :: n in told) && (forall n | n in nodes :: n in all)
    ensures Look(nodes, told) == Kept(Look(all, told), now, timeout)
  {
    hide Kept, Look;
    assert |nodes[k..]| == |all[seen..]|;
    assert nodes[..k] == nodes && all[..seen] == all;
  }

  /** clusterNodeDelFailureReport: the old reports go only if the one looked for was there. */
  method DelFailureReport(list: List<FailReport>, sender: ClusterModel.Id, now: int, timeout: int) returns (found: bool)
    requires Valid(list)
    modifies list`head, list`tail, list`len, list`nodes, list.nodes`prev, list.nodes`next
    ensures Valid(list)
    ensures ReportsOf(list.Contents()) == Deleted(old(ReportsOf(list.Contents())), sender, now, timeout)
    ensures found == (sender in Reporters(old(ReportsOf(list.Contents()))))
  {
    hide ReportsOf, Values, Chain, AdList.Distinct, Linked, Kept, List.Valid, First, Reporters, OwnRecords;
    ghost var nodes, records := list.nodes, list.Contents();
    var node, k := FindReport(list, sender);
    if node == null { return false; }
    list.DelNode(node, k);
    FewerRecords(list.nodes, nodes);
    Untold(records, k);
    CleanupFailureReports(list, now, timeout);
    return true;
  }

  lemma Untold(records: seq<FailReport>, k: nat)
    requires k < |records|
    ensures ReportsOf(records[..k] + records[k + 1..]) == ReportsOf(records)[..k] + ReportsOf(records)[k + 1..]
  {
    hide ReportsOf;
  }

  /** clusterNodeFailureReportsCount: the number of nodes whose last report is recent. */
  method FailureReportsCount(list: List<FailReport>, now: int, timeout: int) returns (count: int)
    requires Valid(list)
    modifies list`head, list`tail, list`len, list`nodes, list.nodes`prev, list.nodes`next
    ensures Valid(list)
    ensures ReportsOf(list.Contents()) == Kept(old(ReportsOf(list.Contents())), now, timeout)
    ensures old(OneEach(ReportsOf(list.Contents()))) ==> count == |Reporters(ReportsOf(list.Contents()))|
  {
    hide ReportsOf, Values, Kept, OneEach, Reporters;
    ghost var reports := ReportsOf(list.Contents());
    CleanupFailureReports(list, now, timeout);
    KeptExactly(reports, now, timeout);
    if OneEach(reports) { ReportersCount(ReportsOf(list.Contents())); }
    return list.len;
  }
}
