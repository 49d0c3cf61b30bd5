/**
 * The recovery run of RecoverLost: suite (recoverlost_lib.rb, lines 50-67),
 * start_recover (lines 133-158) and the node helpers as methods of a class
 * holding the run state, each proved equal to a function of the network
 * state; the properties of the run are lemmas about those functions.
 */
module Recovery {
  import opened Wrappers
  import opened Bytes
  import opened Text
  import opened Network
  import opened LostSet
  import opened Storage
  import opened Protocol
  import opened Records
  import opened Arguments

  /** The routing snapshot fetched from the seed node. */
  datatype RoutingData = RoutingData(
    nodes: seq<string>,             // rd.nodes
    vnodes: seq<int>,               // rd.v_idx.keys, in the hash's order
    vIdx: map<int, seq<string>>,    // rd.v_idx; a vnode absent here reads as nil
    vClk: map<int, int>,            // rd.v_clk
    lost: seq<int>)                 // rd.get_lost_vnodes, computed by the routing module

  /** vs lists the keys of idx, each once: Hash#keys. */
  ghost predicate KeysOf(vs: seq<int>, idx: map<int, seq<string>>) {
    Distinct(vs) && forall v :: v in idx <==> v in vs
  }

  /** vnodes lists the keys of v_idx, each once. */
  ghost predicate IndexKeys(rd: RoutingData) {
    KeysOf(rd.vnodes, rd.vIdx)
  }

  /** @rd.v_idx[vn], with nil read as the empty list. */
  function OwnersOf(rd: RoutingData, vn: int): seq<string> {
    if vn in rd.vIdx then rd.vIdx[vn] else []
  }

  /** Where start_recover sends a vnode. */
  datatype Placement =
    | Owners(nodes: seq<string>)    // the vnode has owners: they are all resynchronised
    | Assigned(node: string)        // none: one node of rd.nodes is chosen
    | NoNode                        // none, and rd.nodes is empty: the target is nil

  /** The placement strategy: index `choice` stands for rand(@rd.nodes.length). */
  ghost predicate ChoicesOk(rd: RoutingData, choose: nat -> nat) {
    |rd.nodes| > 0 ==> forall k: nat :: choose(k) < |rd.nodes|
  }

  /** Target selection, lines 135-143. */
  function Place(rd: RoutingData, vn: int, choice: nat): (p: Placement)
    requires |rd.nodes| > 0 ==> choice < |rd.nodes|
    ensures p.Owners? <==> |OwnersOf(rd, vn)| > 0
    ensures p.Owners? ==> p.nodes == rd.vIdx[vn]
    ensures p.Assigned? <==> |OwnersOf(rd, vn)| == 0 && |rd.nodes| > 0
    ensures p.Assigned? ==> p.node == rd.nodes[choice] && p.node in rd.nodes
  {
    var owners := OwnersOf(rd, vn);
    if |owners| > 0 then Owners(owners)
    else if |rd.nodes| > 0 then Assigned(rd.nodes[choice])
    else NoNode
  }

  /** The nodes the vnode is pushed to (a nil target is not a node). */
  function Targets(p: Placement): seq<string> {
    match p
    case Owners(ns) => ns
    case Assigned(n) => [n]
    case NoNode => []
  }

  /** "#{@rd.v_clk[vn]}": the clock, or nothing for nil. */
  function ClockText(rd: RoutingData, vn: int): string {
    if vn in rd.vClk then IntToString(rd.vClk[vn]) else ""
  }

  /** The routing update of line 153. */
  function SetRouteCmd(rd: RoutingData, vn: int, nid: string): string {
    "setroute " + IntToString(vn) + " " + ClockText(rd, vn) + " " + nid + "\r\n"
  }

  /** What start_recover reads from the RecoverLost object. */
  datatype Context = Context(pushvCmd: string, rd: RoutingData, lost: seq<int>, storage: Option<Store>)

  /** What each_vn_dump yields; nil storage raises. */
  function Dump(storage: Option<Store>, vn: int): Option<seq<seq<byte>>> {
    if storage.Some? then Some(DumpOf(storage.value, vn)) else None
  }

  type Pushes = seq<(string, Option<string>)>

  predicate AllStored(ps: Pushes) {
    forall i :: 0 <= i < |ps| ==> ps[i].1 == Some(STORED)
  }

  /** Lines 145-150: push to each target in turn, stopping after the first result other than "STORED". */
  function PushAll(ctx: Context, hname: string, vn: int, targets: seq<string>, net: Net): (Pushes, Net) {
    if targets == [] then ([], net)
    else
      var (r, n1) := PushSpec(ctx.pushvCmd, hname, vn, targets[0], Dump(ctx.storage, vn), net);
      if r != Some(STORED) then ([(targets[0], r)], n1)
      else
        var (rest, n2) := PushAll(ctx, hname, vn, targets[1..], n1);
        ([(targets[0], r)] + rest, n2)
  }

  /** One push, then the rest of the targets when it was stored. */
  lemma PushAllCons(ctx: Context, hname: string, vn: int, targets: seq<string>, net: Net, r: Option<string>, n1: Net)
    requires targets != []
    requires (r, n1) == PushSpec(ctx.pushvCmd, hname, vn, targets[0], Dump(ctx.storage, vn), net)
    ensures r != Some(STORED) ==> PushAll(ctx, hname, vn, targets, net) == ([(targets[0], r)], n1)
    ensures r == Some(STORED) ==>
      && PushAll(ctx, hname, vn, targets, net).0 == [(targets[0], r)] + PushAll(ctx, hname, vn, targets[1..], n1).0
      && PushAll(ctx, hname, vn, targets, net).1 == PushAll(ctx, hname, vn, targets[1..], n1).1
  {
  }

  datatype RouteUpdate = RouteUpdate(cmd: string, reply: Option<string>, broadcast: Option<Replies>)

  /** What start_recover did for one vnode. */
  datatype Report = Report(vn: int, placement: Placement, pushes: Pushes, route: Option<RouteUpdate>)

  /** The vnode went through without a call to `exit`. */
  predicate Succeeded(rep: Report) {
    match rep.placement
    case Owners(ns) => |rep.pushes| == |ns| && AllStored(rep.pushes)
    case Assigned(n) =>
      |rep.pushes| == 1 && AllStored(rep.pushes) && rep.route.Some? && rep.route.value.reply.Some?
    case NoNode => false
  }

  /**
   * One vnode of start_recover, once placed. For a new assignment the
   * routing update goes to the chosen node nids[0]; line 153 reads `nid`,
   * which is only bound inside the block of line 145 (see
   * RecoverVnodeAsWritten). A nil direct reply stops the run; otherwise the
   * command is broadcast, passing the node id String as without_nids.
   */
  function RecoverVnode(ctx: Context, hname: string, vn: int, p: Placement, net: Net): (r: (Report, Net))
    ensures r.0.vn == vn && r.0.placement == p
  {
    var (ps, n1) := PushAll(ctx, hname, vn, Targets(p), net);
    if !p.Assigned? || !AllStored(ps) then (Report(vn, p, ps, None), n1)
    else
      var cmd := SetRouteCmd(ctx.rd, vn, p.node);
      var (r, n2) := SendSpec(p.node, cmd, n1);
      if r.None? then (Report(vn, p, ps, Some(RouteUpdate(cmd, None, None))), n2)
      else
        var (b, n3) := BroadcastSpec(ctx.rd.nodes, cmd, Substrings(p.node), n2);
        (Report(vn, p, ps, Some(RouteUpdate(cmd, r, Some(b)))), n3)
  }

  /** What is done for one placed vnode. */
  type Step = (int, Placement, Net) -> (Report, Net)

  /** The step of start_recover on one storage unit. */
  function StepOf(ctx: Context, hname: string): Step {
    (vn, p, net) => RecoverVnode(ctx, hname, vn, p, net)
  }

  /** A step reports on the vnode and placement it was given. */
  ghost predicate Reports(step: Step) {
    forall vn, p, net :: step(vn, p, net).0.vn == vn && step(vn, p, net).0.placement == p
  }

  lemma StepOfReports(ctx: Context, hname: string)
    ensures Reports(StepOf(ctx, hname))
  {
  }

  /** step is the vnode step of start_recover on ctx and hname. */
  ghost predicate Runs(step: Step, ctx: Context, hname: string) {
    forall vn, p, net {:trigger RecoverVnode(ctx, hname, vn, p, net)} :: step(vn, p, net) == RecoverVnode(ctx, hname, vn, p, net)
  }

  lemma StepOfRuns(ctx: Context, hname: string)
    ensures Runs(StepOf(ctx, hname), ctx, hname)
  {
  }

  datatype Outcome = Done | Aborted(idx: nat, vn: int)

  /** start_recover from the k-th lost vnode on. */
  function RecoverFrom(rd: RoutingData, lost: seq<int>, step: Step, choose: nat -> nat, k: nat, net: Net): (Outcome, seq<Report>, Net)
    requires k <= |lost| && ChoicesOk(rd, choose)
    decreases |lost| - k
  {
    if k == |lost| then (Done, [], net)
    else
      var (rep, n1) := step(lost[k], Place(rd, lost[k], choose(k)), net);
      if !Succeeded(rep) then (Aborted(k, lost[k]), [rep], n1)
      else
        var (o, reps, n2) := RecoverFrom(rd, lost, step, choose, k + 1, n1);
        (o, [rep] + reps, n2)
  }

  /** One vnode, then the rest when it went through. */
  lemma RecoverFromCons(rd: RoutingData, lost: seq<int>, step: Step, choose: nat -> nat, k: nat, net: Net, rep: Report, n1: Net)
    requires k < |lost| && ChoicesOk(rd, choose)
    requires (rep, n1) == step(lost[k], Place(rd, lost[k], choose(k)), net)
    ensures !Succeeded(rep) ==> RecoverFrom(rd, lost, step, choose, k, net) == (Aborted(k, lost[k]), [rep], n1)
    ensures Succeeded(rep) ==>
      && RecoverFrom(rd, lost, step, choose, k, net).0 == RecoverFrom(rd, lost, step, choose, k + 1, n1).0
      && RecoverFrom(rd, lost, step, choose, k, net).1 == [rep] + RecoverFrom(rd, lost, step, choose, k + 1, n1).1
      && RecoverFrom(rd, lost, step, choose, k, net).2 == RecoverFrom(rd, lost, step, choose, k + 1, n1).2
  {
  }

  /** The placement strategy of unit u. */
  function ChoicesFor(pick: (nat, nat) -> nat, u: nat): nat -> nat {
    k => pick(u, k)
  }

  datatype SuiteOutcome =
    | Finished
    | NothingLost                        // `exit if @lost_vnodes.length == 0`
    | HistoryUnavailable                 // get_lost_vnodes raised
    | StorageFailed(unit: string, why: Opened)
    | Stopped(unit: string, outcome: Outcome)

  /** The each_hash loop of suite from the u-th entry on: open each unit, run start_recover on it. */
  function RecoverUnits(pushvCmd: string, rd: RoutingData, lost: seq<int>, storage: Option<Store>,
                        entries: seq<Entry>, pick: (nat, nat) -> nat, u: nat, net: Net): (SuiteOutcome, Option<Store>, Net)
    requires u <= |entries|
    requires forall i :: 0 <= i < |entries| ==> '/' in entries[i].path
    requires |rd.nodes| > 0 ==> forall v: nat, k: nat :: pick(v, k) < |rd.nodes|
    decreases |entries| - u
  {
    if u == |entries| then (Finished, storage, net)
    else if !entries[u].isDir then RecoverUnits(pushvCmd, rd, lost, storage, entries, pick, u + 1, net)
    else
      var hname := HashName(entries[u].path).value;
      var unit := OpenStorage(entries[u], lost);
      if !unit.Opened? then (StorageFailed(hname, unit), storage, net)
      else
        var st := Some(unit.store);
        var (o, _, n1) := RecoverFrom(rd, lost, StepOf(Context(pushvCmd, rd, lost, st), hname), ChoicesFor(pick, u), 0, net);
        if o.Aborted? then (Stopped(hname, o), st, n1)
        else RecoverUnits(pushvCmd, rd, lost, st, entries, pick, u + 1, n1)
  }

  /** The run of start_recover on a unit that opened, from the network state net. */
  function UnitRun(pushvCmd: string, rd: RoutingData, lost: seq<int>, entries: seq<Entry>,
                   pick: (nat, nat) -> nat, j: nat, net: Net): (Outcome, seq<Report>, Net)
    requires j < |entries| && '/' in entries[j].path && OpenStorage(entries[j], lost).Opened?
    requires |rd.nodes| > 0 ==> forall v: nat, k: nat :: pick(v, k) < |rd.nodes|
  {
    var ctx := Context(pushvCmd, rd, lost, Some(OpenStorage(entries[j], lost).store));
    RecoverFrom(rd, lost, StepOf(ctx, HashName(entries[j].path).value), ChoicesFor(pick, j), 0, net)
  }

  /** The network after entry j: a unit that opened has run on it, anything else leaves it. */
  function NetAfter(pushvCmd: string, rd: RoutingData, lost: seq<int>, entries: seq<Entry>,
                    pick: (nat, nat) -> nat, j: nat, net: Net): Net
    requires j < |entries| && '/' in entries[j].path
    requires |rd.nodes| > 0 ==> forall v: nat, k: nat :: pick(v, k) < |rd.nodes|
  {
    if entries[j].isDir && OpenStorage(entries[j], lost).Opened?
    then UnitRun(pushvCmd, rd, lost, entries, pick, j, net).2
    else net
  }

  /** The network the unit loop, started at entry u on net, hands to entry j. */
  function NetBefore(pushvCmd: string, rd: RoutingData, lost: seq<int>, entries: seq<Entry>,
                     pick: (nat, nat) -> nat, u: nat, net: Net, j: nat): Net
    requires u <= j <= |entries| && forall i :: 0 <= i < |entries| ==> '/' in entries[i].path
    requires |rd.nodes| > 0 ==> forall v: nat, k: nat :: pick(v, k) < |rd.nodes|
    decreases j - u
  {
    if j == u then net
    else NetBefore(pushvCmd, rd, lost, entries, pick, u + 1, NetAfter(pushvCmd, rd, lost, entries, pick, u, net), j)
  }

  /** Entry j, reached on net, is no directory, or a unit that opened and whose run went through every lost vnode. */
  ghost predicate UnitDone(pushvCmd: string, rd: RoutingData, lost: seq<int>, entries: seq<Entry>,
                           pick: (nat, nat) -> nat, j: nat, net: Net)
    requires j < |entries| && '/' in entries[j].path
    requires |rd.nodes| > 0 ==> forall v: nat, k: nat :: pick(v, k) < |rd.nodes|
  {
    entries[j].isDir ==>
      OpenStorage(entries[j], lost).Opened? && UnitRun(pushvCmd, rd, lost, entries, pick, j, net).0.Done?
  }

  /** Every entry from u up to i is done, each on the network the loop hands to it. */
  ghost predicate UnitsDone(pushvCmd: string, rd: RoutingData, lost: seq<int>, entries: seq<Entry>,
                            pick: (nat, nat) -> nat, u: nat, net: Net, i: nat)
    requires u <= i <= |entries| && forall j :: 0 <= j < |entries| ==> '/' in entries[j].path
    requires |rd.nodes| > 0 ==> forall v: nat, k: nat :: pick(v, k) < |rd.nodes|
  {
    forall j :: u <= j < i ==>
      UnitDone(pushvCmd, rd, lost, entries, pick, j, NetBefore(pushvCmd, rd, lost, entries, pick, u, net, j))
  }

  /** Entry i is the directory the result names as failing to open. */
  ghost predicate FailsOpening(lost: seq<int>, entries: seq<Entry>, i: nat, o: SuiteOutcome)
    requires i < |entries| && '/' in entries[i].path
  {
    && entries[i].isDir && !OpenStorage(entries[i], lost).Opened?
    && o == StorageFailed(HashName(entries[i].path).value, OpenStorage(entries[i], lost))
  }

  /** Entry i, reached on net, is the unit the result names as the one whose run aborted, with that run's outcome. */
  ghost predicate AbortsAt(pushvCmd: string, rd: RoutingData, lost: seq<int>, entries: seq<Entry>,
                           pick: (nat, nat) -> nat, i: nat, net: Net, o: SuiteOutcome)
    requires i < |entries| && '/' in entries[i].path
    requires |rd.nodes| > 0 ==> forall v: nat, k: nat :: pick(v, k) < |rd.nodes|
  {
    && entries[i].isDir && OpenStorage(entries[i], lost).Opened?
    && o == Stopped(HashName(entries[i].path).value, UnitRun(pushvCmd, rd, lost, entries, pick, i, net).0)
    && o.outcome.Aborted?
  }

  /**
   * The each_hash loop of suite goes through the listing in order, each unit
   * running on the network the units before it left. It finishes only when
   * every unit directory opened and its run went through; otherwise it names
   * the first directory that failed to open or whose run aborted, every entry
   * before it having gone through. The final network is the one the last
   * step left.
   */
  lemma {:induction false} RecoverUnitsShape(pushvCmd: string, rd: RoutingData, lost: seq<int>, storage: Option<Store>,
                                             entries: seq<Entry>, pick: (nat, nat) -> nat, u: nat, net: Net)
    requires u <= |entries|
    requires forall i :: 0 <= i < |entries| ==> '/' in entries[i].path
    requires |rd.nodes| > 0 ==> forall v: nat, k: nat :: pick(v, k) < |rd.nodes|
    ensures var (o, _, out) := RecoverUnits(pushvCmd, rd, lost, storage, entries, pick, u, net);
      && (o.Finished? || o.StorageFailed? || o.Stopped?)
      && (o.Finished? ==>
            UnitsDone(pushvCmd, rd, lost, entries, pick, u, net, |entries|)
            && out == NetBefore(pushvCmd, rd, lost, entries, pick, u, net, |entries|))
      && (o.StorageFailed? ==>
            exists i :: u <= i < |entries| && FailsOpening(lost, entries, i, o)
                          && UnitsDone(pushvCmd, rd, lost, entries, pick, u, net, i)
                          && out == NetBefore(pushvCmd, rd, lost, entries, pick, u, net, i))
      && (o.Stopped? ==>
            exists i :: u <= i < |entries|
                          && AbortsAt(pushvCmd, rd, lost, entries, pick, i, NetBefore(pushvCmd, rd, lost, entries, pick, u, net, i), o)
                          && UnitsDone(pushvCmd, rd, lost, entries, pick, u, net, i)
                          && out == NetAfter(pushvCmd, rd, lost, entries, pick, i, NetBefore(pushvCmd, rd, lost, entries, pick, u, net, i)))
    decreases |entries| - u
  {
    var (o, _, out) := RecoverUnits(pushvCmd, rd, lost, storage, entries, pick, u, net);
    if u == |entries| {
      return;
    }
    var e := entries[u];
    var unit := OpenStorage(e, lost);
    assert NetBefore(pushvCmd, rd, lost, entries, pick, u, net, u) == net;
    if e.isDir && !unit.Opened? {
      assert FailsOpening(lost, entries, u, o);
      return;
    }
    var st := storage;
    var n1 := NetAfter(pushvCmd, rd, lost, entries, pick, u, net);
    if e.isDir {
      st := Some(unit.store);
      if UnitRun(pushvCmd, rd, lost, entries, pick, u, net).0.Aborted? {
        assert AbortsAt(pushvCmd, rd, lost, entries, pick, u, net, o);
        return;
      }
    }
    assert UnitDone(pushvCmd, rd, lost, entries, pick, u, net);
    assert (o, out) == (RecoverUnits(pushvCmd, rd, lost, st, entries, pick, u + 1, n1).0,
                        RecoverUnits(pushvCmd, rd, lost, st, entries, pick, u + 1, n1).2);
    RecoverUnitsShape(pushvCmd, rd, lost, st, entries, pick, u + 1, n1);
    if o.Finished? {
      UnitsCons(pushvCmd, rd, lost, entries, pick, u, net, |entries|);
    } else if o.StorageFailed? {
      FailedCons(pushvCmd, rd, lost, entries, pick, u, net, u + 1, n1, o, out);
    } else {
      StoppedCons(pushvCmd, rd, lost, entries, pick, u, net, u + 1, n1, o, out);
    }
  }

  /** A failure to open found after entry u, which went through, is the first one from u on as well. */
  lemma FailedCons(pushvCmd: string, rd: RoutingData, lost: seq<int>, entries: seq<Entry>,
                   pick: (nat, nat) -> nat, u: nat, net: Net, u1: nat, n1: Net, o: SuiteOutcome, out: Net)
    requires u < |entries| && forall j :: 0 <= j < |entries| ==> '/' in entries[j].path
    requires |rd.nodes| > 0 ==> forall v: nat, k: nat :: pick(v, k) < |rd.nodes|
    requires UnitDone(pushvCmd, rd, lost, entries, pick, u, net)
    requires u1 == u + 1 && n1 == NetAfter(pushvCmd, rd, lost, entries, pick, u, net)
    requires exists i :: u1 <= i < |entries| && FailsOpening(lost, entries, i, o)
                    && UnitsDone(pushvCmd, rd, lost, entries, pick, u1, n1, i)
                    && out == NetBefore(pushvCmd, rd, lost, entries, pick, u1, n1, i)
    ensures exists i :: u <= i < |entries| && FailsOpening(lost, entries, i, o)
                          && UnitsDone(pushvCmd, rd, lost, entries, pick, u, net, i)
                          && out == NetBefore(pushvCmd, rd, lost, entries, pick, u, net, i)
  {
    var i :| u1 <= i < |entries| && FailsOpening(lost, entries, i, o)
             && UnitsDone(pushvCmd, rd, lost, entries, pick, u1, n1, i)
             && out == NetBefore(pushvCmd, rd, lost, entries, pick, u1, n1, i);
    UnitsCons(pushvCmd, rd, lost, entries, pick, u, net, i);
  }

  /** An aborted run found after entry u, which went through, is the first one from u on as well. */
  lemma StoppedCons(pushvCmd: string, rd: RoutingData, lost: seq<int>, entries: seq<Entry>,
                    pick: (nat, nat) -> nat, u: nat, net: Net, u1: nat, n1: Net, o: SuiteOutcome, out: Net)
    requires u < |entries| && forall j :: 0 <= j < |entries| ==> '/' in entries[j].path
    requires |rd.nodes| > 0 ==> forall v: nat, k: nat :: pick(v, k) < |rd.nodes|
    requires UnitDone(pushvCmd, rd, lost, entries, pick, u, net)
    requires u1 == u + 1 && n1 == NetAfter(pushvCmd, rd, lost, entries, pick, u, net)
    requires exists i :: u1 <= i < |entries|
                    && AbortsAt(pushvCmd, rd, lost, entries, pick, i, NetBefore(pushvCmd, rd, lost, entries, pick, u1, n1, i), o)
                    && UnitsDone(pushvCmd, rd, lost, entries, pick, u1, n1, i)
                    && out == NetAfter(pushvCmd, rd, lost, entries, pick, i, NetBefore(pushvCmd, rd, lost, entries, pick, u1, n1, i))
    ensures exists i :: u <= i < |entries|
                          && AbortsAt(pushvCmd, rd, lost, entries, pick, i, NetBefore(pushvCmd, rd, lost, entries, pick, u, net, i), o)
                          && UnitsDone(pushvCmd, rd, lost, entries, pick, u, net, i)
                          && out == NetAfter(pushvCmd, rd, lost, entries, pick, i, NetBefore(pushvCmd, rd, lost, entries, pick, u, net, i))
  {
    var i :| u1 <= i < |entries|
             && AbortsAt(pushvCmd, rd, lost, entries, pick, i, NetBefore(pushvCmd, rd, lost, entries, pick, u1, n1, i), o)
             && UnitsDone(pushvCmd, rd, lost, entries, pick, u1, n1, i)
             && out == NetAfter(pushvCmd, rd, lost, entries, pick, i, NetBefore(pushvCmd, rd, lost, entries, pick, u1, n1, i));
    UnitsCons(pushvCmd, rd, lost, entries, pick, u, net, i);
  }

  /** Entry u done on net, and the entries after it done from the network it leaves, are all done from u on. */
  lemma UnitsCons(pushvCmd: string, rd: RoutingData, lost: seq<int>, entries: seq<Entry>,
                  pick: (nat, nat) -> nat, u: nat, net: Net, i: nat)
    requires u < i <= |entries| && forall j :: 0 <= j < |entries| ==> '/' in entries[j].path
    requires |rd.nodes| > 0 ==> forall v: nat, k: nat :: pick(v, k) < |rd.nodes|
    requires UnitDone(pushvCmd, rd, lost, entries, pick, u, net)
    requires UnitsDone(pushvCmd, rd, lost, entries, pick, u + 1, NetAfter(pushvCmd, rd, lost, entries, pick, u, net), i)
    ensures UnitsDone(pushvCmd, rd, lost, entries, pick, u, net, i)
    ensures NetBefore(pushvCmd, rd, lost, entries, pick, u, net, i)
         == NetBefore(pushvCmd, rd, lost, entries, pick, u + 1, NetAfter(pushvCmd, rd, lost, entries, pick, u, net), i)
  {
    var n1 := NetAfter(pushvCmd, rd, lost, entries, pick, u, net);
    forall j | u <= j < i
      ensures UnitDone(pushvCmd, rd, lost, entries, pick, j, NetBefore(pushvCmd, rd, lost, entries, pick, u, net, j))
    {
      if j > u {
        assert NetBefore(pushvCmd, rd, lost, entries, pick, u, net, j) == NetBefore(pushvCmd, rd, lost, entries, pick, u + 1, n1, j);
      }
    }
  }

  /** The exchange of get_history_of_lost when it returns. */
  function HistorySpec(nid: string, ymdhms: string, net: Net): Option<(seq<int>, Net)> {
    match HistoryOf(net.replies)
    case None => None
    case Some((vs, m)) =>
      Some((vs, Net(net.log + [Event(nid, Line(HistoryCommand(ymdhms)))], Drop(net.replies, m))))
  }

  /**
   * get_lost_vnodes when it returns. With a timestamp the history comes
   * from rd.nodes[0]; an empty node list makes that nil and the connection
   * attempt raises.
   */
  function LostSpec(rd: RoutingData, ymdhms: Option<string>, net: Net): Option<(seq<int>, Net)> {
    if ymdhms.None? then Some((rd.lost, net))
    else if |rd.nodes| == 0 then None
    else match HistorySpec(rd.nodes[0], ymdhms.value, net)
      case None => None
      case Some((h, n1)) => Some((LostVnodes(rd.lost, ymdhms, h), n1))
  }

  /**
   * Lines 145-150: the pushes go to the targets in order and stop at the
   * first result other than "STORED"; only a run in which every target
   * stored goes on.
   */
  ghost predicate PushShaped(targets: seq<string>, ps: Pushes) {
    && |ps| <= |targets| && (targets != [] ==> ps != [])
    && (forall i :: 0 <= i < |ps| ==> ps[i].0 == targets[i])
    && (forall i :: 0 <= i < |ps| - 1 ==> ps[i].1 == Some(STORED))
    && (AllStored(ps) ==> |ps| == |targets|)
    && (!AllStored(ps) ==> ps[|ps| - 1].1 != Some(STORED))
  }

  /** A stored push in front of the pushes to the remaining targets. */
  lemma PushShapedCons(targets: seq<string>, r: Option<string>, rest: Pushes)
    requires targets != [] && r == Some(STORED) && PushShaped(targets[1..], rest)
    ensures PushShaped(targets, [(targets[0], r)] + rest)
  {
    var ps := [(targets[0], r)] + rest;
    forall i | 0 <= i < |ps|
      ensures ps[i].0 == targets[i] && (i < |ps| - 1 ==> ps[i].1 == Some(STORED))
    {
      if i > 0 {
        assert ps[i] == rest[i - 1] && targets[i] == targets[1..][i - 1];
      }
    }
    if AllStored(ps) {
      forall j | 0 <= j < |rest|
        ensures rest[j].1 == Some(STORED)
      {
        assert rest[j] == ps[j + 1];
      }
    } else {
      assert ps[|ps| - 1] == rest[|rest| - 1];
    }
  }

  lemma {:induction false} PushAllShape(ctx: Context, hname: string, vn: int, targets: seq<string>, net: Net)
    ensures PushShaped(targets, PushAll(ctx, hname, vn, targets, net).0)
  {
    if targets != [] {
      var (r, n1) := PushSpec(ctx.pushvCmd, hname, vn, targets[0], Dump(ctx.storage, vn), net);
      PushAllCons(ctx, hname, vn, targets, net, r, n1);
      if r == Some(STORED) {
        PushAllShape(ctx, hname, vn, targets[1..], n1);
        PushShapedCons(targets, r, PushAll(ctx, hname, vn, targets[1..], n1).0);
      } else {
        assert [(targets[0], r)][0] == (targets[0], r);
      }
    }
  }

  /** A vnode that still has owners gets no routing update: only the pushes are written. */
  lemma OwnedNoRoute(ctx: Context, hname: string, vn: int, choice: nat, net: Net)
    requires |ctx.rd.nodes| > 0 ==> choice < |ctx.rd.nodes|
    requires |OwnersOf(ctx.rd, vn)| > 0
    ensures var (rep, out) := RecoverVnode(ctx, hname, vn, Place(ctx.rd, vn, choice), net);
      && rep.placement == Owners(ctx.rd.vIdx[vn]) && rep.route.None?
      && (rep.pushes, out) == PushAll(ctx, hname, vn, ctx.rd.vIdx[vn], net)
      && (Succeeded(rep) <==> |rep.pushes| == |ctx.rd.vIdx[vn]| && AllStored(rep.pushes))
  {
  }

  /**
   * A newly assigned vnode whose push was stored: "setroute" goes to the
   * chosen node, and after a reply to every node but it; the broadcast
   * replies are keyed by those nodes.
   */
  lemma RouteUpdateSent(ctx: Context, hname: string, vn: int, choice: nat, net: Net)
    requires |ctx.rd.nodes| > 0 && choice < |ctx.rd.nodes| && |OwnersOf(ctx.rd, vn)| == 0
    requires AllStored(PushAll(ctx, hname, vn, [ctx.rd.nodes[choice]], net).0)
    ensures var (rep, out) := RecoverVnode(ctx, hname, vn, Place(ctx.rd, vn, choice), net);
      var t := ctx.rd.nodes[choice];
      var cmd := "setroute " + IntToString(vn) + " " + ClockText(ctx.rd, vn) + " " + t + "\r\n";
      var pushed := PushAll(ctx, hname, vn, [t], net).1;
      var others := Sendees(ctx.rd.nodes, Substrings(t));
      && rep.placement == Assigned(t) && |rep.pushes| == 1 && rep.pushes[0].0 == t
      && rep.route == Some(RouteUpdate(cmd, rep.route.value.reply, rep.route.value.broadcast))
      && rep.route.value.reply == ChompOpt(ReplyAt(pushed.replies, 0))
      && (rep.route.value.reply.None? ==>
            && rep.route.value.broadcast.None? && out.log == pushed.log + [Event(t, Line(cmd))]
            && out.replies == Drop(pushed.replies, 1))
      && (rep.route.value.reply.Some? ==>
            && out.log == pushed.log + [Event(t, Line(cmd))] + LineEvents(others, cmd)
            && out.replies == Drop(pushed.replies, 1 + |others|)
            && Keys(rep.route.value.broadcast.value) == Dedup(others))
      && t !in others
      && (Succeeded(rep) <==> rep.route.value.reply.Some?)
  {
    var t := ctx.rd.nodes[choice];
    var cmd := SetRouteCmd(ctx.rd, vn, t);
    var pushed := PushAll(ctx, hname, vn, [t], net).1;
    PushAllShape(ctx, hname, vn, [t], net);
    var n2 := SendSpec(t, cmd, pushed).1;
    BroadcastSpecShape(ctx.rd.nodes, cmd, Substrings(t), n2);
    DropDrop(pushed.replies, 1, |Sendees(ctx.rd.nodes, Substrings(t))|);
    SelfExcluded(ctx.rd.nodes, cmd, t, n2);
  }

  /** With no node to choose from, an owner-less vnode stops the run before anything is written. */
  lemma NoNodeStops(ctx: Context, hname: string, vn: int, choice: nat, net: Net)
    requires ctx.rd.nodes == [] && |OwnersOf(ctx.rd, vn)| == 0
    ensures var (rep, out) := RecoverVnode(ctx, hname, vn, Place(ctx.rd, vn, choice), net);
      rep.placement == NoNode && rep.pushes == [] && !Succeeded(rep) && out == net
  {
  }

  /**
   * A newly assigned vnode whose push was not stored stops the run after the
   * push: no "setroute" is sent, and nothing is written after the push.
   */
  lemma PushFailedStops(ctx: Context, hname: string, vn: int, choice: nat, net: Net)
    requires |ctx.rd.nodes| > 0 && choice < |ctx.rd.nodes| && |OwnersOf(ctx.rd, vn)| == 0
    requires !AllStored(PushAll(ctx, hname, vn, [ctx.rd.nodes[choice]], net).0)
    ensures var (rep, out) := RecoverVnode(ctx, hname, vn, Place(ctx.rd, vn, choice), net);
      && rep.placement == Assigned(ctx.rd.nodes[choice]) && rep.route.None?
      && (rep.pushes, out) == PushAll(ctx, hname, vn, [ctx.rd.nodes[choice]], net)
      && !Succeeded(rep)
  {
  }

  /**
   * The reports of a run of start_recover from the k-th lost vnode: at most
   * one per vnode, in order and with the placement chosen for it.
   */
  ghost predicate Placed(rd: RoutingData, lost: seq<int>, choose: nat -> nat, k: nat, reps: seq<Report>)
    requires k <= |lost| && ChoicesOk(rd, choose)
  {
    && |reps| <= |lost| - k
    && forall j :: 0 <= j < |reps| ==>
         reps[j].vn == lost[k + j] && reps[j].placement == Place(rd, lost[k + j], choose(k + j))
  }

  /**
   * How such a run ends: every report but the last went through; the run is
   * Done exactly when every vnode was handled and went through, and
   * otherwise it stopped at the vnode of its last report, which did not.
   */
  ghost predicate Halted(lost: seq<int>, k: nat, o: Outcome, reps: seq<Report>)
    requires k <= |lost|
  {
    && (forall j :: 0 <= j < |reps| - 1 ==> Succeeded(reps[j]))
    && (o.Done? <==> |reps| == |lost| - k && forall j :: 0 <= j < |reps| ==> Succeeded(reps[j]))
    && (o.Aborted? ==>
          0 < |reps| <= |lost| - k && o.idx == k + |reps| - 1 && o.vn == lost[o.idx] && !Succeeded(reps[|reps| - 1]))
  }

  /** The shape of a run of start_recover from the k-th lost vnode. */
  ghost predicate Shaped(rd: RoutingData, lost: seq<int>, choose: nat -> nat, k: nat, o: Outcome, reps: seq<Report>)
    requires k <= |lost| && ChoicesOk(rd, choose)
  {
    Placed(rd, lost, choose, k, reps) && Halted(lost, k, o, reps)
  }

  /** The report on the k-th vnode in front of the reports from the next one. */
  lemma PlacedCons(rd: RoutingData, lost: seq<int>, choose: nat -> nat, k: nat, rep: Report, rest: seq<Report>)
    requires k < |lost| && ChoicesOk(rd, choose)
    requires rep.vn == lost[k] && rep.placement == Place(rd, lost[k], choose(k))
    requires Placed(rd, lost, choose, k + 1, rest)
    ensures Placed(rd, lost, choose, k, [rep] + rest)
  {
    var reps := [rep] + rest;
    forall j | 0 <= j < |reps|
      ensures reps[j].vn == lost[k + j] && reps[j].placement == Place(rd, lost[k + j], choose(k + j))
    {
      if j > 0 {
        assert reps[j] == rest[j - 1];
      }
    }
  }

  /** A vnode that went through, in front of a run from the next one. */
  lemma HaltedCons(lost: seq<int>, k: nat, o: Outcome, rep: Report, rest: seq<Report>)
    requires k < |lost| && Succeeded(rep) && Halted(lost, k + 1, o, rest)
    ensures Halted(lost, k, o, [rep] + rest)
  {
    var reps := [rep] + rest;
    forall j | 0 <= j < |reps| - 1
      ensures Succeeded(reps[j])
    {
      if j > 0 {
        assert reps[j] == rest[j - 1];
      }
    }
    assert (forall j :: 0 <= j < |reps| ==> Succeeded(reps[j])) <==> (forall j :: 0 <= j < |rest| ==> Succeeded(rest[j])) by {
      if forall j :: 0 <= j < |rest| ==> Succeeded(rest[j]) {
        forall j | 0 <= j < |reps|
          ensures Succeeded(reps[j])
        {
          if j > 0 {
            assert reps[j] == rest[j - 1];
          }
        }
      }
      if forall j :: 0 <= j < |reps| ==> Succeeded(reps[j]) {
        forall j | 0 <= j < |rest|
          ensures Succeeded(rest[j])
        {
          assert rest[j] == reps[j + 1];
        }
      }
    }
    if o.Aborted? {
      assert reps[|reps| - 1] == rest[|rest| - 1];
    }
  }

  lemma {:induction false} RecoverFromShape(rd: RoutingData, lost: seq<int>, step: Step, choose: nat -> nat, k: nat, net: Net)
    requires k <= |lost| && ChoicesOk(rd, choose) && Reports(step)
    decreases |lost| - k
    ensures Shaped(rd, lost, choose, k, RecoverFrom(rd, lost, step, choose, k, net).0, RecoverFrom(rd, lost, step, choose, k, net).1)
  {
    if k < |lost| {
      var (rep, n1) := step(lost[k], Place(rd, lost[k], choose(k)), net);
      RecoverFromCons(rd, lost, step, choose, k, net, rep, n1);
      assert rep.vn == lost[k] && rep.placement == Place(rd, lost[k], choose(k));
      if !Succeeded(rep) {
        assert [rep][0] == rep;
      } else {
        RecoverFromShape(rd, lost, step, choose, k + 1, n1);
        PlacedCons(rd, lost, choose, k, rep, RecoverFrom(rd, lost, step, choose, k + 1, n1).1);
        HaltedCons(lost, k, RecoverFrom(rd, lost, step, choose, k + 1, n1).0, rep, RecoverFrom(rd, lost, step, choose, k + 1, n1).1);
      }
    }
  }

  /** A vnode that went through was stored by every node it was placed on, and by at least one. */
  lemma SucceededStored(rd: RoutingData, vn: int, choice: nat, rep: Report)
    requires |rd.nodes| > 0 ==> choice < |rd.nodes|
    requires rep.placement == Place(rd, vn, choice) && Succeeded(rep)
    ensures |rep.pushes| == |Targets(rep.placement)| >= 1 && AllStored(rep.pushes)
  {
  }

  /** When start_recover finishes, every lost vnode is stored on at least one node. */
  lemma DoneStoresAll(ctx: Context, hname: string, choose: nat -> nat, net: Net)
    requires ChoicesOk(ctx.rd, choose)
    ensures var (o, reps, _) := RecoverFrom(ctx.rd, ctx.lost, StepOf(ctx, hname), choose, 0, net);
      o.Done? ==> |reps| == |ctx.lost| && forall j :: 0 <= j < |reps| ==>
        reps[j].vn == ctx.lost[j] && |reps[j].pushes| >= 1 && AllStored(reps[j].pushes)
  {
    StepOfReports(ctx, hname);
    RecoverFromShape(ctx.rd, ctx.lost, StepOf(ctx, hname), choose, 0, net);
    var (o, reps, _) := RecoverFrom(ctx.rd, ctx.lost, StepOf(ctx, hname), choose, 0, net);
    if o.Done? {
      forall j | 0 <= j < |reps|
        ensures reps[j].vn == ctx.lost[j] && |reps[j].pushes| >= 1 && AllStored(reps[j].pushes)
      {
        SucceededStored(ctx.rd, ctx.lost[j], choose(j), reps[j]);
      }
    }
  }

  /** Lines 152-156 as written: what the block does once the pushes of a vnode were stored. */
  datatype AsWritten = Reported(rep: Report) | UndefinedNid(pushes: Pushes)

  /**
   * The vnode step as written: line 153 reads `nid`, which is bound only as
   * the parameter of the block of lines 145-150, so a newly assigned vnode
   * raises NameError there, after its pushes and before any routing update.
   */
  function RecoverVnodeAsWritten(ctx: Context, hname: string, vn: int, choice: nat, net: Net): (AsWritten, Net)
    requires |ctx.rd.nodes| > 0 ==> choice < |ctx.rd.nodes|
  {
    var p := Place(ctx.rd, vn, choice);
    var (ps, n1) := PushAll(ctx, hname, vn, Targets(p), net);
    if !p.Assigned? || !AllStored(ps) then (Reported(Report(vn, p, ps, None)), n1)
    else (UndefinedNid(ps), n1)
  }

  /** As written, no routing update is ever sent: the log ends with the pushes. */
  lemma AsWrittenNeverRoutes(ctx: Context, hname: string, vn: int, choice: nat, net: Net)
    requires |ctx.rd.nodes| > 0 ==> choice < |ctx.rd.nodes|
    ensures var (w, out) := RecoverVnodeAsWritten(ctx, hname, vn, choice, net);
      && out == PushAll(ctx, hname, vn, Targets(Place(ctx.rd, vn, choice)), net).1
      && (w.Reported? ==> w.rep.route.None?)
      && (w.UndefinedNid? <==>
            Place(ctx.rd, vn, choice).Assigned? && AllStored(PushAll(ctx, hname, vn, Targets(Place(ctx.rd, vn, choice)), net).0))
  {
  }

  /** The input on which the step as written and the corrected step part: vnode 7 has no owner. */
  function NidContext(): Context {
    Context("pushv", RoutingData(["a_1", "b_2", "c_3"], [7], map[7 := []], map[7 := 5], [7]), [7],
            Some(Store(TCStorage, 1, [7], "/data/h", map[])))
  }

  /** "b_2" answers READY to the handshake and STORED to the empty dump and to the routing update. */
  function NidNet(): Net {
    Net([], [Some("READY\r\n"), Some("STORED\r\n"), Some("STORED\r\n")])
  }

  /** On that input the push of vnode 7 to "b_2" is stored. */
  lemma NidPushed()
    ensures PushAll(NidContext(), "h", 7, ["b_2"], NidNet()).0 == [("b_2", Some(STORED))]
  {
    assert DumpOf(NidContext().storage.value, 7) == [];
    assert "STORED\r\n" == STORED + "\r\n";
    ChompCrLf(STORED);
  }

  /** As written, the step raises on that input once "b_2" (choice 1) has stored the vnode. */
  lemma NidAsWrittenRaises()
    ensures RecoverVnodeAsWritten(NidContext(), "h", 7, 1, NidNet()).0.UndefinedNid?
  {
    NidPushed();
  }

  class RecoverLost {
    const pushvCmd: string
    const nodeId: string
    const strgPath: string
    const ymdhms: Option<string>
    const alldata: bool
    var rd: RoutingData
    var lostVnodes: seq<int>
    var storage: Option<Store>

    /** initialize, once Validate has accepted the arguments; @rd is still unset (empty here). */
    constructor (c: Config)
      ensures pushvCmd == c.pushvCmd && nodeId == c.nodeId && strgPath == c.strgPath
      ensures ymdhms == c.ymdhms && alldata == c.alldata
      ensures rd == RoutingData([], [], map[], map[], []) && lostVnodes == [] && storage == None
    {
      pushvCmd := c.pushvCmd;
      nodeId := c.nodeId;
      strgPath := c.strgPath;
      ymdhms := c.ymdhms;
      alldata := c.alldata;
      rd := RoutingData([], [], map[], map[], []);
      lostVnodes := [];
      storage := None;
    }

    function Ctx(): Context
      reads this
    {
      Context(pushvCmd, rd, lostVnodes, storage)
    }

    method SendCmd(nid: string, cmd: string, net: Net) returns (res: Option<string>, net': Net)
      ensures (res, net') == SendSpec(nid, cmd, net)
    {
      net' := Write(net, nid, Line(cmd));
      var g := Gets(net');
      res, net' := ChompOpt(g.0), g.1;
    }

    method BroadcastCmd(cmd: string, without: Exclusion, net: Net) returns (res: Replies, net': Net)
      ensures (res, net') == BroadcastSpec(rd.nodes, cmd, without, net)
    {
      res, net' := [], net;
      var i := 0;
      while i < |rd.nodes|
        invariant 0 <= i <= |rd.nodes|
        invariant BroadcastSpec(rd.nodes, cmd, without, net) == BroadcastFrom(rd.nodes[i..], cmd, without, res, net')
      {
        var nid := rd.nodes[i];
        BroadcastStep(rd.nodes[i..], cmd, without, res, net');
        assert rd.nodes[i..][1..] == rd.nodes[i + 1..];
        if !Excluded(without, nid) {
          var r;
          r, net' := SendCmd(nid, cmd, net');
          res := Put(res, nid, r);
        }
        i := i + 1;
      }
    }

    /** The read loop of get_history_of_lost: values up to the end line. */
    method ReadHistory(net: Net) returns (ret: Option<seq<int>>, net': Net)
      ensures net'.log == net.log
      ensures ret.Some? <==> HistoryOf(net.replies).Some?
      ensures ret.Some? ==>
        ret.value == HistoryOf(net.replies).value.0 && net'.replies == Drop(net.replies, HistoryOf(net.replies).value.1)
    {
      var replies := net.replies;
      var vals: seq<int> := [];
      assert replies[0..] == replies;
      AfterNothing(HistoryOf(replies));
      while |vals| < |replies| && replies[|vals|].Some? && replies[|vals|].value != END
        invariant |vals| <= |replies|
        invariant HistoryOf(replies) == After(vals, HistoryOf(replies[|vals|..]))
        decreases |replies| - |vals|
      {
        var x := ToI(Chomp(replies[|vals|].value));
        HistoryStep(replies, |vals|);
        AfterCons(vals, x, HistoryOf(replies[|vals| + 1..]));
        vals := vals + [x];
      }
      HistoryStop(replies, |vals|);
      if |vals| < |replies| && replies[|vals|] == Some(END) {
        assert vals + [] == vals;
        ret, net' := Some(vals), Net(net.log, Drop(replies, |vals| + 1));
      } else {
        ret, net' := None, Net(net.log, Drop(replies, |vals|));
      }
    }

    method GetHistoryOfLost(nid: string, ymdhms: string, net: Net) returns (ret: Option<seq<int>>, net': Net)
      ensures net'.log == net.log + [Event(nid, Line(HistoryCommand(ymdhms)))]
      ensures ret.Some? <==> HistorySpec(nid, ymdhms, net).Some?
      ensures ret.Some? ==> (ret.value, net') == HistorySpec(nid, ymdhms, net).value
    {
      net' := Write(net, nid, Line(HistoryCommand(ymdhms)));
      ret, net' := ReadHistory(net');
    }

    method GetLostVnodes(rd: RoutingData, ymdhms: Option<string>, net: Net) returns (ret: Option<seq<int>>, net': Net)
      ensures ret.Some? <==> LostSpec(rd, ymdhms, net).Some?
      ensures ret.Some? ==> (ret.value, net') == LostSpec(rd, ymdhms, net).value
    {
      ret, net' := Some(rd.lost), net;
      if ymdhms.Some? {
        if |rd.nodes| == 0 {
          return None, net;
        }
        var h;
        h, net' := GetHistoryOfLost(rd.nodes[0], ymdhms.value, net);
        if h.None? {
          return None, net';
        }
        ret := Some(LostVnodes(rd.lost, ymdhms, h.value));
      }
    }

    method PushAVnodeStream(hname: string, vn: int, nid: string, net: Net) returns (res: Option<string>, net': Net)
      ensures (res, net') == PushSpec(pushvCmd, hname, vn, nid, Dump(storage, vn), net)
    {
      net' := Write(net, nid, Line(Handshake(pushvCmd, hname, vn)));
      var g := Gets(net');
      net' := g.1;
      if g.0 != Some(READY) {
        return ChompOpt(g.0), net';
      }
      if storage.None? {
        return None, net';
      }
      var dump := DumpOf(storage.value, vn);
      ghost var start := net';
      var i := 0;
      while i < |dump|
        invariant 0 <= i <= |dump|
        invariant Stream(nid, dump, start) == Stream(nid, dump[i..], net')
      {
        var out := ClkToZero(dump[i]);
        if out.None? {
          return None, net';
        }
        StreamStep(nid, dump[i..], net');
        assert dump[i..][1..] == dump[i + 1..];
        net' := Write(net', nid, Data(out.value));
        i := i + 1;
      }
      assert dump[i..] == [];
      net' := Write(net', nid, Data(Terminator()));
      g := Gets(net');
      res, net' := ChompOpt(g.0), g.1;
    }

    /** Lines 145-150: the pushes of one vnode, stopping after the first that is not stored. */
    method PushTargets(hname: string, vn: int, targets: seq<string>, net: Net) returns (ps: Pushes, net': Net)
      ensures (ps, net') == PushAll(Ctx(), hname, vn, targets, net)
    {
      ghost var ctx := Ctx();
      ps, net' := [], net;
      var i := 0;
      var stopped := false;
      assert targets[0..] == targets;
      assert [] + PushAll(ctx, hname, vn, targets, net).0 == PushAll(ctx, hname, vn, targets, net).0;
      while i < |targets| && !stopped
        invariant 0 <= i <= |targets|
        invariant stopped ==> PushAll(ctx, hname, vn, targets, net) == (ps, net')
        invariant !stopped ==>
          && PushAll(ctx, hname, vn, targets, net).0 == ps + PushAll(ctx, hname, vn, targets[i..], net').0
          && PushAll(ctx, hname, vn, targets, net).1 == PushAll(ctx, hname, vn, targets[i..], net').1
        decreases |targets| - i, if stopped then 0 else 1
      {
        var r, n1 := PushAVnodeStream(hname, vn, targets[i], net');
        assert targets[i..][1..] == targets[i + 1..];
        PushAllCons(ctx, hname, vn, targets[i..], net', r, n1);
        if r == Some(STORED) {
          var rest := PushAll(ctx, hname, vn, targets[i + 1..], n1).0;
          assert ps + ([(targets[i], r)] + rest) == (ps + [(targets[i], r)]) + rest;
        }
        ps, net' := ps + [(targets[i], r)], n1;
        if r != Some(STORED) {
          stopped := true;
        } else {
          i := i + 1;
        }
      }
      if !stopped {
        assert targets[i..] == [];
        assert ps + [] == ps;
      }
    }

    /** The body of the each_with_index block of start_recover, for one lost vnode. */
    method RecoverAVnode(hname: string, vn: int, p: Placement, net: Net) returns (rep: Report, net': Net)
      ensures (rep, net') == RecoverVnode(Ctx(), hname, vn, p, net)
    {
      var ps;
      ps, net' := PushTargets(hname, vn, Targets(p), net);
      if !p.Assigned? || !AllStored(ps) {
        return Report(vn, p, ps, None), net';
      }
      var cmd := SetRouteCmd(rd, vn, p.node);
      var r;
      r, net' := SendCmd(p.node, cmd, net');
      if r.None? {
        return Report(vn, p, ps, Some(RouteUpdate(cmd, None, None))), net';
      }
      var b;
      b, net' := BroadcastCmd(cmd, Substrings(p.node), net');
      rep := Report(vn, p, ps, Some(RouteUpdate(cmd, r, Some(b))));
    }

    /** One turn of the each_with_index loop of start_recover. */
    method RecoverNext(hname: string, choose: nat -> nat, k: nat, net: Net, ghost step: Step) returns (rep: Report, n1: Net)
      requires k < |lostVnodes| && ChoicesOk(rd, choose) && Runs(step, Ctx(), hname)
      ensures !Succeeded(rep) ==>
        RecoverFrom(rd, lostVnodes, step, choose, k, net) == (Aborted(k, lostVnodes[k]), [rep], n1)
      ensures Succeeded(rep) ==>
        && RecoverFrom(rd, lostVnodes, step, choose, k, net).0 == RecoverFrom(rd, lostVnodes, step, choose, k + 1, n1).0
        && RecoverFrom(rd, lostVnodes, step, choose, k, net).1 == [rep] + RecoverFrom(rd, lostVnodes, step, choose, k + 1, n1).1
        && RecoverFrom(rd, lostVnodes, step, choose, k, net).2 == RecoverFrom(rd, lostVnodes, step, choose, k + 1, n1).2
    {
      rep, n1 := RecoverAVnode(hname, lostVnodes[k], Place(rd, lostVnodes[k], choose(k)), net);
      RecoverFromCons(rd, lostVnodes, step, choose, k, net, rep, n1);
    }

    /** start_recover: the lost vnodes in order, stopping at the first that does not go through. */
    method StartRecover(hname: string, choose: nat -> nat, net: Net, ghost step: Step) returns (outcome: Outcome, reports: seq<Report>, net': Net)
      requires ChoicesOk(rd, choose) && Runs(step, Ctx(), hname)
      ensures (outcome, reports, net') == RecoverFrom(rd, lostVnodes, step, choose, 0, net)
    {
      ghost var total := RecoverFrom(rd, lostVnodes, step, choose, 0, net);
      reports, net' := [], net;
      var k := 0;
      assert [] + total.1 == total.1;
      while k < |lostVnodes|
        invariant 0 <= k <= |lostVnodes|
        invariant total.0 == RecoverFrom(rd, lostVnodes, step, choose, k, net').0
        invariant total.1 == reports + RecoverFrom(rd, lostVnodes, step, choose, k, net').1
        invariant total.2 == RecoverFrom(rd, lostVnodes, step, choose, k, net').2
        decreases |lostVnodes| - k
      {
        var rep, n1 := RecoverNext(hname, choose, k, net', step);
        if !Succeeded(rep) {
          return Aborted(k, lostVnodes[k]), reports + [rep], n1;
        }
        Concat3(reports, [rep], RecoverFrom(rd, lostVnodes, step, choose, k + 1, n1).1);
        reports, net' := reports + [rep], n1;
        k := k + 1;
      }
      assert reports + [] == reports;
      outcome := Done;
    }

    /**
     * suite, given the routing snapshot and the listing of the storage root:
     * the lost set, then every unit directory in turn.
     */
    method Suite(rd0: RoutingData, entries: seq<Entry>, pick: (nat, nat) -> nat, net: Net)
      returns (result: SuiteOutcome, net': Net)
      requires forall i :: 0 <= i < |entries| ==> '/' in entries[i].path
      requires |rd0.nodes| > 0 ==> forall v: nat, k: nat :: pick(v, k) < |rd0.nodes|
      requires IndexKeys(rd0)
      modifies this
      ensures rd == rd0
      ensures alldata ==> KeysOf(lostVnodes, rd0.vIdx)
      ensures var lost := if alldata then Some((rd0.vnodes, net)) else LostSpec(rd0, ymdhms, net);
        && (lost.None? ==> result == HistoryUnavailable && lostVnodes == old(lostVnodes) && storage == old(storage))
        && (lost.Some? && !alldata && lost.value.0 == [] ==>
              result == NothingLost && lostVnodes == [] && storage == old(storage) && net' == lost.value.1)
        && (lost.Some? && (alldata || lost.value.0 != []) ==>
              lostVnodes == lost.value.0
              && (result, storage, net') == RecoverUnits(pushvCmd, rd0, lost.value.0, old(storage), entries, pick, 0, lost.value.1))
    {
      rd := rd0;
      net' := net;
      if !alldata {
        var lost;
        lost, net' := GetLostVnodes(rd0, ymdhms, net);
        if lost.None? {
          return HistoryUnavailable, net';
        }
        lostVnodes := lost.value;
        if |lostVnodes| == 0 {
          return NothingLost, net';
        }
      } else {
        lostVnodes := rd0.vnodes;
      }
      var u := 0;
      while u < |entries|
        invariant 0 <= u <= |entries|
        invariant rd == rd0
        invariant lostVnodes == (if alldata then rd0.vnodes else LostSpec(rd0, ymdhms, net).value.0)
        invariant RecoverUnits(pushvCmd, rd0, lostVnodes, old(storage), entries, pick, 0,
                               if alldata then net else LostSpec(rd0, ymdhms, net).value.1)
               == RecoverUnits(pushvCmd, rd0, lostVnodes, storage, entries, pick, u, net')
        decreases |entries| - u
      {
        var e := entries[u];
        if e.isDir {
          var hname := HashName(e.path).value;
          var unit := OpenStorage(e, lostVnodes);
          if !unit.Opened? {
            return StorageFailed(hname, unit), net';
          }
          storage := Some(unit.store);
          var choose := ChoicesFor(pick, u);
          assert forall k: nat :: choose(k) == pick(u, k);
          var o, reps;
          StepOfRuns(Ctx(), hname);
          o, reps, net' := StartRecover(hname, choose, net', StepOf(Ctx(), hname));
          if o.Aborted? {
            return Stopped(hname, o), net';
          }
        }
        u := u + 1;
      }
      result := Finished;
    }
  }
}
