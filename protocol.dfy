/**
 * What the node protocol helpers of RecoverLost write and return:
 * push_a_vnode_stream (recoverlost_lib.rb, lines 160-184), send_cmd
 * (lines 209-221), broadcast_cmd (lines 197-207) and the exchange of
 * get_history_of_lost (lines 90-99), as functions of the network state.
 * The methods of RecoverLost that loop are proved equal to these.
 */
module Protocol {
  import opened Wrappers
  import opened Bytes
  import opened Text
  import opened Records
  import opened Network
  import opened LostSet

  const READY := "READY\r\n"
  const STORED := "STORED"

  /** The 20-byte all-zero end-of-stream marker. */
  function Terminator(): (t: seq<byte>)
    ensures |t| == 20
  {
    Zeros(20)
  }

  function HistoryCommand(ymdhms: string): string {
    "history_of_lost " + ymdhms + "\r\n"
  }

  /** The handshake line naming the unit and the vnode. */
  function Handshake(pushvCmd: string, hname: string, vn: int): string {
    pushvCmd + " " + hname + " " + IntToString(vn) + "\r\n"
  }

  /**
   * The record loop of push_a_vnode_stream: each record, re-encoded by
   * clk_to_zero, is written in order; false at the first record
   * clk_to_zero raises on, after the writes before it.
   */
  function Stream(node: string, dump: seq<seq<byte>>, net: Net): (r: (bool, Net))
    ensures r.1.replies == net.replies
  {
    if dump == [] then (true, net)
    else match ClkToZero(dump[0])
      case None => (false, net)
      case Some(out) => Stream(node, dump[1..], Write(net, node, Data(out)))
  }

  /**
   * push_a_vnode_stream: the handshake, then, after a READY reply, the
   * records and the terminator and the reading of the acknowledgement. A
   * storage that is nil (dump None) raises once READY has come.
   */
  function PushSpec(pushvCmd: string, hname: string, vn: int, node: string,
                    dump: Option<seq<seq<byte>>>, net: Net): (Option<string>, Net)
  {
    var n1 := Write(net, node, Line(Handshake(pushvCmd, hname, vn)));
    var (res, n2) := Gets(n1);
    if res != Some(READY) then (ChompOpt(res), n2)
    else if dump.None? then (None, n2)
    else
      var (ok, n3) := Stream(node, dump.value, n2);
      if !ok then (None, n3)
      else
        var (ack, n4) := Gets(Write(n3, node, Data(Terminator())));
        (ChompOpt(ack), n4)
  }

  /** send_cmd: one line out, one line back, chomped; nil stays nil. */
  function SendSpec(node: string, cmd: string, net: Net): (r: (Option<string>, Net))
    ensures r.0 == ChompOpt(ReplyAt(net.replies, 0))
    ensures r.1 == Net(net.log + [Event(node, Line(cmd))], Drop(net.replies, 1))
  {
    var g := Gets(Write(net, node, Line(cmd)));
    (ChompOpt(g.0), g.1)
  }

  /** Every record of the dump can be re-encoded. */
  predicate AllReadable(dump: seq<seq<byte>>) {
    dump == [] || (Readable(dump[0]) && AllReadable(dump[1..]))
  }

  /** The writes of a stream whose every record can be re-encoded. */
  function RecordEvents(node: string, dump: seq<seq<byte>>): (evs: seq<Event>)
    requires AllReadable(dump)
    ensures |evs| == |dump|
  {
    if dump == [] then [] else [Event(node, Data(ClkToZero(dump[0]).value))] + RecordEvents(node, dump[1..])
  }

  /** The bytes the receiver reads from a sequence of writes. */
  function Payload(evs: seq<Event>): seq<byte> {
    if evs == [] then []
    else (match evs[0].chunk case Data(b) => b case Line(t) => []) + Payload(evs[1..])
  }

  /** The concatenation of clk_to_zero over a dump. */
  function ZeroedStream(dump: seq<seq<byte>>): seq<byte>
    requires AllReadable(dump)
  {
    if dump == [] then [] else ClkToZero(dump[0]).value + ZeroedStream(dump[1..])
  }

  /** One step of the record loop over a readable record. */
  lemma StreamStep(node: string, dump: seq<seq<byte>>, net: Net)
    requires dump != [] && Readable(dump[0])
    ensures Stream(node, dump, net) == Stream(node, dump[1..], Write(net, node, Data(ClkToZero(dump[0]).value)))
  {
  }

  lemma {:induction false} StreamReadable(node: string, dump: seq<seq<byte>>, net: Net)
    requires AllReadable(dump)
    ensures Stream(node, dump, net) == (true, net.(log := net.log + RecordEvents(node, dump)))
  {
    if dump == [] {
      assert net.log + RecordEvents(node, dump) == net.log;
    } else {
      var ev := Event(node, Data(ClkToZero(dump[0]).value));
      var n1 := net.(log := net.log + [ev]);
      StreamStep(node, dump, net);
      StreamReadable(node, dump[1..], n1);
      LogStep(net.log, ev, RecordEvents(node, dump[1..]), RecordEvents(node, dump));
    }
  }

  lemma Concat3<T>(a: seq<T>, b: seq<T>, c: seq<T>)
    ensures a + b + c == a + (b + c)
  {
  }

  lemma LogStep(log: seq<Event>, ev: Event, rest: seq<Event>, all: seq<Event>)
    requires all == [ev] + rest
    ensures log + [ev] + rest == log + all
  {
  }

  /** A record that clk_to_zero raises on ends the stream in failure, after the records before it. */
  lemma {:induction false} StreamUnreadable(node: string, dump: seq<seq<byte>>, net: Net, k: nat)
    requires k < |dump| && !Readable(dump[k]) && AllReadable(dump[..k])
    ensures Stream(node, dump, net) == (false, net.(log := net.log + RecordEvents(node, dump[..k])))
  {
    if k == 0 {
      assert dump[..0] == [];
      assert net.log + RecordEvents(node, dump[..k]) == net.log;
    } else {
      var ev := Event(node, Data(ClkToZero(dump[0]).value));
      var n1 := net.(log := net.log + [ev]);
      StreamStep(node, dump, net);
      assert dump[1..][..k - 1] == dump[..k][1..];
      StreamUnreadable(node, dump[1..], n1, k - 1);
      LogStep(net.log, ev, RecordEvents(node, dump[1..][..k - 1]), RecordEvents(node, dump[..k]));
    }
  }

  lemma {:induction false} PayloadOfRecords(node: string, dump: seq<seq<byte>>)
    requires AllReadable(dump)
    ensures Payload(RecordEvents(node, dump)) == ZeroedStream(dump)
  {
    if dump != [] {
      PayloadOfRecords(node, dump[1..]);
      assert RecordEvents(node, dump)[1..] == RecordEvents(node, dump[1..]);
    }
  }

  lemma {:induction false} PayloadAppend(a: seq<Event>, b: seq<Event>)
    ensures Payload(a + b) == Payload(a) + Payload(b)
  {
    if a == [] {
      assert a + b == b;
    } else {
      assert (a + b)[0] == a[0];
      assert (a + b)[1..] == a[1..] + b;
      PayloadAppend(a[1..], b);
    }
  }

  /** The record loop only appends to the log. */
  lemma {:induction false} StreamExtends(node: string, dump: seq<seq<byte>>, net: Net)
    ensures var out := Stream(node, dump, net).1;
      |out.log| >= |net.log| && out.log[..|net.log|] == net.log
  {
    if dump != [] && ClkToZero(dump[0]).Some? {
      var n1 := Write(net, node, Data(ClkToZero(dump[0]).value));
      StreamExtends(node, dump[1..], n1);
      assert n1.log[..|net.log|] == net.log;
    }
  }

  /** The first thing a push writes is the handshake, to the target. */
  lemma PushStartsWithHandshake(pushvCmd: string, hname: string, vn: int, node: string,
                                dump: Option<seq<seq<byte>>>, net: Net)
    ensures var out := PushSpec(pushvCmd, hname, vn, node, dump, net).1;
      |out.log| > |net.log| && out.log[..|net.log| + 1] == net.log + [Event(node, Line(Handshake(pushvCmd, hname, vn)))]
  {
    var h := Event(node, Line(Handshake(pushvCmd, hname, vn)));
    var n2 := Net(net.log + [h], Drop(net.replies, 1));
    if ReplyAt(net.replies, 0) == Some(READY) && dump.Some? {
      StreamExtends(node, dump.value, n2);
      var n3 := Stream(node, dump.value, n2).1;
      assert n3.log[..|net.log| + 1] == n2.log;
      var n4 := Write(n3, node, Data(Terminator()));
      assert n4.log[..|net.log| + 1] == n2.log;
    }
  }

  /** A handshake reply other than READY: nothing but the handshake is written and the reply, chomped, is the result. */
  lemma PushRefused(pushvCmd: string, hname: string, vn: int, node: string,
                    dump: Option<seq<seq<byte>>>, net: Net)
    requires ReplyAt(net.replies, 0) != Some(READY)
    ensures PushSpec(pushvCmd, hname, vn, node, dump, net)
         == (ChompOpt(ReplyAt(net.replies, 0)),
             Net(net.log + [Event(node, Line(Handshake(pushvCmd, hname, vn)))], Drop(net.replies, 1)))
  {
  }

  /**
   * After READY, with every record readable: the handshake, then every
   * record re-encoded by clk_to_zero in order, then the terminator; the
   * result is the next reply, chomped.
   */
  lemma PushAccepted(pushvCmd: string, hname: string, vn: int, node: string,
                     dump: seq<seq<byte>>, net: Net)
    requires ReplyAt(net.replies, 0) == Some(READY) && AllReadable(dump)
    ensures PushSpec(pushvCmd, hname, vn, node, Some(dump), net)
         == (ChompOpt(ReplyAt(net.replies, 1)),
             Net(net.log + [Event(node, Line(Handshake(pushvCmd, hname, vn)))]
                   + RecordEvents(node, dump) + [Event(node, Data(Terminator()))],
                 Drop(net.replies, 2)))
  {
    var n2 := Net(net.log + [Event(node, Line(Handshake(pushvCmd, hname, vn)))], Drop(net.replies, 1));
    StreamReadable(node, dump, n2);
    DropDrop(net.replies, 1, 1);
  }

  /** The same at the level of bytes: after the handshake the target reads the zeroed records and 20 zero bytes. */
  lemma PushAcceptedBytes(pushvCmd: string, hname: string, vn: int, node: string,
                          dump: seq<seq<byte>>, net: Net)
    requires ReplyAt(net.replies, 0) == Some(READY) && AllReadable(dump)
    ensures var out := PushSpec(pushvCmd, hname, vn, node, Some(dump), net).1;
      |out.log| > |net.log| && Payload(out.log[|net.log| + 1..]) == ZeroedStream(dump) + Zeros(20)
  {
    PushAccepted(pushvCmd, hname, vn, node, dump, net);
    var evs := RecordEvents(node, dump);
    var t := [Event(node, Data(Terminator()))];
    AfterHandshake(net.log, Event(node, Line(Handshake(pushvCmd, hname, vn))), evs, t);
    TerminatedPayload(node, dump);
  }

  lemma AfterHandshake(log: seq<Event>, h: Event, evs: seq<Event>, t: seq<Event>)
    ensures (log + [h] + evs + t)[|log| + 1..] == evs + t
  {
  }

  lemma TerminatedPayload(node: string, dump: seq<seq<byte>>)
    requires AllReadable(dump)
    ensures Payload(RecordEvents(node, dump) + [Event(node, Data(Terminator()))]) == ZeroedStream(dump) + Zeros(20)
  {
    var t := [Event(node, Data(Terminator()))];
    PayloadAppend(RecordEvents(node, dump), t);
    PayloadOfRecords(node, dump);
    assert Payload(t) == Terminator() + Payload([]);
  }

  /** A record clk_to_zero raises on: no terminator is written and the result is nil. */
  lemma PushBrokenRecord(pushvCmd: string, hname: string, vn: int, node: string,
                         dump: seq<seq<byte>>, net: Net, k: nat)
    requires ReplyAt(net.replies, 0) == Some(READY)
    requires k < |dump| && !Readable(dump[k]) && AllReadable(dump[..k])
    ensures PushSpec(pushvCmd, hname, vn, node, Some(dump), net)
         == (None, Net(net.log + [Event(node, Line(Handshake(pushvCmd, hname, vn)))] + RecordEvents(node, dump[..k]),
                       Drop(net.replies, 1)))
  {
    var n2 := Net(net.log + [Event(node, Line(Handshake(pushvCmd, hname, vn)))], Drop(net.replies, 1));
    StreamUnreadable(node, dump, n2, k);
  }

  /** What broadcast_cmd is told to skip: nil, an Array of node ids, or (as start_recover passes it) one String. */
  datatype Exclusion = NoExclusion | Listed(nids: seq<string>) | Substrings(of: string)

  /** without_nids.include?(nid): membership for an Array, substring search for a String. */
  predicate Excluded(e: Exclusion, nid: string) {
    match e
    case NoExclusion => false
    case Listed(ns) => nid in ns
    case Substrings(s) => Contains(s, nid)
  }

  /** The nodes broadcast_cmd sends to, in order. */
  function Sendees(nodes: seq<string>, e: Exclusion): (s: seq<string>) {
    if nodes == [] then []
    else if Excluded(e, nodes[0]) then Sendees(nodes[1..], e)
    else [nodes[0]] + Sendees(nodes[1..], e)
  }

  type Replies = seq<(string, Option<string>)>

  function Keys(res: Replies): (ks: seq<string>)
    ensures |ks| == |res|
  {
    if res == [] then [] else [res[0].0] + Keys(res[1..])
  }

  /** Hash#[]: the value stored under k, None when k is not a key. */
  function Lookup(res: Replies, k: string): Option<Option<string>> {
    if res == [] then None
    else if res[0].0 == k then Some(res[0].1)
    else Lookup(res[1..], k)
  }

  /** Hash#[]= on an insertion-ordered hash: an existing key keeps its place. */
  function Put(res: Replies, k: string, v: Option<string>): (r: Replies)
    ensures Keys(r) == if k in Keys(res) then Keys(res) else Keys(res) + [k]
    ensures Lookup(r, k) == Some(v)
    ensures forall k' :: k' != k ==> Lookup(r, k') == Lookup(res, k')
  {
    if res == [] then [(k, v)]
    else if res[0].0 == k then [(k, v)] + res[1..]
    else [res[0]] + Put(res[1..], k, v)
  }

  /** The position of the last occurrence of n in s. */
  function LastIndex(s: seq<string>, n: string): (i: nat)
    requires n in s
    ensures i < |s| && s[i] == n
    ensures forall j :: i < j < |s| ==> s[j] != n
  {
    if s[0] == n && n !in s[1..] then 0 else 1 + LastIndex(s[1..], n)
  }

  /** The lines written to each of the nodes. */
  function LineEvents(nodes: seq<string>, cmd: string): (evs: seq<Event>)
    ensures |evs| == |nodes|
    ensures forall i :: 0 <= i < |nodes| ==> evs[i] == Event(nodes[i], Line(cmd))
  {
    if nodes == [] then [] else [Event(nodes[0], Line(cmd))] + LineEvents(nodes[1..], cmd)
  }

  /** The broadcast loop from some node on, with the replies collected so far. */
  function BroadcastFrom(nodes: seq<string>, cmd: string, e: Exclusion, res: Replies, net: Net): (Replies, Net)
  {
    if nodes == [] then (res, net)
    else if Excluded(e, nodes[0]) then BroadcastFrom(nodes[1..], cmd, e, res, net)
    else
      var (r, n1) := SendSpec(nodes[0], cmd, net);
      BroadcastFrom(nodes[1..], cmd, e, Put(res, nodes[0], r), n1)
  }

  /** broadcast_cmd over the node list. */
  function BroadcastSpec(nodes: seq<string>, cmd: string, e: Exclusion, net: Net): (Replies, Net) {
    BroadcastFrom(nodes, cmd, e, [], net)
  }

  /** One step of the broadcast loop. */
  lemma BroadcastStep(nodes: seq<string>, cmd: string, e: Exclusion, res: Replies, net: Net)
    requires nodes != []
    ensures Excluded(e, nodes[0]) ==>
      BroadcastFrom(nodes, cmd, e, res, net) == BroadcastFrom(nodes[1..], cmd, e, res, net)
    ensures !Excluded(e, nodes[0]) ==>
      BroadcastFrom(nodes, cmd, e, res, net)
        == BroadcastFrom(nodes[1..], cmd, e, Put(res, nodes[0], SendSpec(nodes[0], cmd, net).0), SendSpec(nodes[0], cmd, net).1)
    ensures Sendees(nodes, e) == if Excluded(e, nodes[0]) then Sendees(nodes[1..], e) else [nodes[0]] + Sendees(nodes[1..], e)
  {
  }

  lemma {:induction false} BroadcastFromLog(nodes: seq<string>, cmd: string, e: Exclusion, res: Replies, net: Net)
    ensures var out := BroadcastFrom(nodes, cmd, e, res, net).1;
      out == Net(net.log + LineEvents(Sendees(nodes, e), cmd), Drop(net.replies, |Sendees(nodes, e)|))
  {
    if nodes == [] {
      assert net.log + LineEvents([], cmd) == net.log;
    } else {
      BroadcastStep(nodes, cmd, e, res, net);
      if Excluded(e, nodes[0]) {
        BroadcastFromLog(nodes[1..], cmd, e, res, net);
      } else {
        var (r, n1) := SendSpec(nodes[0], cmd, net);
        var rest := Sendees(nodes[1..], e);
        BroadcastFromLog(nodes[1..], cmd, e, Put(res, nodes[0], r), n1);
        DropDrop(net.replies, 1, |rest|);
        assert LineEvents([nodes[0]] + rest, cmd) == [Event(nodes[0], Line(cmd))] + LineEvents(rest, cmd);
        LogStep(net.log, Event(nodes[0], Line(cmd)), LineEvents(rest, cmd), LineEvents(Sendees(nodes, e), cmd));
      }
    }
  }

  lemma {:induction false} BroadcastFromKeys(nodes: seq<string>, cmd: string, e: Exclusion, res: Replies, net: Net)
    requires Distinct(Keys(res))
    ensures Keys(BroadcastFrom(nodes, cmd, e, res, net).0) == Dedup(Keys(res) + Sendees(nodes, e))
  {
    if nodes == [] {
      assert Keys(res) + [] == Keys(res);
      DedupDistinct(Keys(res));
    } else {
      BroadcastStep(nodes, cmd, e, res, net);
      if Excluded(e, nodes[0]) {
        BroadcastFromKeys(nodes[1..], cmd, e, res, net);
      } else {
        var (r, n1) := SendSpec(nodes[0], cmd, net);
        var res' := Put(res, nodes[0], r);
        var ks := Keys(res) + [nodes[0]];
        DedupAppendOne(Keys(res), nodes[0]);
        assert Keys(res') == Dedup(ks);
        BroadcastFromKeys(nodes[1..], cmd, e, res', n1);
        var rest := Sendees(nodes[1..], e);
        DedupPrefix(ks, rest);
        Concat3(Keys(res), [nodes[0]], rest);
      }
    }
  }

  /**
   * After the broadcast loop a node sent to holds the chomped reply to the
   * last send to it (the reply consumed at that position); every other key
   * keeps what it held.
   */
  lemma {:induction false} BroadcastFromValues(nodes: seq<string>, cmd: string, e: Exclusion, res: Replies, net: Net, n: string)
    ensures var s := Sendees(nodes, e);
      Lookup(BroadcastFrom(nodes, cmd, e, res, net).0, n)
        == if n in s then Some(ChompOpt(ReplyAt(net.replies, LastIndex(s, n)))) else Lookup(res, n)
  {
    if nodes != [] {
      BroadcastStep(nodes, cmd, e, res, net);
      if Excluded(e, nodes[0]) {
        BroadcastFromValues(nodes[1..], cmd, e, res, net, n);
      } else {
        var (r, n1) := SendSpec(nodes[0], cmd, net);
        var s := Sendees(nodes, e);
        var rest := Sendees(nodes[1..], e);
        assert s[1..] == rest;
        BroadcastFromValues(nodes[1..], cmd, e, Put(res, nodes[0], r), n1, n);
        if n in rest {
          assert LastIndex(s, n) == 1 + LastIndex(rest, n);
          DropDrop(net.replies, 1, LastIndex(rest, n));
        }
      }
    }
  }

  /** What broadcast_cmd's result maps each node to. */
  lemma BroadcastSpecValues(nodes: seq<string>, cmd: string, e: Exclusion, net: Net)
    ensures var res := BroadcastSpec(nodes, cmd, e, net).0;
      forall n :: Lookup(res, n) == if n in Sendees(nodes, e) then Some(ChompOpt(ReplyAt(net.replies, LastIndex(Sendees(nodes, e), n)))) else None
  {
    forall n {
      BroadcastFromValues(nodes, cmd, e, [], net, n);
    }
  }

  /**
   * broadcast_cmd sends cmd once to every node that is not excluded, in
   * node order, and its result has one key per such node, in the order of
   * their first occurrence, holding the chomped reply to its last send.
   */
  lemma BroadcastSpecShape(nodes: seq<string>, cmd: string, e: Exclusion, net: Net)
    ensures var (res, out) := BroadcastSpec(nodes, cmd, e, net);
      && out.log == net.log + LineEvents(Sendees(nodes, e), cmd)
      && out.replies == Drop(net.replies, |Sendees(nodes, e)|)
      && Keys(res) == Dedup(Sendees(nodes, e))
      && (forall n :: n !in Sendees(nodes, e) ==> Lookup(res, n).None?)
      && (forall n :: n in Sendees(nodes, e) ==>
            Lookup(res, n) == Some(ChompOpt(ReplyAt(net.replies, LastIndex(Sendees(nodes, e), n)))))
  {
    BroadcastSpecValues(nodes, cmd, e, net);
    BroadcastFromLog(nodes, cmd, e, [], net);
    BroadcastFromKeys(nodes, cmd, e, [], net);
    assert Keys([]) + Sendees(nodes, e) == Sendees(nodes, e);
  }

  /** The nodes sent to are exactly the nodes of the list that are not excluded. */
  lemma {:induction false} SendeesMembers(nodes: seq<string>, e: Exclusion, n: string)
    ensures n in Sendees(nodes, e) <==> n in nodes && !Excluded(e, n)
  {
    if nodes != [] {
      SendeesMembers(nodes[1..], e, n);
      assert n in nodes <==> n == nodes[0] || n in nodes[1..];
    }
  }

  /** The String start_recover passes always excludes that node itself. */
  lemma SelfExcluded(nodes: seq<string>, cmd: string, target: string, net: Net)
    ensures target !in Sendees(nodes, Substrings(target))
    ensures target !in Keys(BroadcastSpec(nodes, cmd, Substrings(target), net).0)
  {
    ContainsSelf(target);
    SendeesMembers(nodes, Substrings(target), target);
    BroadcastSpecShape(nodes, cmd, Substrings(target), net);
    DedupMembers(Sendees(nodes, Substrings(target)));
  }

  /** The substring test also skips a node whose id lies inside the target's id. */
  lemma SubstringAlsoExcludes()
    ensures Sendees(["host_1000", "host_10001"], Substrings("host_10001")) == []
  {
    ContainsSelf("host_10001");
    ContainsAt("host_10001", "host_1000", 0);
  }
}
