/**
 * The network as the tool sees it. The tool is strictly sequential, so one
 * log of writes and one script of reply lines describe every connection:
 * each write is logged with the node it goes to, and each `con.gets`
 * takes the next scripted line. A None line, or the end of the script,
 * is a read that yields nil or fails.
 */
module Network {
  import opened Wrappers
  import opened Bytes
  import opened Text

  datatype Chunk = Line(text: string) | Data(bytes: seq<byte>)

  datatype Event = Event(node: string, chunk: Chunk)

  datatype Net = Net(log: seq<Event>, replies: seq<Option<string>>)

  /** con.write on a connection to node. */
  function Write(net: Net, node: string, c: Chunk): (n: Net)
    ensures n.log == net.log + [Event(node, c)] && n.replies == net.replies
  {
    net.(log := net.log + [Event(node, c)])
  }


  /** The line the read after k other reads returns. */
  function ReplyAt(replies: seq<Option<string>>, k: nat): Option<string> {
    if k < |replies| then replies[k] else None
  }

  /** The reply script after k reads. */
  function Drop(replies: seq<Option<string>>, k: nat): seq<Option<string>> {
    if k < |replies| then replies[k..] else []
  }

  /** con.gets: the next scripted line, nil once the script is used up. */
  function Gets(net: Net): (r: (Option<string>, Net))
    ensures r.0 == ReplyAt(net.replies, 0)
    ensures r.1 == net.(replies := Drop(net.replies, 1))
  {
    if net.replies == [] then (None, net) else (net.replies[0], net.(replies := net.replies[1..]))
  }

  /** `res.chomp! if res`: nil stays nil. */
  function ChompOpt(r: Option<string>): Option<string> {
    if r.Some? then Some(Chomp(r.value)) else None
  }

  lemma DropDrop(replies: seq<Option<string>>, j: nat, k: nat)
    ensures Drop(Drop(replies, j), k) == Drop(replies, j + k)
    ensures ReplyAt(Drop(replies, j), k) == ReplyAt(replies, j + k)
  {
  }
}
