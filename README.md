# RecoverLost: a verified model of ROMA's lost-vnode recovery tool

ROMA is a distributed key-value store. Its keys are hashed onto virtual nodes (vnodes), and every vnode is
replicated on a few storage nodes. When every replica of a vnode is lost, the `recoverlost` family of tools
rebuilds it from a node's local storage files. `Roma::RecoverLost` does this in the following steps:

- It validates its command line and fetches the routing table.
- It computes the set of lost vnodes. That is the routing table's own lost list, united with the
  `history_of_lost` list of the first node when a timestamp is given. Every vnode is recovered in
  `alldata` mode.
- It opens each storage unit in turn: one directory per hash, with backend `tc`, `dbm` or `sql3`.
- It pushes every lost vnode's records to the vnode's owners, or to one randomly chosen node when the
  vnode has none. The push is a `pushv` handshake, then each record with its logical clock reset to 0,
  then a 20-byte NUL terminator, then a `STORED` reply.
- A push not answered `STORED` stops the run.
- When the vnode was newly assigned, the tool is meant to send `setroute` to the chosen node `nids[0]`
  and broadcast it to the rest of the cluster. A nil reply to the direct `setroute` would stop the run;
  a refusal of `setroute` and the broadcast replies would not. As written, line 153 raises NameError
  before any of this (see "## Findings"). The model proves that as-written behaviour
  (`Recovery.AsWrittenNeverRoutes`) and uses the intended one everywhere else.

The model consists of the following modules:

- `Bytes`: big-endian 32-bit words.
- `Text`: Ruby's `chomp`, `to_i`, `to_s` and `include?`.
- `Network`: the connection pool as a value. It holds a log of every line and byte chunk written to each
  node, and the script of replies that successive `gets` calls return.
- `Arguments`: the constructor's validation.
- `Storage`: backend choice and `open_storage` over a directory listing.
- `Records`: the vnode dump record format and `clk_to_zero`.
- `LostSet`: Ruby's `Array#|` and the `history_of_lost` exchange.
- `Protocol`: `push_a_vnode_stream`, `send_cmd` and `broadcast_cmd` as functions on the network.
- `Recovery`: placement, the per-vnode step, `start_recover`, `suite`, and the class `RecoverLost`.
  The class's methods update `@rd`, `@lost_vnodes` and `@storage`. Each loop is proved equal to a
  specification function, and the properties are lemmas about those functions.

In the intended behaviour, the broadcast of line 155 leaves out its target with Ruby's `String#include?`.
That line is never reached as written, because line 153 raises first. Line 155 passes the node id String
where an Array of ids is expected, so the exclusion is a substring test. `Protocol.SubstringAlsoExcludes`
shows a node `host_1000` that misses the broadcast aimed past `host_10001`. The corrected step keeps
line 155 exactly as written.

## Model

| member | source | states |
|---|---|---|
| Arguments.Validate | ruby/server/lib/roma/tools/recoverlost_lib.rb:19-47 | a usage message exactly when the argument count is wrong for the mode; acceptance exactly when the port and any timestamp are decimal and the timestamp has 14 digits; a rejection otherwise; on acceptance the node id is `addr_port` and a timestamp is held exactly outside alldata mode |
| Arguments.TimestampMandatory | ruby/server/lib/roma/tools/recoverlost_lib.rb:20-28 | three arguments are a usage error in normal mode and accepted in alldata mode when the port is numeric |
| Arguments.NonNumericTimestamp | ruby/server/lib/roma/tools/recoverlost_lib.rb:40-43 | a 14-character timestamp with a letter in it is rejected |
| Bytes.DecodeEncode | ruby/server/lib/roma/tools/recoverlost_lib.rb:187-191 | decoding the 4-byte big-endian encoding of a word gives the word back |
| Bytes.EncodeDecode | ruby/server/lib/roma/tools/recoverlost_lib.rb:187-191 | encoding the decoded value of 4 bytes gives the same 4 bytes |
| Bytes.Zeros | ruby/server/lib/roma/tools/recoverlost_lib.rb:175 | the end-of-stream marker is n bytes, all NUL |
| Text.ChompDrops | ruby/server/lib/roma/tools/recoverlost_lib.rb:179 | the result is the input less at most one trailing CRLF, LF or CR; the four lemmas below say which is removed in each case |
| Text.ChompCrLf | ruby/server/lib/roma/tools/recoverlost_lib.rb:215 | a CRLF-terminated reply chomps to its text |
| Text.ChompLf | ruby/server/lib/roma/tools/recoverlost_lib.rb:215 | a lone trailing LF is removed |
| Text.ChompCr | ruby/server/lib/roma/tools/recoverlost_lib.rb:215 | a trailing CR is removed |
| Text.ChompUnterminated | ruby/server/lib/roma/tools/recoverlost_lib.rb:215 | a string ending in neither LF nor CR is unchanged |
| Text.ToIOfToString | ruby/server/lib/roma/tools/recoverlost_lib.rb:95 | `to_i` of the decimal text of any integer gives that integer back |
| LostSet.UnionBaseFirst | ruby/server/lib/roma/tools/recoverlost_lib.rb:85 | `a \| b` starts with the distinct elements of a in order, continues only with elements of b not in a, has exactly the elements of either, and has no duplicates |
| LostSet.DedupMembers | ruby/server/lib/roma/tools/recoverlost_lib.rb:85 | removing repeats keeps exactly the same elements and leaves none twice |
| LostSet.LostVnodes | ruby/server/lib/roma/tools/recoverlost_lib.rb:82-88 | without a timestamp the routing table's lost list as is; with one a duplicate-free list of exactly the vnodes lost in either the table or the history |
| LostSet.HistoryOfSpec | ruby/server/lib/roma/tools/recoverlost_lib.rb:94-96 | the history read completes exactly when an `END` line comes before any nil reply; it then holds the `to_i` of every chomped line before it and consumes those lines and `END` |
| LostSet.HistoryEndsAt | ruby/server/lib/roma/tools/recoverlost_lib.rb:94-96 | lines `v1 .. vn` then `END` read as the list of values, consuming n+1 replies |
| LostSet.HistoryStep | ruby/server/lib/roma/tools/recoverlost_lib.rb:94-96 | a line that is neither nil nor `END` contributes its chomped `to_i`, and the read goes on with the next reply |
| LostSet.HistoryStop | ruby/server/lib/roma/tools/recoverlost_lib.rb:94-96 | the read stops at `END`, which it consumes, or fails at a nil reply or the end of the replies |
| LostSet.HistoryPrefix | ruby/server/lib/roma/tools/recoverlost_lib.rb:94-96 | after k value lines the result is those k values followed by the read of the remaining replies |
| LostSet.HistoryBroken | ruby/server/lib/roma/tools/recoverlost_lib.rb:94-96 | a nil reply before `END` makes the read fail |
| Storage.NewStorage | ruby/server/lib/roma/tools/recoverlost_lib.rb:120-131 | Tokyo Cabinet exactly for `tc`, DBM exactly for `dbm`, SQLite3 exactly for `sql3`, no backend otherwise |
| Storage.AfterLast | ruby/server/lib/roma/tools/recoverlost_lib.rb:72 | the hash name is the part of the path after its last `/`, which it does not contain |
| Storage.FirstDataFile | ruby/server/lib/roma/tools/recoverlost_lib.rb:108 | the result is a listed `0.*` name; none exactly when no name starts with `0.` |
| Storage.FirstDataFileIsFirst | ruby/server/lib/roma/tools/recoverlost_lib.rb:108 | the name picked is the first `0.*` name of the listing: any such name with none before it is the result |
| Storage.DivNum | ruby/server/lib/roma/tools/recoverlost_lib.rb:110 | the number of divided files is at most the listing's size, and 0 exactly when no name has the extension |
| Storage.DivNumCount | ruby/server/lib/roma/tools/recoverlost_lib.rb:110 | divnum is exactly the number of listed names the glob `*.<ext>` matches |
| Storage.OpenStorage | ruby/server/lib/roma/tools/recoverlost_lib.rb:101-118 | not found exactly for a non-directory. A directory without a `0.*` file is `NoDataFile`. Otherwise the first data file's extension decides: opened exactly when it names a backend, unsupported (with that extension) exactly when it does not. When opened, divnum counts that extension and the storage holds the lost list and the path |
| Records.Serialize | ruby/server/lib/roma/tools/recoverlost_lib.rb:191 | a record's packed form is 24 bytes plus its key and value |
| Records.PadTo | ruby/server/lib/roma/tools/recoverlost_lib.rb:190-191 | an `a<n>` field is exactly n bytes: the data cut to n, padded with NUL |
| Records.ParseSerialize | ruby/server/lib/roma/tools/recoverlost_lib.rb:186-194 | parsing a packed record gives the record back |
| Records.SerializeParse | ruby/server/lib/roma/tools/recoverlost_lib.rb:186-194 | packing a parsed record gives exactly the bytes it was parsed from |
| Records.ClkToZeroShape | ruby/server/lib/roma/tools/recoverlost_lib.rb:187-194 | `clk_to_zero` succeeds exactly on data long enough for its header, its key and its value-length word; the output is 24 bytes plus the key and value lengths read from the input and parses with clock 0 |
| Records.ClkToZeroRecord | ruby/server/lib/roma/tools/recoverlost_lib.rb:186-194 | on a well-formed record the output is the same record with its clock set to 0 |
| Records.ClkToZeroBytes | ruby/server/lib/roma/tools/recoverlost_lib.rb:186-194 | on a well-formed record only bytes 8 to 11 change, to 0 |
| Records.ClkToZeroIdempotent | ruby/server/lib/roma/tools/recoverlost_lib.rb:186-194 | resetting the clock twice is resetting it once |
| Protocol.SendSpec | ruby/server/lib/roma/tools/recoverlost_lib.rb:209-221 | `send_cmd` writes the command line to the node and returns the next reply chomped, or nil |
| Protocol.StreamReadable | ruby/server/lib/roma/tools/recoverlost_lib.rb:171-174 | a dump of well-formed records is written as one chunk per record, each with its clock reset |
| Protocol.StreamUnreadable | ruby/server/lib/roma/tools/recoverlost_lib.rb:171-174 | the first malformed record stops the stream after the chunks of the records before it |
| Protocol.PushStartsWithHandshake | ruby/server/lib/roma/tools/recoverlost_lib.rb:160-163 | every push starts by writing `<pushv_cmd> <hname> <vn>` to the target node and writes nothing before it |
| Protocol.PushRefused | ruby/server/lib/roma/tools/recoverlost_lib.rb:165-169 | a reply other than READY ends the push after the handshake with that reply chomped |
| Protocol.PushAccepted | ruby/server/lib/roma/tools/recoverlost_lib.rb:165-180 | after READY every record is streamed with its clock reset, then the terminator, and the push returns the chomped second reply |
| Protocol.PushAcceptedBytes | ruby/server/lib/roma/tools/recoverlost_lib.rb:171-177 | the bytes sent after the handshake are the clock-reset records followed by 20 NUL bytes |
| Protocol.PushBrokenRecord | ruby/server/lib/roma/tools/recoverlost_lib.rb:171-183 | a malformed record makes the push fail with nil, having written the handshake and the records before it and no terminator |
| Protocol.Put | ruby/server/lib/roma/tools/recoverlost_lib.rb:201 | storing a reply under a node keeps the key order, adding the node at the end when it is new; the node then maps to the reply and every other key keeps its value |
| Protocol.BroadcastFromValues | ruby/server/lib/roma/tools/recoverlost_lib.rb:199-203 | after the broadcast loop, each node sent to maps to the chomped reply consumed by the last send to it, and every other key keeps its value |
| Protocol.BroadcastSpecValues | ruby/server/lib/roma/tools/recoverlost_lib.rb:197-203 | the broadcast result maps each node sent to to its chomped reply, and holds no other node |
| Protocol.BroadcastSpecShape | ruby/server/lib/roma/tools/recoverlost_lib.rb:197-203 | `broadcast_cmd` writes the command to every node not excluded, in node order, and consumes one reply for each. Its result has a key for exactly those nodes, in order of first occurrence. Each key maps to the chomped reply to the last send to that node, and no other node is in the result |
| Protocol.SendeesMembers | ruby/server/lib/roma/tools/recoverlost_lib.rb:200-201 | a node receives the broadcast exactly when it is listed and not excluded |
| Protocol.SelfExcluded | ruby/server/lib/roma/tools/recoverlost_lib.rb:201 | the node the routing update went to receives no broadcast and has no broadcast reply |
| Protocol.SubstringAlsoExcludes | ruby/server/lib/roma/tools/recoverlost_lib.rb:201 | excluding `host_10001` by substring also skips `host_1000` |
| Recovery.Place | ruby/server/lib/roma/tools/recoverlost_lib.rb:135-143 | a vnode with owners goes to exactly its owners; an owner-less vnode goes to the chosen node when there are nodes; there is no target otherwise |
| Recovery.RecoverVnode | ruby/server/lib/roma/tools/recoverlost_lib.rb:134-157 | the report of one vnode names that vnode and its placement |
| Recovery.PushAllShape | ruby/server/lib/roma/tools/recoverlost_lib.rb:145-150 | targets are pushed in order, and every push but the last was stored; either all targets were pushed and stored, or the last push failed and the later targets were skipped |
| Recovery.OwnedNoRoute | ruby/server/lib/roma/tools/recoverlost_lib.rb:141-156 | a vnode with owners is pushed to all of its owners and sends no routing update; it succeeds exactly when every owner stored it |
| Recovery.RouteUpdateSent | ruby/server/lib/roma/tools/recoverlost_lib.rb:152-156 | a newly assigned vnode whose push was stored sends `setroute <vn> <clk> <node>` to the chosen node. A nil reply stops with nothing more written, having consumed one reply. Otherwise the command goes to every node not excluded, and never to the chosen node, consuming one reply per such node. The vnode succeeds exactly when the direct reply was not nil |
| Recovery.NoNodeStops | ruby/server/lib/roma/tools/recoverlost_lib.rb:136-148 | with no nodes an owner-less vnode writes nothing and stops the run |
| Recovery.PushFailedStops | ruby/server/lib/roma/tools/recoverlost_lib.rb:145-150 | a newly assigned vnode whose push was not `STORED` sends no `setroute` and writes nothing after the push. It does not succeed, so the run stops there (`Recovery.RecoverFromShape`) |
| Recovery.RecoverFromCons | ruby/server/lib/roma/tools/recoverlost_lib.rb:134-157 | one vnode's failure aborts the run at that vnode; its success continues with the next |
| Recovery.RecoverFromShape | ruby/server/lib/roma/tools/recoverlost_lib.rb:133-158 | the run reports the lost vnodes in order with their placements, and every reported vnode but the last succeeded. It is done exactly when every vnode was handled and succeeded. When it aborts, it stops at the last reported vnode, which failed |
| Recovery.SucceededStored | ruby/server/lib/roma/tools/recoverlost_lib.rb:145-150 | a vnode that went through was stored on every one of its targets, of which there is at least one |
| Recovery.DoneStoresAll | ruby/server/lib/roma/tools/recoverlost_lib.rb:133-158 | a completed run stored every lost vnode, in order, on at least one node |
| Recovery.AsWrittenNeverRoutes | ruby/server/lib/roma/tools/recoverlost_lib.rb:152-156 | as written, nothing is written after the pushes; the step raises exactly for a newly assigned vnode whose push was stored |
| Recovery.NidPushed | ruby/server/lib/roma/tools/recoverlost_lib.rb:145-150 | on the counterexample input the push of vnode 7 to `b_2` is stored |
| Recovery.NidAsWrittenRaises | ruby/server/lib/roma/tools/recoverlost_lib.rb:153 | on that input the step as written raises instead of sending the routing update |
| Recovery.RecoverUnitsShape | ruby/server/lib/roma/tools/recoverlost_lib.rb:61-66 | the unit loop goes through the listing in order. Each directory runs on the network left by the directories before it (`NetBefore`), and a non-directory changes nothing. The loop finishes only when every directory opened and its run went through every lost vnode; the network is then the one after the last entry. Otherwise it names the first directory that failed to open (with the reason) or whose run aborted (with that run's outcome). Every directory before it went through, and the network is the one that directory left |
| Recovery.RecoverLost.constructor | ruby/server/lib/roma/tools/recoverlost_lib.rb:44-47 | the tool holds the accepted configuration, with no routing data, lost list or storage yet |
| Recovery.RecoverLost.SendCmd | ruby/server/lib/roma/tools/recoverlost_lib.rb:209-221 | the method's exchange is `send_cmd`'s specification |
| Recovery.RecoverLost.BroadcastCmd | ruby/server/lib/roma/tools/recoverlost_lib.rb:197-207 | the loop over `@rd.nodes` computes the broadcast's specification |
| Recovery.RecoverLost.ReadHistory | ruby/server/lib/roma/tools/recoverlost_lib.rb:94-96 | the read loop writes nothing; it succeeds exactly when the history read does, with its values and consumption |
| Recovery.RecoverLost.GetHistoryOfLost | ruby/server/lib/roma/tools/recoverlost_lib.rb:90-99 | writes `history_of_lost <ymdhms>` to the node, then reads the history as specified |
| Recovery.RecoverLost.GetLostVnodes | ruby/server/lib/roma/tools/recoverlost_lib.rb:82-88 | returns the lost set as specified, asking the first node for its history when a timestamp is given |
| Recovery.RecoverLost.PushAVnodeStream | ruby/server/lib/roma/tools/recoverlost_lib.rb:160-184 | the handshake, streaming and reply loop computes the push specification on the current storage's dump |
| Recovery.RecoverLost.PushTargets | ruby/server/lib/roma/tools/recoverlost_lib.rb:145-150 | the loop over the targets computes the push sequence that stops at the first push not stored |
| Recovery.RecoverLost.RecoverAVnode | ruby/server/lib/roma/tools/recoverlost_lib.rb:145-156 | one placed vnode is pushed and routed as the corrected step specifies |
| Recovery.RecoverLost.RecoverNext | ruby/server/lib/roma/tools/recoverlost_lib.rb:134-157 | one iteration: a failure aborts the run there, a success continues from the next vnode |
| Recovery.RecoverLost.StartRecover | ruby/server/lib/roma/tools/recoverlost_lib.rb:133-158 | the loop over `@lost_vnodes` computes the run specification: its outcome, reports and network |
| Recovery.RecoverLost.Suite | ruby/server/lib/roma/tools/recoverlost_lib.rb:50-67 | stores the routing data. In alldata mode it takes every key of `v_idx`, each once; otherwise it takes the computed lost set. It stops when the history is unavailable, and when nothing is lost outside alldata mode. Otherwise its result is that of the unit-by-unit recovery (`Recovery.RecoverUnitsShape`) |

## Left out

- Network.Write and Network.Gets are the stand-ins for `con.write` and `con.gets` and carry no property of their own. A write appends an event for its node to the log. A read takes the next line of the reply script, or nil once the script is used up.
- The connection pool, sockets and `return_connection`/`close` are not modelled as objects. Every write is an event in the network log, and every `gets` takes the next scripted reply, with nil for EOF or a failed read.
- `get_connection(nil)` is taken to raise. When there are no nodes, an owner-less vnode therefore pushes nowhere and stops the run. In the source this is an attempted push that fails with nil; nothing is written either way.
- A write that fails is modelled only through the nil reply it leads to.
- `sleep @stream_copy_wait_param` is left out: pacing has no effect on what is sent.
- `puts` and `STDERR.puts` are left out because they are logging only.
- `exit` becomes outcome values: `Parsed.Usage`/`Rejected`, `Outcome.Aborted`, and `SuiteOutcome`.
- Dafny maps have no order, so the routing data carries the key order of `v_idx` as its field `vnodes`. Recovery.RecoverLost.Suite requires that this field list the keys of `v_idx`, each once.
- `get_routing_data` (the `routedump` client) is outside this file. Its result is the `rd0` parameter of `Suite`.
- `RoutingData#get_lost_vnodes` belongs to the routing table class. Its result is the `lost` field of `RoutingData`.
- `rand` is replaced by a placement function `pick(unit, k)`, which must return a valid node index when there are nodes.
- The storage backends are not modelled. `opendb`, `closedb` and `each_vn_dump` are replaced by a map from vnode to its dump records, because the backends are separate classes.
- `Dir::glob` and `File::directory?` are replaced by directory listings (`Entry` values).
- Storage.OpenStorage: `File.extname` is modelled as the text after the last `.` of the first `0.*` file. Its edge cases for hidden files and multiple dots are not.
- Storage.OpenStorage: an unsupported extension or a missing `0.*` file raises in the source. Here these are the `Unsupported` and `NoDataFile` results, and `Suite` stops there.
- `open_storage` returning nil cannot happen from `suite`, because `each_hash` yields directories only. It is modelled as `NotFound`.
- Text.ToI models Ruby's `to_i` on decimal text with sign, leading blanks and `_` separators. It does not skip the `0d`/`0D` prefix that Ruby's base-10 parse accepts (`"0d12".to_i` is 12, `ToI` gives 0), and other radixes are not modelled.
- Recovery.RecoverLost.Suite: when the history is unavailable, the state of the reply script afterwards is not specified. In the source this raises out of `suite`.
- The `rescue` branch of `broadcast_cmd` cannot be reached here, because `send_cmd` rescues its own errors.
- The trace that the corrected step produces on the counterexample input of the finding below is not proved as a concrete instance. The general property is Recovery.RouteUpdateSent.

## Findings

| source | as written | input that shows it | evidently intended | confidence | as-written member | corrected member |
|---|---|---|---|---|---|---|
| ruby/server/lib/roma/tools/recoverlost_lib.rb:153 | `nid` in the `setroute` command and in `send_cmd` is referenced outside the block of line 145 that binds it. Ruby then raises NameError after the pushes of a newly assigned vnode, so no routing update is ever sent | vnode 7 has no owners; the nodes are `a_1`, `b_2`, `c_3`; `b_2` is chosen and answers READY, then STORED | send `setroute` to the chosen node `nids[0]`, then broadcast it to the others | not executed | Recovery.NidAsWrittenRaises | Recovery.RouteUpdateSent |
